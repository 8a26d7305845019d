/**
 A ship of the battleship game (the `Navire` class). A ship carries a name,
 a declared size, the ordered list of board cells it occupies and the set
 of those cells that have been hit.
 */
module Ships {

  /** A board coordinate, the `(ligne, colonne)` tuple of the source. */
  datatype Coord = Coord(row: int, col: int)

  /**
   `size` is the declared `taille`; it is not checked against `positions`,
   so the two can disagree (and `size` may even be zero or negative).
   */
  datatype Ship = Ship(name: string, size: int, positions: seq<Coord>, hits: set<Coord>)

  /** The distinct cells the ship occupies. */
  function Cells(s: Ship): set<Coord>
  {
    set c | c in s.positions
  }

  /** Every hit cell is one of the ship's own cells. */
  predicate Valid(s: Ship)
  {
    s.hits <= Cells(s)
  }

  /** A freshly built, not yet placed ship. */
  function NewShip(name: string, size: int): (s: Ship)
    ensures s.name == name && s.size == size
    ensures s.positions == [] && s.hits == {}
    ensures Valid(s)
    ensures IsSunk(s) <==> size == 0
  {
    Ship(name, size, [], {})
  }

  /**
   `est_touche`: records a hit on `c` when `c` is one of the ship's cells;
   a coordinate elsewhere leaves the ship untouched.
   */
  function Hit(s: Ship, c: Coord): (r: Ship)
    ensures r.name == s.name && r.size == s.size && r.positions == s.positions
    ensures s.hits <= r.hits && r.hits - s.hits <= {c}
    ensures c in r.hits <==> c in s.hits || c in s.positions
    ensures c !in s.positions ==> r == s
    ensures Valid(s) ==> Valid(r)
  {
    if c in s.positions then s.(hits := s.hits + {c}) else s
  }

  /** `est_coule`: the number of distinct hit cells equals the declared size. */
  function IsSunk(s: Ship): (sunk: bool)
    ensures s.size < 0 ==> !sunk
    ensures s.size == 0 ==> (sunk <==> s.hits == {})
  {
    |s.hits| == s.size
  }

  /** The ship after `est_touche` has been called on each of `cs`, in order. */
  function HitAll(s: Ship, cs: seq<Coord>): (r: Ship)
    ensures r.name == s.name && r.size == s.size && r.positions == s.positions
    ensures r.hits == s.hits + (set c | c in cs && c in s.positions)
    ensures Valid(s) ==> Valid(r)
    decreases |cs|
  {
    if cs == [] then s else HitAll(Hit(s, cs[0]), cs[1..])
  }

  /** Hitting the same cell a second time changes nothing. */
  lemma HitIdempotent(s: Ship, c: Coord)
    ensures Hit(Hit(s, c), c) == Hit(s, c)
  {
  }

  /** Two hits give the same ship in either order. */
  lemma HitCommutes(s: Ship, a: Coord, b: Coord)
    ensures Hit(Hit(s, a), b) == Hit(Hit(s, b), a)
  {
  }

  /** Only the set of coordinates fired at matters, not their order or repetitions. */
  lemma HitOrderIrrelevant(s: Ship, cs: seq<Coord>, ds: seq<Coord>)
    requires forall c :: c in cs <==> c in ds
    ensures HitAll(s, cs) == HitAll(s, ds)
  {
  }

  /** A subset of equal cardinality is the whole set. */
  lemma SubsetCardinality<T>(a: set<T>, b: set<T>)
    requires a <= b
    ensures |a| <= |b|
    ensures |a| == |b| ==> a == b
  {
    assert b == a + (b - a);
    assert |b| == |a| + |b - a|;
    if |a| == |b| {
      assert |b - a| == 0;
      assert b - a == {};
    }
  }

  /**
   A ship whose cells are fewer than its declared size can never sink: its
   hits are bounded by its distinct cells.
   */
  lemma SunkNeedsEnoughCells(s: Ship)
    requires Valid(s)
    requires |Cells(s)| < s.size
    ensures !IsSunk(s)
  {
    SubsetCardinality(s.hits, Cells(s));
  }

  /**
   When the ship occupies exactly `size` distinct cells, it is sunk exactly
   when every one of those cells has been hit.
   */
  lemma SunkIffAllCellsHit(s: Ship)
    requires Valid(s)
    requires |Cells(s)| == s.size
    ensures IsSunk(s) <==> Cells(s) <= s.hits
  {
    SubsetCardinality(s.hits, Cells(s));
    if Cells(s) <= s.hits {
      assert s.hits == Cells(s);
    }
  }

  /**
   Firing at every cell of a ship that occupies `size` distinct cells sinks
   it, whatever the order and whatever other shots are mixed in.
   */
  lemma FiringEveryCellSinks(s: Ship, cs: seq<Coord>)
    requires Valid(s)
    requires |Cells(s)| == s.size
    requires forall c :: c in s.positions ==> c in cs
    ensures IsSunk(HitAll(s, cs))
  {
    var r := HitAll(s, cs);
    assert Cells(r) == Cells(s);
    SunkIffAllCellsHit(r);
  }

  /**
   A ship fresh from `NewShip` has no cells, so hits never register: it is
   sunk for good when its size is zero and never sunk otherwise.
   */
  lemma UnplacedShipNeverChanges(name: string, size: int, cs: seq<Coord>)
    ensures HitAll(NewShip(name, size), cs) == NewShip(name, size)
    ensures IsSunk(HitAll(NewShip(name, size), cs)) <==> size == 0
  {
  }

  /**
   A sunk ship stops counting as sunk when one of its cells not hit before
   is hit: the hit count then exceeds the declared size.
   */
  lemma SunkLostOnFreshHit(s: Ship, c: Coord)
    requires IsSunk(s) && c in s.positions && c !in s.hits
    ensures !IsSunk(Hit(s, c))
  {
  }

  /**
   The comparison is with the declared size only: a size-1 ship holding two
   cells counts as sunk after one hit and stops counting as sunk after the
   second.
   */
  lemma OversizedShipSinksThenUnsinks()
    ensures var s := Ship("Barque", 1, [Coord(0, 0), Coord(0, 1)], {});
      && IsSunk(Hit(s, Coord(0, 0)))
      && !IsSunk(Hit(Hit(s, Coord(0, 0)), Coord(0, 1)))
  {
    var s := Ship("Barque", 1, [Coord(0, 0), Coord(0, 1)], {});
    assert Hit(Hit(s, Coord(0, 0)), Coord(0, 1)).hits == {Coord(0, 0), Coord(0, 1)};
  }
}
