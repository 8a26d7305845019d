/**
 A player (the `Joueur` class): a name, a board, a fleet of ships and a
 flag telling a human from the computer. Adding a ship to the player adds
 it to both the fleet and the board's ship list.
 */
module Players {
  import opened Options
  import opened Ships
  import opened Boards

  datatype Player = Player(name: string, board: Board, fleet: seq<Ship>, human: bool)

  /** The fleet and the board's ship list are the same list. */
  predicate InStep(p: Player)
  {
    p.fleet == p.board.ships
  }

  /**
   The fleet is what was added to the board since the player was built:
   the board's ship list ends with the fleet. This holds even when the
   player was handed a board that already carried ships.
   */
  predicate FleetEndsBoard(p: Player)
  {
    && |p.fleet| <= |p.board.ships|
    && p.board.ships[|p.board.ships| - |p.fleet|..] == p.fleet
  }

  /**
   `Joueur(nom, plateau, est_humain)`: a player with an empty fleet, on the
   given board or on a new default-size board when none is given.
   */
  function NewPlayer(name: string, board: Option<Board> := None, human: bool := true): (p: Player)
    ensures p.name == name && p.human == human && p.fleet == []
    ensures board.Some? ==> p.board == board.value
    ensures board.None? ==> p.board == NewBoard(DefaultSize)
    ensures board.None? ==> InStep(p) && Square(p.board) && |p.board.grid| == 10
    ensures FleetEndsBoard(p)
  {
    match board
    case Some(b) => Player(name, b, [], human)
    case None =>
      var b := NewBoard(DefaultSize);
      assert b.ships == [] && Square(b) && |b.grid| == 10;
      Player(name, b, [], human)
  }

  /** `Joueur.ajouter_navire`: the ship joins the fleet and the board in one step. */
  function AddShip(p: Player, s: Ship): (r: Player)
    ensures r.name == p.name && r.human == p.human
    ensures r.board.size == p.board.size && r.board.grid == p.board.grid
    ensures r.fleet == p.fleet + [s]
    ensures r.board.ships == p.board.ships + [s]
    ensures InStep(p) ==> InStep(r)
    ensures FleetEndsBoard(p) ==> FleetEndsBoard(r)
  {
    var board := Boards.AddShip(p.board, s);
    assert board.ships == p.board.ships + [s];
    Player(p.name, board, p.fleet + [s], p.human)
  }

  /** The player after `ajouter_navire` has been called on each of `ships`, in order. */
  function AddShips(p: Player, ships: seq<Ship>): (r: Player)
    ensures r.name == p.name && r.human == p.human
    ensures r.board.size == p.board.size && r.board.grid == p.board.grid
    ensures r.fleet == p.fleet + ships
    ensures r.board.ships == p.board.ships + ships
    decreases |ships|
  {
    if ships == [] then p
    else
      var r := AddShips(AddShip(p, ships[0]), ships[1..]);
      assert [ships[0]] + ships[1..] == ships;
      r
  }

  /**
   A player built without a board keeps its fleet and its board's ship
   list equal however many ships are added.
   */
  lemma FreshPlayerStaysInStep(name: string, human: bool, ships: seq<Ship>)
    ensures InStep(AddShips(NewPlayer(name, None, human), ships))
    ensures AddShips(NewPlayer(name, None, human), ships).fleet == ships
  {
  }

  /** Adding ships keeps the fleet at the end of the board's ship list. */
  lemma AddShipsKeepsFleetOnBoard(p: Player, ships: seq<Ship>)
    requires FleetEndsBoard(p)
    ensures FleetEndsBoard(AddShips(p, ships))
  {
  }
}
