# Battleship data model (Navire, Plateau, Joueur)

A Dafny model of the first iteration of the data model of a two-player
battleship game (`main.py`). The source defines three classes:

- `Navire` (ship): a name, a declared size `taille`, the list of cells it
  occupies and the set of its cells that have been hit. `est_touche`
  records a hit on one of its own cells; `est_coule` reports the ship sunk
  when the number of distinct hit cells equals `taille`.
- `Plateau` (board): an N×N grid of blank `" "` markers (N = 10 by
  default) and the list of ships added to it.
- `Joueur` (player): a name, a board (a new 10×10 one when none is given),
  a fleet and a human/computer flag. Adding a ship to the player adds it to
  the fleet and to the board's ship list.

The classes become immutable datatypes and their methods pure functions
returning the updated value: module `Ships` (`Navire`), `Boards`
(`Plateau`), `Players` (`Joueur`), and a small `Options` module for the
`plateau=None` default argument. Python's default arguments are Dafny
default parameter values (`NewBoard(size := 10)`, `NewPlayer(name, board
:= None, human := true)`).

Source behaviour kept as written:

- `est_coule` compares with the declared `taille`, not with the cells: a
  size-0 ship is sunk from the start, a negative size is never sunk, and a
  ship with fewer distinct cells than `taille` can never sink. The other way
  round, a ship with more distinct cells than `taille` counts as sunk once
  `taille` of them are hit, and stops counting as sunk at the next hit on
  one of its cells not yet hit (`Ships.SunkLostOnFreshHit`); a repeated hit
  on an already hit cell leaves it sunk.
- `Plateau(taille)` with a negative `taille` gets an empty grid, since
  `range` of a negative number is empty (`Boards.Extent`).
- `plateau if plateau else Plateau()`: a `Plateau` object is always truthy,
  so only a missing board (`None`) is replaced by a default one.
- A player handed a board that already carries ships starts with an empty
  fleet, so its fleet and its board's list differ. As long as ships reach
  the board only through `Joueur.ajouter_navire` and no other player shares
  the board, the board's list ends with the fleet
  (`Players.FleetEndsBoard`), and for a player built without a board the
  two lists are equal. A shared board, or a direct call to the board's own
  `ajouter_navire`, breaks both; see the aliasing line under "## Left out".

## Model

| member | source | states |
|---|---|---|
| Ships.NewShip | main.py:21-25 | a new ship has the given name and size, no cells and no hits; it satisfies the hits-within-cells invariant, and it is sunk exactly when its size is 0 |
| Ships.Hit | main.py:27-32 | `est_touche(c)` never changes name, size or cells; hits only grow, by at most `c`; `c` is hit afterwards exactly when it was already hit or is one of the ship's cells; a coordinate outside the ship leaves it unchanged; the hits-within-cells invariant is preserved |
| Ships.HitAll | main.py:27-32 | after a series of `est_touche` calls the hit set is the old one plus exactly those fired coordinates that are cells of the ship, and the invariant still holds |
| Ships.HitIdempotent | main.py:31-32 | repeating `est_touche` with the same coordinate changes nothing |
| Ships.HitCommutes | main.py:31-32 | two hits give the same ship in either order |
| Ships.HitOrderIrrelevant | main.py:31-32 | two series of shots covering the same set of coordinates leave the ship in the same state, whatever the order or repetitions |
| Ships.IsSunk | main.py:34-38 | `est_coule` holds when the number of distinct hit cells equals `taille`; a ship with a negative size is never sunk, and one of size 0 is sunk exactly while it has no hits. Characterised by `SunkNeedsEnoughCells` and `SunkIffAllCellsHit` |
| Ships.SunkNeedsEnoughCells | main.py:34-38 | a ship satisfying the invariant whose distinct cells are fewer than its declared size is not sunk |
| Ships.SunkIffAllCellsHit | main.py:34-38 | for a ship with exactly `taille` distinct cells, `est_coule` holds exactly when every one of its cells is hit |
| Ships.FiringEveryCellSinks | main.py:31-38 | firing at every cell of such a ship, in any order and mixed with other shots, sinks it |
| Ships.SunkLostOnFreshHit | main.py:31-38 | for any sunk ship, a hit on one of its cells not hit before makes it no longer sunk |
| Ships.OversizedShipSinksThenUnsinks | main.py:31-38 | a size-1 ship holding two cells is sunk after the first hit and not sunk after the second |
| Ships.UnplacedShipNeverChanges | main.py:24-25 | a freshly built ship ignores every shot, so it stays sunk when its size is 0 and never sinks otherwise |
| Boards.NewBoard | main.py:59-63 | `Plateau(n)` keeps `n` as its size, has no ships, and has a square grid of `n` rows of `n` cells (none for `n <= 0`), every cell blank |
| Boards.AddShip | main.py:65-70 | `ajouter_navire` puts the ship at the end of the list, keeps the earlier ships in order, leaves size and grid unchanged and keeps the grid square |
| Boards.DefaultBoardShape | main.py:59-63 | the default board is 10 rows of 10 cells, every cell blank, and has no ships |
| Players.NewPlayer | main.py:106-110 | a new player keeps name and human flag, has an empty fleet, uses the given board or else a new blank 10×10 board with no ships; with the default board the fleet equals the board's list; in every case the board's list ends with the fleet |
| Players.AddShip | main.py:112-117 | `ajouter_navire` appends the same ship to the fleet and to the board's list, leaves name, flag, board size and grid unchanged, keeps equal lists equal and keeps the fleet at the end of the board's list |
| Players.AddShips | main.py:112-117 | after a series of `ajouter_navire` calls both the fleet and the board's list have the added ships appended in order, and the grid is unchanged |
| Players.FreshPlayerStaysInStep | main.py:106-117 | a player built without a board has its fleet equal to its board's ship list, and equal to the ships added, after any series of additions |
| Players.AddShipsKeepsFleetOnBoard | main.py:106-117 | any series of additions keeps the board's ship list ending with the fleet |

## Left out

- `afficher_grille`, `afficher_plateau` and `__repr__`: console printing and string formatting only.
- The example block run as a script at the end of the file: a demonstration, not logic.
- Ship placement (`placer_navire`) and firing (`tirer`): the file only has commented-out stubs for them, so there is no behaviour to model. The same goes for bounds and overlap checks, shot resolution, turns, win detection and random play, which this file does not contain.
- Object identity and aliasing (so the fleet and board-list statements above hold only while each board belongs to one player and is filled only through that player): the Python lists hold references, so a `Navire` added to a player is the same object in the fleet and on the board, and a `Plateau` passed to two players is shared by both. The model stores values. It states what each call does to the value it is given, not how a later mutation of a shared object shows up elsewhere.
- Cell contents other than the blank `" "` marker: cells are plain strings and nothing in this file writes any other marker.
- Dynamic typing: arguments of the wrong Python type (a non-integer size, a non-tuple coordinate, a falsy non-`None` value passed as `plateau`) are excluded by the Dafny types.
