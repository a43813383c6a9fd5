/** Board dimensions, the standard fleet and the square-state enumeration
    of the Battleship game, together with the small records the rest of the
    model is built from. */
module Config {

  datatype Option<T> = None | Some(value: T)

  const BOARD_ROWS: int := 10
  const BOARD_COLUMNS: int := 10

  /** The number of squares on the board. */
  const BOARD_SQUARES: int := BOARD_ROWS * BOARD_COLUMNS

  datatype Orientation = Horizontal | Vertical

  /** The six values of SQUARE_STATE. */
  datatype Square = Empty | Ship | Hit | Miss | ShipSunk | Forbidden

  /** A board position: x is the column, y is the row. */
  datatype Coords = Coords(x: int, y: int)

  /** A ship record. The fleet entries carry no orientation, position or sunk
      flag; every consumer treats a missing orientation as horizontal and a
      missing sunk flag as false, which is what the defaults here stand for. */
  datatype Ship = Ship(name: string, length: int, placed: bool,
                       orientation: Orientation, position: Option<Coords>, sunk: bool)

  /** One shot in a hit history; `kind` is the square state it stamps
      ('hit' or 'miss' for every event the game creates). */
  datatype HitEvent = HitEvent(position: Coords, kind: Square)

  /** AVAILABLE_SHIPS: the five ships of the standard fleet, none placed. */
  const AVAILABLE_SHIPS: seq<Ship> := [
    Ship.Ship("carrier", 5, false, Horizontal, None, false),
    Ship.Ship("battleship", 4, false, Horizontal, None, false),
    Ship.Ship("cruiser", 3, false, Horizontal, None, false),
    Ship.Ship("submarine", 3, false, Horizontal, None, false),
    Ship.Ship("destroyer", 2, false, Horizontal, None, false)
  ]

  /** The string value SQUARE_STATE gives each square state. */
  function SquareName(s: Square): string {
    match s
    case Empty => "empty"
    case Ship => "ship"
    case Hit => "hit"
    case Miss => "miss"
    case ShipSunk => "ship-sunk"
    case Forbidden => "forbidden"
  }

  /** stateToClass: the CSS class of each square-state value. */
  const STATE_TO_CLASS: map<string, string> := map[
    SquareName(Empty) := "empty",
    SquareName(Square.Ship) := "ship",
    SquareName(Hit) := "hit",
    SquareName(Miss) := "miss",
    SquareName(ShipSunk) := "ship-sunk",
    SquareName(Forbidden) := "forbidden"
  ]

  /** Sum of the lengths of a list of ships. */
  function TotalLength(ships: seq<Ship>): int {
    if ships == [] then 0 else TotalLength(ships[..|ships| - 1]) + ships[|ships| - 1].length
  }

  lemma BoardIsSquare()
    ensures BOARD_ROWS == 10 && BOARD_COLUMNS == 10 && BOARD_SQUARES == 100
  {
  }

  /** The fleet: five ships of lengths 5, 4, 3, 3, 2 covering 17 squares,
      with pairwise-distinct names, none placed or sunk. */
  lemma FleetShape()
    ensures |AVAILABLE_SHIPS| == 5
    ensures [AVAILABLE_SHIPS[0].length, AVAILABLE_SHIPS[1].length, AVAILABLE_SHIPS[2].length,
             AVAILABLE_SHIPS[3].length, AVAILABLE_SHIPS[4].length] == [5, 4, 3, 3, 2]
    ensures TotalLength(AVAILABLE_SHIPS) == 17
    ensures forall i, j :: 0 <= i < j < |AVAILABLE_SHIPS| ==> AVAILABLE_SHIPS[i].name != AVAILABLE_SHIPS[j].name
    ensures forall i :: 0 <= i < |AVAILABLE_SHIPS| ==>
              !AVAILABLE_SHIPS[i].placed && !AVAILABLE_SHIPS[i].sunk && AVAILABLE_SHIPS[i].position == None
  {
    var f := AVAILABLE_SHIPS;
    assert TotalLength(f[..1]) == 5;
    assert f[..2][..1] == f[..1];
    assert TotalLength(f[..2]) == 9;
    assert f[..3][..2] == f[..2];
    assert TotalLength(f[..3]) == 12;
    assert f[..4][..3] == f[..3];
    assert TotalLength(f[..4]) == 15;
    assert f[..5][..4] == f[..4];
    assert f[..5] == f;
  }

  /** The six square-state values are pairwise distinct, so a state can be
      recovered from its string; ship_sunk is the string 'ship-sunk'. */
  lemma SquareNamesDistinct(a: Square, b: Square)
    ensures SquareName(a) == SquareName(b) <==> a == b
    ensures SquareName(ShipSunk) == "ship-sunk"
  {
    if a != b {
      match a
      case Empty => assert SquareName(a)[0] == 'e';
        assert SquareName(b)[0] != 'e' || |SquareName(b)| != 5;
      case Ship => assert |SquareName(a)| == 4;
      case Hit => assert |SquareName(a)| == 3;
      case Miss => assert |SquareName(a)| == 4;
      case ShipSunk => assert |SquareName(a)| == 9;
      case Forbidden => assert |SquareName(a)| == 9;
    }
  }

  /** stateToClass is defined exactly on the six state values and maps each
      one to itself. */
  lemma StateToClassIsIdentity(s: Square, t: string)
    ensures SquareName(s) in STATE_TO_CLASS && STATE_TO_CLASS[SquareName(s)] == SquareName(s)
    ensures t in STATE_TO_CLASS <==> exists q: Square :: SquareName(q) == t
  {
    if t in STATE_TO_CLASS {
      if t == "empty" { assert SquareName(Empty) == t; }
      else if t == "ship" { assert SquareName(Square.Ship) == t; }
      else if t == "hit" { assert SquareName(Hit) == t; }
      else if t == "miss" { assert SquareName(Miss) == t; }
      else if t == "ship-sunk" { assert SquareName(ShipSunk) == t; }
      else { assert SquareName(Forbidden) == t; }
    }
  }
}
