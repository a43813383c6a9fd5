/** The board logic: index/coordinate conversion, the squares an entity
    covers, placement checks, layout updates, neighbour lookup, sunk-flag
    recomputation and random fleet deployment. */
module GameLogic {
  import opened Config
  import opened Seqs

  /** The geometry every entity passed to the board functions has: a ship
      with a position, a shortened placement ghost, or a hit event (which has
      no orientation and no length, so it covers no squares). */
  datatype Entity = Entity(position: Coords, orientation: Orientation, length: int)

  /** One random draw of generateRandomShip: the square index and the orientation. */
  datatype Draw = Draw(square: int, orientation: Orientation)

  predicate Positioned(s: Ship) {
    s.position.Some?
  }

  predicate AllPositioned(ships: seq<Ship>) {
    forall i :: 0 <= i < |ships| ==> Positioned(ships[i])
  }

  function ShipEntity(s: Ship): Entity
    requires Positioned(s)
  {
    Entity(s.position.value, s.orientation, s.length)
  }

  function EventEntity(h: HitEvent): Entity {
    Entity(h.position, Horizontal, 0)
  }

  // ---------------------------------------------------------------------
  // Coordinates

  /** generateEmptyLayout: BOARD_ROWS * BOARD_COLUMNS empty squares. */
  function EmptyLayout(): (r: seq<Square>)
    ensures |r| == BOARD_SQUARES == 100
    ensures forall k :: 0 <= k < |r| ==> r[k] == Empty
  {
    seq(BOARD_ROWS * BOARD_COLUMNS, _ => Empty)
  }

  function CoordsToIndex(c: Coords): int {
    c.y * BOARD_COLUMNS + c.x
  }

  /** JavaScript's `%`, whose remainder takes the sign of the dividend. */
  function JsRemainder(a: int, b: int): int
    requires b > 0
  {
    if a >= 0 then a % b else -((-a) % b)
  }

  /** indexToCoords. The row is `Math.floor(index / BOARD_ROWS)`; for a
      positive divisor Dafny's `/` is floor division. The divisor is
      BOARD_ROWS, not BOARD_COLUMNS, as in the original. */
  function IndexToCoords(index: int): Coords {
    Coords(JsRemainder(index, BOARD_COLUMNS), index / BOARD_ROWS)
  }

  predicate OnBoard(c: Coords) {
    0 <= c.x < BOARD_COLUMNS && 0 <= c.y < BOARD_ROWS
  }

  /** Every square index maps to a position on the board, and back to itself. */
  lemma IndexToCoordsRoundTrip(index: int)
    requires 0 <= index < BOARD_SQUARES
    ensures OnBoard(IndexToCoords(index))
    ensures CoordsToIndex(IndexToCoords(index)) == index
  {
  }

  /** Every board position maps to a square index, and back to itself. */
  lemma CoordsToIndexRoundTrip(c: Coords)
    requires OnBoard(c)
    ensures 0 <= CoordsToIndex(c) < BOARD_SQUARES
    ensures IndexToCoords(CoordsToIndex(c)) == c
  {
  }

  // ---------------------------------------------------------------------
  // Occupied squares

  /** The i-th square an entity covers. */
  function CellAt(e: Entity, i: int): Coords {
    if e.orientation == Vertical then Coords(e.position.x, e.position.y + i)
    else Coords(e.position.x + i, e.position.y)
  }

  function Span(e: Entity): nat {
    if e.length > 0 then e.length else 0
  }

  /** The indices getOccupiedIndices returns. */
  function OccupiedIndices(e: Entity): seq<int> {
    seq(Span(e), i => CoordsToIndex(CellAt(e, i)))
  }

  /** getOccupiedIndices: one index per unit of length, starting at the
      anchor's index and stepping by one square (horizontal) or by one row
      (vertical). */
  method GetOccupiedIndices(e: Entity) returns (indices: seq<int>)
    ensures |indices| == Span(e)
    ensures |indices| > 0 ==> indices[0] == CoordsToIndex(e.position)
    ensures forall i :: 0 <= i < |indices| ==>
              indices[i] == CoordsToIndex(e.position) + (if e.orientation == Vertical then i * BOARD_COLUMNS else i)
    ensures indices == OccupiedIndices(e)
  {
    indices := [];
    var i := 0;
    while i < e.length
      invariant 0 <= i <= Span(e)
      invariant |indices| == i
      invariant forall j :: 0 <= j < i ==>
                  indices[j] == CoordsToIndex(e.position) + (if e.orientation == Vertical then j * BOARD_COLUMNS else j)
      invariant indices == OccupiedIndices(e)[..i]
    {
      var coords := if e.orientation == Vertical then Coords(e.position.x, e.position.y + i)
                    else Coords(e.position.x + i, e.position.y);
      indices := indices + [CoordsToIndex(coords)];
      i := i + 1;
    }
  }

  // ---------------------------------------------------------------------
  // Placement checks

  predicate IsWithinBoard(e: Entity) {
    if e.orientation == Vertical then e.position.y + e.length <= BOARD_ROWS
    else e.position.x + e.length <= BOARD_COLUMNS
  }

  /** isEmpty: every covered index reads 'empty'; an index outside the
      layout reads `undefined`, which is not 'empty'. */
  predicate IsEmpty(e: Entity, layout: seq<Square>) {
    var occ := OccupiedIndices(e);
    forall i :: 0 <= i < |occ| ==> 0 <= occ[i] < |layout| && layout[occ[i]] == Empty
  }

  predicate CanBePlaced(e: Entity, layout: seq<Square>) {
    IsWithinBoard(e) && IsEmpty(e, layout)
  }

  /** computeOverhang: how many squares stick out past the board edge along
      the entity's axis; zero exactly when the entity is within the board. */
  function ComputeOverhang(e: Entity): (r: int)
    ensures r >= 0
    ensures r == 0 <==> IsWithinBoard(e)
    ensures r > 0 ==> r == (if e.orientation == Vertical then e.position.y + e.length - BOARD_ROWS
                            else e.position.x + e.length - BOARD_COLUMNS)
  {
    var excess := if e.orientation == Vertical then e.position.y + e.length - BOARD_ROWS
                  else e.position.x + e.length - BOARD_COLUMNS;
    if excess > 0 then excess else 0
  }

  /** An entity anchored on the board that passes isWithinBoard covers only
      board squares, each at the index of the position it stands for (its
      squares do not wrap to the next row). */
  lemma {:induction false} WithinBoardCells(e: Entity)
    requires OnBoard(e.position) && IsWithinBoard(e)
    ensures forall i :: 0 <= i < |OccupiedIndices(e)| ==>
              OnBoard(CellAt(e, i)) && 0 <= OccupiedIndices(e)[i] < BOARD_SQUARES &&
              IndexToCoords(OccupiedIndices(e)[i]) == CellAt(e, i)
  {
    forall i | 0 <= i < |OccupiedIndices(e)|
      ensures OnBoard(CellAt(e, i)) && 0 <= OccupiedIndices(e)[i] < BOARD_SQUARES &&
              IndexToCoords(OccupiedIndices(e)[i]) == CellAt(e, i)
    {
      CoordsToIndexRoundTrip(CellAt(e, i));
    }
  }

  /** The same check stated on positions: the entity fits when each square
      it would cover is a board position whose square reads 'empty'. */
  predicate FitsAt(e: Entity, layout: seq<Square>) {
    forall i :: 0 <= i < Span(e) ==>
      OnBoard(CellAt(e, i)) && 0 <= CoordsToIndex(CellAt(e, i)) < |layout| &&
      layout[CoordsToIndex(CellAt(e, i))] == Empty
  }

  /** canBePlaced agrees with the positional check for every anchor on the board. */
  lemma {:induction false} CanBePlacedIffFits(e: Entity, layout: seq<Square>)
    requires OnBoard(e.position)
    ensures CanBePlaced(e, layout) <==> FitsAt(e, layout)
  {
    if CanBePlaced(e, layout) {
      WithinBoardCells(e);
    }
    if FitsAt(e, layout) && e.length > 0 {
      assert OnBoard(CellAt(e, e.length - 1));
    }
  }

  // ---------------------------------------------------------------------
  // Layout updates

  /** The layout with the given indices set to s; indices outside it are skipped. */
  function Paint(layout: seq<Square>, indices: seq<int>, s: Square): (r: seq<Square>)
    ensures |r| == |layout|
  {
    seq(|layout|, k requires 0 <= k < |layout| => if k in indices then s else layout[k])
  }

  /** The layout updateLayout returns. */
  function Updated(layout: seq<Square>, e: Entity, kind: string): (r: seq<Square>)
    ensures |r| == |layout|
  {
    if kind == "ship" then Paint(layout, OccupiedIndices(e), Square.Ship)
    else if kind == "forbidden" then Paint(layout, OccupiedIndices(e), Forbidden)
    else if kind == "hit" then Paint(layout, [CoordsToIndex(e.position)], Hit)
    else if kind == "miss" then Paint(layout, [CoordsToIndex(e.position)], Miss)
    else if kind == "ship-sunk" then Paint(layout, OccupiedIndices(e), ShipSunk)
    else layout
  }

  /** Updating with a square-state value: 'ship', 'forbidden' and
      'ship-sunk' set exactly the covered squares, 'hit' and 'miss' set only
      the square at the entity's position, 'empty' changes nothing; every
      other square keeps its state. */
  lemma UpdatedCells(layout: seq<Square>, e: Entity, s: Square)
    ensures |Updated(layout, e, SquareName(s))| == |layout|
    ensures forall k :: 0 <= k < |layout| ==>
              Updated(layout, e, SquareName(s))[k] ==
                if (s in {Square.Ship, Forbidden, ShipSunk} && k in OccupiedIndices(e)) ||
                   (s in {Hit, Miss} && k == CoordsToIndex(e.position))
                then s else layout[k]
  {
  }

  /** A type that is none of the five updateLayout recognises leaves the copy identical. */
  lemma UpdatedUnknownKind(layout: seq<Square>, e: Entity, kind: string)
    requires kind !in {"ship", "forbidden", "hit", "miss", "ship-sunk"}
    ensures Updated(layout, e, kind) == layout
  {
  }

  /** The forEach of updateLayout: writes s at every listed index. */
  method PaintAll(a: array<Square>, indices: seq<int>, s: Square)
    modifies a
    ensures a[..] == Paint(old(a[..]), indices, s)
  {
    ghost var before := a[..];
    var j := 0;
    while j < |indices|
      invariant 0 <= j <= |indices|
      invariant a[..] == Paint(before, indices[..j], s)
    {
      var idx := indices[j];
      if 0 <= idx < a.Length {
        a[idx] := s;
      }
      assert indices[..j + 1] == indices[..j] + [idx];
      j := j + 1;
    }
    assert indices[..j] == indices;
  }

  /** updateLayout: copies the layout and writes the new states into the copy. */
  method UpdateLayout(oldLayout: array<Square>, e: Entity, kind: string) returns (newLayout: array<Square>)
    ensures fresh(newLayout)
    ensures newLayout[..] == Updated(oldLayout[..], e, kind)
  {
    newLayout := new Square[oldLayout.Length](k reads oldLayout =>
                                                if 0 <= k < oldLayout.Length then oldLayout[k] else Empty);
    assert newLayout[..] == oldLayout[..];
    if kind == "ship" {
      var indices := GetOccupiedIndices(e);
      PaintAll(newLayout, indices, Square.Ship);
    }
    if kind == "forbidden" {
      var indices := GetOccupiedIndices(e);
      PaintAll(newLayout, indices, Forbidden);
    }
    if kind == "hit" {
      PaintAll(newLayout, [CoordsToIndex(e.position)], Hit);
    }
    if kind == "miss" {
      PaintAll(newLayout, [CoordsToIndex(e.position)], Miss);
    }
    if kind == "ship-sunk" {
      var indices := GetOccupiedIndices(e);
      PaintAll(newLayout, indices, ShipSunk);
    }
  }

  // ---------------------------------------------------------------------
  // Neighbours

  function Abs(n: int): nat {
    if n < 0 then -n else n
  }

  /** Orthogonally adjacent: Manhattan distance one. */
  predicate Adjacent(a: Coords, b: Coords) {
    Abs(a.x - b.x) + Abs(a.y - b.y) == 1
  }

  function IndicesOf(cs: seq<Coords>): (r: seq<int>)
    ensures |r| == |cs|
    ensures forall i :: 0 <= i < |cs| ==> r[i] == CoordsToIndex(cs[i])
  {
    seq(|cs|, i requires 0 <= i < |cs| => CoordsToIndex(cs[i]))
  }

  /** The four orthogonal moves, left, right, up, down. */
  function Moves(c: Coords): seq<Coords> {
    [Coords(c.x - 1, c.y), Coords(c.x + 1, c.y), Coords(c.x, c.y - 1), Coords(c.x, c.y + 1)]
  }

  /** getNeighbors: the indices of the orthogonal neighbours that lie on the
      board, each once. */
  function GetNeighbors(c: Coords): (r: seq<int>)
    ensures |r| <= 4
    ensures NoDuplicates(r)
    ensures forall k :: k in r ==> 0 <= k < BOARD_SQUARES
  {
    var inside := Filter(Moves(c), OnBoard);
    var unique := Distinct(IndicesOf(inside));
    Filter(unique, (k: int) => 0 <= k < BOARD_COLUMNS * BOARD_ROWS)
  }

  /** getNeighbors of a board position returns exactly the square indices
      adjacent to it. */
  lemma {:induction false} GetNeighborsExact(c: Coords, k: int)
    requires OnBoard(c)
    ensures k in GetNeighbors(c) <==> 0 <= k < BOARD_SQUARES && Adjacent(IndexToCoords(k), c)
  {
    var inside := Filter(Moves(c), OnBoard);
    if k in GetNeighbors(c) {
      assert k in IndicesOf(inside);
      var i :| 0 <= i < |inside| && IndicesOf(inside)[i] == k;
      assert inside[i] in Moves(c);
      CoordsToIndexRoundTrip(inside[i]);
    }
    if 0 <= k < BOARD_SQUARES && Adjacent(IndexToCoords(k), c) {
      var n := IndexToCoords(k);
      IndexToCoordsRoundTrip(k);
      assert n in Moves(c);
      assert n in inside;
      var i :| 0 <= i < |inside| && inside[i] == n;
      assert IndicesOf(inside)[i] == k;
    }
  }

  // ---------------------------------------------------------------------
  // Sunk flags

  /** Every covered index is the index of some event of the list, whatever
      its type (`playerHitIndices.includes(idx)` for each covered idx). */
  predicate AllCellsHit(hits: seq<HitEvent>, e: Entity) {
    forall k :: k in OccupiedIndices(e) ==> exists j :: 0 <= j < |hits| && CoordsToIndex(hits[j].position) == k
  }

  /** updateSunkShips: the same ships in the same order, each with its sunk
      flag recomputed from scratch. */
  function UpdateSunkShips(hits: seq<HitEvent>, ships: seq<Ship>): (r: seq<Ship>)
    requires AllPositioned(ships)
    ensures |r| == |ships| && AllPositioned(r)
    ensures forall i :: 0 <= i < |ships| ==> r[i] == ships[i].(sunk := r[i].sunk)
    ensures forall i :: 0 <= i < |ships| ==>
              (r[i].sunk <==> forall k :: k in OccupiedIndices(ShipEntity(ships[i])) ==>
                                exists j :: 0 <= j < |hits| && CoordsToIndex(hits[j].position) == k)
  {
    seq(|ships|, i requires 0 <= i < |ships| =>
      ships[i].(sunk := AllCellsHit(hits, ShipEntity(ships[i]))))
  }

  /** Recomputing twice gives the same ships as recomputing once. */
  lemma UpdateSunkShipsIdempotent(hits: seq<HitEvent>, ships: seq<Ship>)
    requires AllPositioned(ships)
    ensures UpdateSunkShips(hits, UpdateSunkShips(hits, ships)) == UpdateSunkShips(hits, ships)
  {
  }

  /** When no event of another type lies on the ship, the flag is true
      exactly when every covered square has a 'hit' event, the hit-only rule
      the function's JSDoc describes ("successful hit positions"); misses can
      only differ from it by lying on the ship. */
  lemma {:induction false} SunkMeansAllCellsHit(hits: seq<HitEvent>, ships: seq<Ship>, i: int)
    requires AllPositioned(ships) && 0 <= i < |ships|
    requires forall j :: 0 <= j < |hits| && hits[j].kind != Hit ==>
               CoordsToIndex(hits[j].position) !in OccupiedIndices(ShipEntity(ships[i]))
    ensures UpdateSunkShips(hits, ships)[i].sunk <==>
              forall k :: k in OccupiedIndices(ShipEntity(ships[i])) ==>
                exists j :: 0 <= j < |hits| && hits[j].kind == Hit && CoordsToIndex(hits[j].position) == k
  {
    var occ := OccupiedIndices(ShipEntity(ships[i]));
    if UpdateSunkShips(hits, ships)[i].sunk {
      forall k | k in occ
        ensures exists j :: 0 <= j < |hits| && hits[j].kind == Hit && CoordsToIndex(hits[j].position) == k
      {
        var j :| 0 <= j < |hits| && CoordsToIndex(hits[j].position) == k;
        assert hits[j].kind == Hit;
      }
    }
  }

  // ---------------------------------------------------------------------
  // Random deployment

  predicate DrawsInRange(draws: seq<Draw>) {
    forall i :: 0 <= i < |draws| ==> 0 <= draws[i].square < BOARD_SQUARES
  }

  /** generateRandomShip with the draw supplied. */
  function Candidate(s: Ship, d: Draw): Ship {
    s.(position := Some(IndexToCoords(d.square)), orientation := d.orientation)
  }

  function Prepend(prefix: seq<Ship>, r: Option<seq<Ship>>): Option<seq<Ship>> {
    match r
    case Some(rest) => Some(prefix + rest)
    case None => None
  }

  /** What randomDeployShips computes from a sequence of draws: each ship in
      turn takes draws until one passes canBePlaced against the layout of the
      ships accepted so far. None when the draws run out first. */
  function Deploy(ships: seq<Ship>, draws: seq<Draw>, layout: seq<Square>): Option<seq<Ship>>
    decreases |draws|
  {
    if ships == [] then Some([])
    else if draws == [] then None
    else
      var c := Candidate(ships[0], draws[0]);
      if CanBePlaced(ShipEntity(c), layout) then
        Prepend([c.(placed := true)], Deploy(ships[1..], draws[1..], Updated(layout, ShipEntity(c), "ship")))
      else
        Deploy(ships, draws[1..], layout)
  }

  predicate Disjoint(a: Entity, b: Entity) {
    forall k :: k in OccupiedIndices(a) ==> k !in OccupiedIndices(b)
  }

  /** The placement invariant: every ship positioned on the board, inside it
      and overlapping no other. */
  predicate FleetOnBoard(ships: seq<Ship>) {
    && AllPositioned(ships)
    && (forall i :: 0 <= i < |ships| ==>
          OnBoard(ships[i].position.value) && IsWithinBoard(ShipEntity(ships[i])))
    && (forall i, j :: 0 <= i < j < |ships| ==> Disjoint(ShipEntity(ships[i]), ShipEntity(ships[j])))
  }

  /** A deployment keeps the ships and their order, marks each placed, puts
      each on squares that were empty, inside the board, none overlapping. */
  lemma {:induction false} DeployPlacesFleet(ships: seq<Ship>, draws: seq<Draw>, layout: seq<Square>, out: seq<Ship>)
    requires DrawsInRange(draws)
    requires Deploy(ships, draws, layout) == Some(out)
    ensures |out| == |ships| && FleetOnBoard(out)
    ensures forall i :: 0 <= i < |out| ==>
              out[i] == ships[i].(position := out[i].position, orientation := out[i].orientation, placed := true)
    ensures forall i :: 0 <= i < |out| ==> IsEmpty(ShipEntity(out[i]), layout)
    decreases |draws|
  {
    if ships == [] {
      return;
    }
    var c := Candidate(ships[0], draws[0]);
    if !CanBePlaced(ShipEntity(c), layout) {
      DeployPlacesFleet(ships, draws[1..], layout, out);
      return;
    }
    var next := Updated(layout, ShipEntity(c), "ship");
    var rest := Deploy(ships[1..], draws[1..], next).value;
    assert out == [c.(placed := true)] + rest;
    DeployPlacesFleet(ships[1..], draws[1..], next, rest);
    IndexToCoordsRoundTrip(draws[0].square);
    UpdatedCells(layout, ShipEntity(c), Square.Ship);
    assert ShipEntity(out[0]) == ShipEntity(c);
    forall j | 0 <= j < |rest|
      ensures IsEmpty(ShipEntity(rest[j]), layout) && Disjoint(ShipEntity(c), ShipEntity(rest[j]))
    {
      var occ := OccupiedIndices(ShipEntity(rest[j]));
      forall i | 0 <= i < |occ| ensures occ[i] !in OccupiedIndices(ShipEntity(c)) && layout[occ[i]] == Empty {
        assert next[occ[i]] == Empty;
      }
    }
    forall i | 0 <= i < |out| ensures IsEmpty(ShipEntity(out[i]), layout) {
      if i > 0 { assert out[i] == rest[i - 1]; }
    }
    forall i, j | 0 <= i < j < |out| ensures Disjoint(ShipEntity(out[i]), ShipEntity(out[j])) {
      if i > 0 { assert out[i] == rest[i - 1] && out[j] == rest[j - 1]; }
      else { assert out[j] == rest[j - 1]; }
    }
  }

  /** randomDeployShips, with the random draws supplied in order. The
      original retries forever; here the ships are returned only when the
      draws suffice, and None says they ran out. */
  method RandomDeployShips(ships: seq<Ship>, draws: seq<Draw>) returns (r: Option<seq<Ship>>)
    requires DrawsInRange(draws)
    ensures r == Deploy(ships, draws, EmptyLayout())
    ensures r.Some? ==> |r.value| == |ships| && FleetOnBoard(r.value)
    ensures r.Some? ==> forall i :: 0 <= i < |ships| ==>
              r.value[i] == ships[i].(position := r.value[i].position, orientation := r.value[i].orientation,
                                      placed := true)
  {
    var layout := new Square[BOARD_ROWS * BOARD_COLUMNS](_ => Empty);
    assert layout[..] == EmptyLayout();
    var out: seq<Ship> := [];
    var d := 0;
    assert ships[0..] == ships && draws[0..] == draws;
    assert Prepend(out, Deploy(ships, draws, EmptyLayout())) == Deploy(ships, draws, EmptyLayout()) by {
      var x := Deploy(ships, draws, EmptyLayout());
      if x.Some? { assert [] + x.value == x.value; }
    }
    for i := 0 to |ships|
      invariant 0 <= d <= |draws|
      invariant Deploy(ships, draws, EmptyLayout()) == Prepend(out, Deploy(ships[i..], draws[d..], layout[..]))
    {
      var accepted := false;
      while !accepted
        invariant 0 <= d <= |draws|
        invariant !accepted ==>
                    Deploy(ships, draws, EmptyLayout()) == Prepend(out, Deploy(ships[i..], draws[d..], layout[..]))
        invariant accepted ==>
                    Deploy(ships, draws, EmptyLayout()) == Prepend(out, Deploy(ships[i + 1..], draws[d..], layout[..]))
        decreases |draws| - d, !accepted
      {
        if d == |draws| {
          return None;
        }
        var newShip := Candidate(ships[i], draws[d]);
        assert draws[d..][1..] == draws[d + 1..];
        assert ships[i..][1..] == ships[i + 1..];
        d := d + 1;
        if CanBePlaced(ShipEntity(newShip), layout[..]) {
          layout := UpdateLayout(layout, ShipEntity(newShip), SquareName(Square.Ship));
          assert out + [newShip.(placed := true)] + [] == out + [newShip.(placed := true)];
          PrependAssoc(out, [newShip.(placed := true)], Deploy(ships[i + 1..], draws[d..], layout[..]));
          out := out + [newShip.(placed := true)];
          accepted := true;
        }
      }
    }
    assert ships[|ships|..] == [];
    assert out + [] == out;
    r := Some(out);
    if r.Some? {
      DeployPlacesFleet(ships, draws, EmptyLayout(), r.value);
    }
  }

  lemma PrependAssoc(a: seq<Ship>, b: seq<Ship>, r: Option<seq<Ship>>)
    ensures Prepend(a, Prepend(b, r)) == Prepend(a + b, r)
  {
    if r.Some? {
      assert a + (b + r.value) == a + b + r.value;
    }
  }
}
