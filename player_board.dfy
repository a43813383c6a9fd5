/** The player's board: the placement preview drawn over the derived board
    (a valid ghost in 'ship' squares, an invalid one in 'forbidden' squares
    cut at the board edge), and the handlers that move and drop the ship
    being placed. */
module PlayerBoard {
  import opened Config
  import opened Seqs
  import opened GameLogic
  import opened Layouts
  import opened GameFlow

  /** isPlacingOverBoard: a ship is being placed and has a position. */
  predicate PlacingOverBoard(cp: Option<Ship>) {
    cp.Some? && cp.value.position.Some?
  }

  /** canPlaceCurrentShip, evaluated on the board before the preview is drawn. */
  predicate CanPlaceCurrentShip(layout: seq<Square>, cp: Option<Ship>) {
    PlacingOverBoard(cp) && CanBePlaced(ShipEntity(cp.value), layout)
  }

  /** The invalid-placement ghost: the ship shortened by its overhang. For
      an anchor on the board it is never longer than the ship, always fits
      within the board, is the ship itself when the ship fits, and otherwise
      reaches exactly to the board edge. */
  function ForbiddenGhost(s: Ship): (e: Entity)
    requires Positioned(s)
    ensures e.position == s.position.value && e.orientation == s.orientation
    ensures OnBoard(s.position.value) && s.length >= 0 ==>
              0 <= e.length <= s.length && IsWithinBoard(e)
    ensures IsWithinBoard(ShipEntity(s)) ==> e == ShipEntity(s)
    ensures !IsWithinBoard(ShipEntity(s)) ==>
              if s.orientation == Vertical then e.position.y + e.length == BOARD_ROWS
              else e.position.x + e.length == BOARD_COLUMNS
  {
    var ship := ShipEntity(s);
    ship.(length := ship.length - ComputeOverhang(ship))
  }

  /** The board the player sees: the derived board with the preview drawn on it. */
  function DisplayedLayout(base: seq<Square>, cp: Option<Ship>): (r: seq<Square>)
    ensures |r| == |base|
  {
    if !PlacingOverBoard(cp) then base
    else if CanBePlaced(ShipEntity(cp.value), base) then Updated(base, ShipEntity(cp.value), SquareName(Square.Ship))
    else Updated(base, ForbiddenGhost(cp.value), SquareName(Forbidden))
  }

  /** With no ship over the board the display is the derived board itself;
      a valid ghost turns exactly its own squares, all of them empty board
      squares, to 'ship' and leaves every other square as it was. */
  lemma {:induction false} ValidPreview(base: seq<Square>, cp: Option<Ship>, k: int)
    requires 0 <= k < |base|
    ensures !PlacingOverBoard(cp) ==> DisplayedLayout(base, cp) == base
    ensures CanPlaceCurrentShip(base, cp) ==>
              (DisplayedLayout(base, cp)[k] ==
                 if k in OccupiedIndices(ShipEntity(cp.value)) then Square.Ship else base[k]) &&
              (k in OccupiedIndices(ShipEntity(cp.value)) ==> base[k] == Empty)
  {
    if CanPlaceCurrentShip(base, cp) {
      UpdatedCells(base, ShipEntity(cp.value), Square.Ship);
    }
  }

  /** An invalid ghost anchored on the board is cut to the squares that fit:
      it is within the board, it has length minus overhang squares, which
      are the first squares of the ship, on the board and without wrapping
      to the next row; those squares read 'forbidden' and the others keep
      their state. */
  lemma {:induction false} ForbiddenPreview(base: seq<Square>, cp: Option<Ship>, k: int)
    requires PlacingOverBoard(cp) && !CanPlaceCurrentShip(base, cp)
    requires OnBoard(cp.value.position.value) && cp.value.length >= 0 && 0 <= k < |base|
    ensures var cut := ForbiddenGhost(cp.value);
            && IsWithinBoard(cut)
            && |OccupiedIndices(cut)| == cp.value.length - ComputeOverhang(ShipEntity(cp.value))
            && (forall i :: 0 <= i < |OccupiedIndices(cut)| ==>
                  OccupiedIndices(cut)[i] == OccupiedIndices(ShipEntity(cp.value))[i] &&
                  OnBoard(CellAt(cut, i)) && IndexToCoords(OccupiedIndices(cut)[i]) == CellAt(cut, i))
            && DisplayedLayout(base, cp)[k] == if k in OccupiedIndices(cut) then Forbidden else base[k]
  {
    var cut := ForbiddenGhost(cp.value);
    var ship := ShipEntity(cp.value);
    assert cut.length >= 0;
    assert IsWithinBoard(cut);
    assert |OccupiedIndices(cut)| == cut.length;
    WithinBoardCells(cut);
    assert |OccupiedIndices(cut)| <= |OccupiedIndices(ship)|;
    UpdatedCells(base, cut, Forbidden);
  }

  /** A ship that passes canBePlaced on the derived board, anchored on the
      board, joins a well-placed fleet without overlapping any ship. */
  lemma {:induction false} PlacementKeepsFleet(ships: seq<Ship>, events: seq<HitEvent>, s: Ship)
    requires FleetOnBoard(ships) && Positioned(s) && OnBoard(s.position.value)
    requires CanBePlaced(ShipEntity(s), BoardLayout(ships, events))
    ensures FleetOnBoard(ships + [s.(placed := true)])
  {
    var all := ships + [s.(placed := true)];
    var layout := BoardLayout(ships, events);
    var occ := OccupiedIndices(ShipEntity(s));
    forall i | 0 <= i < |ships|
      ensures Disjoint(ShipEntity(ships[i]), ShipEntity(s))
    {
      forall k | k in OccupiedIndices(ShipEntity(ships[i]))
        ensures k !in occ
      {
        if k in occ {
          var m :| 0 <= m < |occ| && occ[m] == k;
          assert 0 <= k < |layout| && layout[k] == Empty;
          BoardLayoutAt(ships, events, k);
        }
      }
    }
    assert ShipEntity(all[|ships|]) == ShipEntity(s);
    forall i, j | 0 <= i < j < |all|
      ensures Disjoint(ShipEntity(all[i]), ShipEntity(all[j]))
    {
      if j < |ships| {
        assert all[i] == ships[i] && all[j] == ships[j];
      } else {
        assert all[i] == ships[i];
      }
    }
    forall i | 0 <= i < |all|
      ensures Positioned(all[i]) && OnBoard(all[i].position.value) && IsWithinBoard(ShipEntity(all[i]))
    {
      if i < |ships| { assert all[i] == ships[i]; }
    }
  }

  /** onClick and onDrop on a square of the player's board: the ship being
      placed is placed when canPlaceCurrentShip holds; a ship anchored on the
      board then joins the placed fleet without overlapping it. */
  method PlaceIfAllowed(g: Game) returns (placed: bool)
    requires g.Valid()
    modifies g`placedShips, g`availableShips, g`currentlyPlacing
    ensures g.Valid()
    ensures placed <==> CanPlaceCurrentShip(BoardLayout(old(g.placedShips), g.hitsByComputer), old(g.currentlyPlacing))
    ensures placed ==>
              var ship := old(g.currentlyPlacing).value;
              && g.placedShips == old(g.placedShips) + [ship.(placed := true)]
              && g.availableShips == Filter(old(g.availableShips), (s: Ship) => s.name != ship.name)
              && g.currentlyPlacing == None
    ensures !placed ==> g.placedShips == old(g.placedShips) && g.availableShips == old(g.availableShips) &&
                        g.currentlyPlacing == old(g.currentlyPlacing)
    ensures placed && FleetOnBoard(old(g.placedShips)) && OnBoard(old(g.currentlyPlacing).value.position.value) ==>
              FleetOnBoard(g.placedShips)
  {
    var layout := BoardLayout(g.placedShips, g.hitsByComputer);
    placed := CanPlaceCurrentShip(layout, g.currentlyPlacing);
    if placed {
      var ship := g.currentlyPlacing.value;
      if FleetOnBoard(g.placedShips) && OnBoard(ship.position.value) {
        PlacementKeepsFleet(g.placedShips, g.hitsByComputer, ship);
      }
      g.PlaceShip(ship);
    }
  }

  /** onMouseOver and onDragOver on square `index`: the ship being placed,
      if any, moves its anchor to that square, which is a board position. */
  method MovePreview(g: Game, index: int)
    requires 0 <= index < BOARD_SQUARES
    modifies g`currentlyPlacing
    ensures old(g.currentlyPlacing) == None ==> g.currentlyPlacing == None
    ensures old(g.currentlyPlacing).Some? ==>
              g.currentlyPlacing == Some(old(g.currentlyPlacing).value.(position := Some(IndexToCoords(index))))
    ensures g.currentlyPlacing.Some? ==>
              OnBoard(g.currentlyPlacing.value.position.value) &&
              CoordsToIndex(g.currentlyPlacing.value.position.value) == index
  {
    IndexToCoordsRoundTrip(index);
    if g.currentlyPlacing.Some? {
      g.currentlyPlacing := Some(g.currentlyPlacing.value.(position := Some(IndexToCoords(index))));
    }
  }
}
