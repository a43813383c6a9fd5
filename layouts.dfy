/** The board a side sees, derived from its ships and the shots fired at
    them by three folds of updateLayout: every ship stamped 'ship', then
    each event stamped with its type, then every sunk ship stamped
    'ship-sunk'. The same derivation builds the computer's board, the
    player's board and the board the computer targets. */
module Layouts {
  import opened Config
  import opened GameLogic

  /** `ships.reduce((l, s) => updateLayout(l, s, 'ship'), base)` */
  function ShipsLayout(base: seq<Square>, ships: seq<Ship>): (r: seq<Square>)
    requires AllPositioned(ships)
    ensures |r| == |base|
  {
    if ships == [] then base
    else Updated(ShipsLayout(base, ships[..|ships| - 1]), ShipEntity(ships[|ships| - 1]), SquareName(Square.Ship))
  }

  /** `events.reduce((l, h) => updateLayout(l, h, h.type), base)` */
  function EventsLayout(base: seq<Square>, events: seq<HitEvent>): (r: seq<Square>)
    ensures |r| == |base|
  {
    if events == [] then base
    else
      var last := events[|events| - 1];
      Updated(EventsLayout(base, events[..|events| - 1]), EventEntity(last), SquareName(last.kind))
  }

  /** `ships.reduce((l, s) => s.sunk ? updateLayout(l, s, 'ship-sunk') : l, base)` */
  function SunkLayout(base: seq<Square>, ships: seq<Ship>): (r: seq<Square>)
    requires AllPositioned(ships)
    ensures |r| == |base|
  {
    if ships == [] then base
    else
      var prev := SunkLayout(base, ships[..|ships| - 1]);
      var last := ships[|ships| - 1];
      if last.sunk then Updated(prev, ShipEntity(last), SquareName(ShipSunk)) else prev
  }

  /** The derived board of one side. */
  function BoardLayout(ships: seq<Ship>, events: seq<HitEvent>): (r: seq<Square>)
    requires AllPositioned(ships)
    ensures |r| == BOARD_SQUARES
  {
    SunkLayout(EventsLayout(ShipsLayout(EmptyLayout(), ships), events), ships)
  }

  /** Some ship covers index k. */
  predicate Covers(ships: seq<Ship>, k: int)
    requires AllPositioned(ships)
  {
    exists i :: 0 <= i < |ships| && k in OccupiedIndices(ShipEntity(ships[i]))
  }

  /** Some sunk ship covers index k. */
  predicate SunkCovers(ships: seq<Ship>, k: int)
    requires AllPositioned(ships)
  {
    exists i :: 0 <= i < |ships| && ships[i].sunk && k in OccupiedIndices(ShipEntity(ships[i]))
  }

  /** Some 'hit' or 'miss' event lies at index k. */
  predicate ShotAt(events: seq<HitEvent>, k: int) {
    exists j :: 0 <= j < |events| && events[j].kind in {Hit, Miss} && CoordsToIndex(events[j].position) == k
  }

  /** The type of the latest 'hit' or 'miss' event at index k, if any. */
  function LastShot(events: seq<HitEvent>, k: int): (r: Option<Square>)
    ensures r.Some? <==> ShotAt(events, k)
    ensures r.Some? ==> r.value in {Hit, Miss}
  {
    if events == [] then None
    else
      var last := events[|events| - 1];
      var prefix := events[..|events| - 1];
      assert forall j :: 0 <= j < |prefix| ==> prefix[j] == events[j];
      if last.kind in {Hit, Miss} && CoordsToIndex(last.position) == k then Some(last.kind)
      else LastShot(prefix, k)
  }

  lemma {:induction false} ShipsLayoutAt(base: seq<Square>, ships: seq<Ship>, k: int)
    requires AllPositioned(ships) && 0 <= k < |base|
    ensures ShipsLayout(base, ships)[k] == if Covers(ships, k) then Square.Ship else base[k]
  {
    if ships != [] {
      var prefix := ships[..|ships| - 1];
      var last := ships[|ships| - 1];
      ShipsLayoutAt(base, prefix, k);
      UpdatedCells(ShipsLayout(base, prefix), ShipEntity(last), Square.Ship);
      if Covers(prefix, k) {
        var i :| 0 <= i < |prefix| && k in OccupiedIndices(ShipEntity(prefix[i]));
        assert ships[i] == prefix[i];
      }
      if Covers(ships, k) && k !in OccupiedIndices(ShipEntity(last)) {
        var i :| 0 <= i < |ships| && k in OccupiedIndices(ShipEntity(ships[i]));
        assert i < |prefix| && prefix[i] == ships[i];
      }
    }
  }

  lemma {:induction false} EventsLayoutAt(base: seq<Square>, events: seq<HitEvent>, k: int)
    requires 0 <= k < |base|
    ensures EventsLayout(base, events)[k] == match LastShot(events, k) case Some(s) => s case None => base[k]
  {
    if events != [] {
      var prefix := events[..|events| - 1];
      var last := events[|events| - 1];
      EventsLayoutAt(base, prefix, k);
      UpdatedCells(EventsLayout(base, prefix), EventEntity(last), last.kind);
    }
  }

  lemma {:induction false} SunkLayoutAt(base: seq<Square>, ships: seq<Ship>, k: int)
    requires AllPositioned(ships) && 0 <= k < |base|
    ensures SunkLayout(base, ships)[k] == if SunkCovers(ships, k) then ShipSunk else base[k]
  {
    if ships != [] {
      var prefix := ships[..|ships| - 1];
      var last := ships[|ships| - 1];
      SunkLayoutAt(base, prefix, k);
      UpdatedCells(SunkLayout(base, prefix), ShipEntity(last), ShipSunk);
      if SunkCovers(prefix, k) {
        var i :| 0 <= i < |prefix| && prefix[i].sunk && k in OccupiedIndices(ShipEntity(prefix[i]));
        assert ships[i] == prefix[i];
      }
      if SunkCovers(ships, k) && !(last.sunk && k in OccupiedIndices(ShipEntity(last))) {
        var i :| 0 <= i < |ships| && ships[i].sunk && k in OccupiedIndices(ShipEntity(ships[i]));
        assert i < |prefix| && prefix[i] == ships[i];
      }
    }
  }

  /** Each square of the derived board: 'ship-sunk' under a sunk ship,
      otherwise the type of the latest shot at it, otherwise 'ship' under a
      ship, otherwise 'empty'. In particular the board never shows 'forbidden'. */
  lemma BoardLayoutAt(ships: seq<Ship>, events: seq<HitEvent>, k: int)
    requires AllPositioned(ships) && 0 <= k < BOARD_SQUARES
    ensures BoardLayout(ships, events)[k] ==
              if SunkCovers(ships, k) then ShipSunk
              else if ShotAt(events, k) then LastShot(events, k).value
              else if Covers(ships, k) then Square.Ship
              else Empty
    ensures BoardLayout(ships, events)[k] != Forbidden
  {
    var withShips := ShipsLayout(EmptyLayout(), ships);
    ShipsLayoutAt(EmptyLayout(), ships, k);
    EventsLayoutAt(withShips, events, k);
    SunkLayoutAt(EventsLayout(withShips, events), ships, k);
  }
}
