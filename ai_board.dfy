/** The computer's board, which the player attacks: the already-hit test,
    the torpedo that records a shot, and the square click that fires and
    hands the turn to the computer. */
module AIBoard {
  import opened Config
  import opened GameLogic
  import opened Layouts
  import opened GameFlow

  /** alreadyHit: the square reads 'hit', 'miss' or 'ship-sunk'. An index
      outside the board reads `undefined`, which is none of them. */
  predicate AlreadyHit(layout: seq<Square>, index: int) {
    0 <= index < |layout| && layout[index] in {Hit, Miss, ShipSunk}
  }

  /** fireTorpedo: a hit on a 'ship' square or a miss on an 'empty' one,
      appended to the player's history; None (the original returns
      `undefined`) on any other square. */
  function FireTorpedo(layout: seq<Square>, hits: seq<HitEvent>, index: int): (r: Option<seq<HitEvent>>)
    ensures r.Some? <==> Untried(layout, index)
    ensures r.Some? ==> |r.value| == |hits| + 1 && r.value[..|hits|] == hits
    ensures r.Some? ==> r.value[|hits|].position == IndexToCoords(index)
    ensures r.Some? ==> (r.value[|hits|].kind == Hit <==> layout[index] == Square.Ship)
    ensures r.Some? ==> r.value[|hits|].kind in {Hit, Miss}
  {
    if 0 <= index < |layout| && layout[index] == Square.Ship then
      Some(hits + [HitEvent(IndexToCoords(index), Hit)])
    else if 0 <= index < |layout| && layout[index] == Empty then
      Some(hits + [HitEvent(IndexToCoords(index), Miss)])
    else None
  }

  /** On a derived board, a square has been hit exactly when a shot was
      recorded at it or a sunk ship covers it; otherwise it is untried. */
  lemma AlreadyHitIff(ships: seq<Ship>, events: seq<HitEvent>, k: int)
    requires AllPositioned(ships) && 0 <= k < BOARD_SQUARES
    ensures AlreadyHit(BoardLayout(ships, events), k) <==> ShotAt(events, k) || SunkCovers(ships, k)
    ensures !AlreadyHit(BoardLayout(ships, events), k) <==> Untried(BoardLayout(ships, events), k)
  {
    BoardLayoutAt(ships, events, k);
  }

  /** Firing at a board square that is not already hit always records a
      shot, at a square no earlier shot targeted, and the shot is a hit
      exactly when a computer ship covers the square. */
  lemma FireAtFreshSquare(ships: seq<Ship>, hits: seq<HitEvent>, k: int)
    requires AllPositioned(ships) && 0 <= k < BOARD_SQUARES
    requires !AlreadyHit(BoardLayout(ships, hits), k)
    ensures FireTorpedo(BoardLayout(ships, hits), hits, k) ==
              Some(hits + [HitEvent(IndexToCoords(k), if Covers(ships, k) then Hit else Miss)])
    ensures !ShotAt(hits, k) && CoordsToIndex(IndexToCoords(k)) == k
  {
    AlreadyHitIff(ships, hits, k);
    UntriedSquareOfBoard(ships, hits, k);
    IndexToCoordsRoundTrip(k);
  }

  /** `playerCanFire && !alreadyHit(index)` for a click on square `index`:
      the render that drew the board tests the player's turn and then
      checkIfGameOver, which may end the game. */
  method ClickGate(g: Game, index: int) returns (canFire: bool)
    requires g.Valid() && 0 <= index < BOARD_SQUARES
    modifies g`gameState, g`winner
    ensures canFire <==> old(g.gameState) == PlayerTurn &&
                         !GameOverReached(g.hitsByPlayer, g.hitsByComputer) &&
                         !AlreadyHit(BoardLayout(g.computerShips, g.hitsByPlayer), index)
    ensures old(g.gameState) == PlayerTurn && GameOverReached(g.hitsByPlayer, g.hitsByComputer) ==>
              g.gameState == GameOver &&
              g.winner == Some(if HitCount(g.hitsByPlayer) == SHIP_SQUARES then Player else Computer)
    ensures !(old(g.gameState) == PlayerTurn && GameOverReached(g.hitsByPlayer, g.hitsByComputer)) ==>
              g.gameState == old(g.gameState) && g.winner == old(g.winner)
  {
    if g.gameState != PlayerTurn {
      return false;
    }
    var over := g.CheckIfGameOver();
    if over {
      return false;
    }
    var compLayout := BoardLayout(g.computerShips, g.hitsByPlayer);
    canFire := !AlreadyHit(compLayout, index);
  }

  /** The body of the click once the gate has passed: records the shot,
      recomputes the computer ships' sunk flags and runs handleComputerTurn.
      The three state updates are queued, so handleComputerTurn still reads
      the histories from before the shot: the model runs it first and then
      stores the new history and ships. `pick` stands for the computer's
      random draw. */
  method FireAndHandOver(g: Game, index: int, pick: nat) returns (scheduled: Option<Pending>)
    requires g.Valid() && 0 <= index < BOARD_SQUARES && g.gameState == PlayerTurn
    requires !GameOverReached(g.hitsByPlayer, g.hitsByComputer)
    requires !AlreadyHit(BoardLayout(g.computerShips, g.hitsByPlayer), index)
    modifies g`hitsByPlayer, g`computerShips, g`gameState, g`winner
    ensures g.Valid()
    ensures !ShotAt(old(g.hitsByPlayer), index)
    ensures g.hitsByPlayer == old(g.hitsByPlayer) +
              [HitEvent(IndexToCoords(index), if Covers(old(g.computerShips), index) then Hit else Miss)]
    ensures DistinctTargets(old(g.hitsByPlayer)) ==> DistinctTargets(g.hitsByPlayer)
    ensures g.computerShips == UpdateSunkShips(g.hitsByPlayer, old(g.computerShips))
    ensures g.gameState == ComputerTurn && g.winner == old(g.winner)
    ensures var layout := BoardLayout(g.placedShips, g.hitsByComputer);
            var candidates := TargetCandidates(layout, g.hitsByComputer);
            (scheduled.Some? <==> |candidates| > 0) &&
            (scheduled.Some? ==>
               scheduled.value == Pending(candidates[pick % |candidates|], layout, g.hitsByComputer, g.placedShips))
  {
    var compLayout := BoardLayout(g.computerShips, g.hitsByPlayer);
    FireAtFreshSquare(g.computerShips, g.hitsByPlayer, index);
    if DistinctTargets(g.hitsByPlayer) {
      ShotAtFreshSquare(g.hitsByPlayer,
        HitEvent(IndexToCoords(index), if Covers(g.computerShips, index) then Hit else Miss));
    }
    IndexToCoordsRoundTrip(index);
    var newHits := FireTorpedo(compLayout, g.hitsByPlayer, index).value;
    var shipsWithSunkFlag := UpdateSunkShips(newHits, g.computerShips);
    scheduled := g.HandleComputerTurn(pick);
    g.hitsByPlayer := newHits;
    g.computerShips := shipsWithSunkFlag;
  }

  /** onClick of square `index` of the computer's board. */
  method OnSquareClick(g: Game, index: int, pick: nat) returns (fired: bool, scheduled: Option<Pending>)
    requires g.Valid() && 0 <= index < BOARD_SQUARES
    modifies g`hitsByPlayer, g`computerShips, g`gameState, g`winner
    ensures g.Valid()
    ensures fired <==> old(g.gameState) == PlayerTurn &&
                       !GameOverReached(old(g.hitsByPlayer), g.hitsByComputer) &&
                       !AlreadyHit(BoardLayout(old(g.computerShips), old(g.hitsByPlayer)), index)
    ensures !fired ==> scheduled == None && g.hitsByPlayer == old(g.hitsByPlayer) &&
                       g.computerShips == old(g.computerShips)
    // A shot lands on a square never shot before, and is a hit exactly on a ship
    ensures fired ==> !ShotAt(old(g.hitsByPlayer), index)
    ensures fired ==> (g.hitsByPlayer == old(g.hitsByPlayer) +
              [HitEvent(IndexToCoords(index), if Covers(old(g.computerShips), index) then Hit else Miss)])
    ensures fired && DistinctTargets(old(g.hitsByPlayer)) ==> DistinctTargets(g.hitsByPlayer)
    ensures fired ==> g.computerShips == UpdateSunkShips(g.hitsByPlayer, old(g.computerShips))
    // The render-time game-over test, and the computer's turn decided on the
    // histories from before the shot
    ensures old(g.gameState) == PlayerTurn && GameOverReached(old(g.hitsByPlayer), g.hitsByComputer) ==>
              g.gameState == GameOver &&
              g.winner == Some(if HitCount(g.hitsByPlayer) == SHIP_SQUARES then Player else Computer)
    ensures fired ==> g.gameState == ComputerTurn && g.winner == old(g.winner)
    ensures !fired && !(old(g.gameState) == PlayerTurn && GameOverReached(old(g.hitsByPlayer), g.hitsByComputer)) ==>
              g.gameState == old(g.gameState) && g.winner == old(g.winner)
    ensures fired ==>
              var layout := BoardLayout(g.placedShips, g.hitsByComputer);
              var candidates := TargetCandidates(layout, g.hitsByComputer);
              (scheduled.Some? <==> |candidates| > 0) &&
              (scheduled.Some? ==>
               scheduled.value == Pending(candidates[pick % |candidates|], layout, g.hitsByComputer, g.placedShips))
  {
    fired := ClickGate(g, index);
    scheduled := None;
    if fired {
      scheduled := FireAndHandOver(g, index, pick);
    }
  }
}
