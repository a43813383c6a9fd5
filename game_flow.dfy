/** The game component: eight state cells that the handlers overwrite
    (phase, winner, ship being placed, placed ships, available ships,
    computer ships and the two hit histories), and the computer's
    hunt/target choice of square. */
module GameFlow {
  import opened Config
  import opened Seqs
  import opened GameLogic
  import opened Layouts

  datatype Phase = Placement | PlayerTurn | ComputerTurn | GameOver

  datatype Side = Player | Computer

  /** The number of ship squares in the standard fleet, the hit total that ends the game. */
  const SHIP_SQUARES: int := 17

  /** What chooseShip stores for a name no available ship has: the spread of
      `undefined`, a record whose only fields are the orientation and the
      position, so it has no name and covers no squares. */
  const NO_SHIP: Ship := Ship.Ship("", 0, false, Horizontal, None, false)

  /** The computer move scheduled by handleComputerTurn: the target, the
      board it was chosen on, and the computer's history and the player's
      ships as the scheduling render saw them, which the deferred
      computerFire reads and writes back. */
  datatype Pending = Pending(target: int, layout: seq<Square>, history: seq<HitEvent>, ships: seq<Ship>)

  /** A move as handleComputerTurn schedules it: the board is the one derived
      from the captured ships and history, and the target is untried on it. */
  predicate WellFormed(p: Pending) {
    && AllPositioned(p.ships) && Shots(p.history)
    && p.layout == BoardLayout(p.ships, p.history)
    && Untried(p.layout, p.target)
  }

  lemma ShipSquaresIsFleetSize()
    ensures SHIP_SQUARES == TotalLength(AVAILABLE_SHIPS)
  {
    FleetShape();
  }

  /** `ships.findIndex(s => s.name === name)`. */
  function FindShip(ships: seq<Ship>, name: string): (r: int)
    ensures -1 <= r < |ships|
    ensures r == -1 <==> forall j :: 0 <= j < |ships| ==> ships[j].name != name
    ensures r >= 0 ==> ships[r].name == name && forall j :: 0 <= j < r ==> ships[j].name != name
  {
    if ships == [] then -1
    else if ships[0].name == name then 0
    else
      var r := FindShip(ships[1..], name);
      assert forall j :: 0 < j < |ships| ==> ships[j] == ships[1..][j - 1];
      if r == -1 then -1 else r + 1
  }

  /** `history.filter(h => h.type === 'hit').length`. */
  function HitCount(history: seq<HitEvent>): (n: nat)
    ensures n <= |history|
    ensures n == |Filter(history, (h: HitEvent) => h.kind == Hit)|
  {
    if history == [] then 0
    else HitCount(history[..|history| - 1]) + (if history[|history| - 1].kind == Hit then 1 else 0)
  }

  /** One more event raises the count by one exactly when it is a 'hit'. */
  lemma HitCountAppend(history: seq<HitEvent>, e: HitEvent)
    ensures HitCount(history + [e]) == HitCount(history) + (if e.kind == Hit then 1 else 0)
  {
    assert (history + [e])[..|history|] == history;
  }

  /** Every event the game records is a 'hit' or a 'miss' at a board position. */
  predicate Shots(history: seq<HitEvent>) {
    forall j :: 0 <= j < |history| ==> history[j].kind in {Hit, Miss} && OnBoard(history[j].position)
  }

  /** No two events of a history target the same square. */
  predicate DistinctTargets(history: seq<HitEvent>) {
    forall i, j :: 0 <= i < j < |history| ==> CoordsToIndex(history[i].position) != CoordsToIndex(history[j].position)
  }

  /** A shot at a square no earlier shot targeted keeps the targets distinct. */
  lemma ShotAtFreshSquare(history: seq<HitEvent>, e: HitEvent)
    requires Shots(history) && DistinctTargets(history)
    requires !ShotAt(history, CoordsToIndex(e.position))
    ensures DistinctTargets(history + [e])
  {
    var h := history + [e];
    forall i, j | 0 <= i < j < |h|
      ensures CoordsToIndex(h[i].position) != CoordsToIndex(h[j].position)
    {
      if j == |history| {
        assert h[i] == history[i];
      }
    }
  }

  predicate GameOverReached(byPlayer: seq<HitEvent>, byComputer: seq<HitEvent>) {
    HitCount(byComputer) == SHIP_SQUARES || HitCount(byPlayer) == SHIP_SQUARES
  }

  /** The phase changeTurn moves to. */
  function NextTurn(p: Phase): (r: Phase)
    ensures r == PlayerTurn || r == ComputerTurn
    ensures r == ComputerTurn <==> p == PlayerTurn
  {
    if p == PlayerTurn then ComputerTurn else PlayerTurn
  }

  // ---------------------------------------------------------------------
  // Targeting (the pure part of handleComputerTurn)

  /** A square the computer may fire at: it reads 'empty' or 'ship'. */
  predicate Untried(layout: seq<Square>, k: int) {
    0 <= k < |layout| && (layout[k] == Empty || layout[k] == Square.Ship)
  }

  /** The square at the event's position still reads 'hit'. */
  predicate ReadsHit(layout: seq<Square>, h: HitEvent) {
    var k := CoordsToIndex(h.position);
    0 <= k < |layout| && layout[k] == Hit
  }

  /** On a derived board an untried square has never been shot at and lies
      under no sunk ship, and it reads 'ship' exactly when a ship covers it. */
  lemma UntriedSquareOfBoard(ships: seq<Ship>, events: seq<HitEvent>, k: int)
    requires AllPositioned(ships) && Untried(BoardLayout(ships, events), k)
    ensures !ShotAt(events, k) && !SunkCovers(ships, k)
    ensures BoardLayout(ships, events)[k] == Square.Ship <==> Covers(ships, k)
  {
    BoardLayoutAt(ships, events, k);
  }

  /** The computer's 'hit' events whose square still reads 'hit', that is,
      hits on ships not yet sunk. */
  function NonSunkHits(layout: seq<Square>, history: seq<HitEvent>): (r: seq<HitEvent>)
    ensures forall h :: h in r <==> h in history && h.kind == Hit && ReadsHit(layout, h)
  {
    var successful := Filter(history, (h: HitEvent) => h.kind == Hit);
    Filter(successful, (h: HitEvent) => ReadsHit(layout, h))
  }

  /** `hits.flatMap(h => getNeighbors(h.position))`. */
  function NeighborsOfAll(hits: seq<HitEvent>): seq<int> {
    FlatMap(hits, (h: HitEvent) => GetNeighbors(h.position))
  }

  /** The indices 0 .. n-1 in order. */
  function AllIndices(n: nat): (r: seq<int>)
    ensures forall k :: k in r <==> 0 <= k < n
  {
    if n == 0 then [] else AllIndices(n - 1) + [n - 1]
  }

  /** The untried neighbours of the unsunk hits (with repetitions). */
  function PotentialTargets(layout: seq<Square>, history: seq<HitEvent>): (r: seq<int>)
    ensures forall k :: k in r ==> Untried(layout, k)
  {
    Filter(NeighborsOfAll(NonSunkHits(layout, history)), (k: int) => Untried(layout, k))
  }

  /** Every untried square of the board. */
  function UntriedSquares(layout: seq<Square>): (r: seq<int>)
    ensures forall k :: k in r <==> Untried(layout, k)
    ensures |r| == 0 <==> forall k :: 0 <= k < |layout| ==> !Untried(layout, k)
  {
    var all := Filter(AllIndices(|layout|), (k: int) => Untried(layout, k));
    assert |all| > 0 ==> all[0] in all;
    all
  }

  /** The target candidates: the untried neighbours of unsunk hits, or, when
      there are none, every untried square. */
  function TargetCandidates(layout: seq<Square>, history: seq<HitEvent>): (r: seq<int>)
    ensures forall k :: k in r ==> Untried(layout, k)
    ensures |r| == 0 <==> forall k :: 0 <= k < |layout| ==> !Untried(layout, k)
  {
    var potential := PotentialTargets(layout, history);
    if |potential| == 0 then UntriedSquares(layout)
    else
      assert potential[0] in potential;
      potential
  }

  /** Index k is an untried board square orthogonally next to a computer
      'hit' whose square still reads 'hit'. */
  predicate NearUnsunkHit(layout: seq<Square>, history: seq<HitEvent>, k: int) {
    && Untried(layout, k) && 0 <= k < BOARD_SQUARES
    && exists j :: 0 <= j < |history| && history[j].kind == Hit && ReadsHit(layout, history[j]) &&
                   Adjacent(IndexToCoords(k), history[j].position)
  }

  /** Every untried neighbour of an unsunk hit is a potential target. */
  lemma NearUnsunkHitIsPotential(layout: seq<Square>, history: seq<HitEvent>, m: int)
    requires NearUnsunkHit(layout, history, m)
    requires forall j :: 0 <= j < |history| ==> OnBoard(history[j].position)
    ensures m in PotentialTargets(layout, history)
  {
    var jj :| 0 <= jj < |history| && history[jj].kind == Hit && ReadsHit(layout, history[jj]) &&
              Adjacent(IndexToCoords(m), history[jj].position);
    var h := history[jj];
    var unsunk := NonSunkHits(layout, history);
    assert h in unsunk;
    var j :| 0 <= j < |unsunk| && unsunk[j] == h;
    GetNeighborsExact(h.position, m);
    assert m in GetNeighbors(unsunk[j].position);
    assert m in NeighborsOfAll(unsunk);
  }

  /** Every potential target is an untried neighbour of an unsunk hit. */
  lemma PotentialIsNearUnsunkHit(layout: seq<Square>, history: seq<HitEvent>, m: int)
    requires m in PotentialTargets(layout, history)
    requires forall j :: 0 <= j < |history| ==> OnBoard(history[j].position)
    ensures NearUnsunkHit(layout, history, m)
  {
    var unsunk := NonSunkHits(layout, history);
    assert m in NeighborsOfAll(unsunk);
    var j :| 0 <= j < |unsunk| && m in GetNeighbors(unsunk[j].position);
    var h := unsunk[j];
    assert h in unsunk;
    var jj :| 0 <= jj < |history| && history[jj] == h;
    GetNeighborsExact(h.position, m);
  }

  /** The hunt/target rule: when some untried square is next to an unsunk
      hit, the candidates are exactly those squares; otherwise they are
      exactly the untried squares. */
  lemma {:induction false} TargetingTiers(layout: seq<Square>, history: seq<HitEvent>, k: int)
    requires forall j :: 0 <= j < |history| ==> OnBoard(history[j].position)
    ensures (exists m :: NearUnsunkHit(layout, history, m)) ==>
              (k in TargetCandidates(layout, history) <==> NearUnsunkHit(layout, history, k))
    ensures (forall m :: !NearUnsunkHit(layout, history, m)) ==>
              (k in TargetCandidates(layout, history) <==> Untried(layout, k))
  {
    var potential := PotentialTargets(layout, history);
    if k in potential {
      PotentialIsNearUnsunkHit(layout, history, k);
    }
    if NearUnsunkHit(layout, history, k) {
      NearUnsunkHitIsPotential(layout, history, k);
    }
    if |potential| == 0 {
      if exists m :: NearUnsunkHit(layout, history, m) {
        var m :| NearUnsunkHit(layout, history, m);
        NearUnsunkHitIsPotential(layout, history, m);
      }
    } else {
      assert potential[0] in potential;
      PotentialIsNearUnsunkHit(layout, history, potential[0]);
    }
  }

  class Game {
    var gameState: Phase
    var winner: Option<Side>
    var currentlyPlacing: Option<Ship>
    var placedShips: seq<Ship>
    var availableShips: seq<Ship>
    var computerShips: seq<Ship>
    var hitsByPlayer: seq<HitEvent>
    var hitsByComputer: seq<HitEvent>

    /** Every ship on either board has a position (the board folds read it),
        and both histories hold shots at board squares only. */
    predicate Valid()
      reads this
    {
      && AllPositioned(placedShips) && AllPositioned(computerShips)
      && Shots(hitsByPlayer) && Shots(hitsByComputer)
    }

    /** The values the state cells start from, and return to on restart. */
    predicate IsInitial()
      reads this
    {
      && gameState == Placement && winner == None && currentlyPlacing == None
      && placedShips == [] && availableShips == AVAILABLE_SHIPS && computerShips == []
      && hitsByPlayer == [] && hitsByComputer == []
    }

    /** The component's first render with nothing saved. */
    constructor ()
      ensures IsInitial() && Valid()
    {
      gameState := Placement;
      winner := None;
      currentlyPlacing := None;
      placedShips := [];
      availableShips := AVAILABLE_SHIPS;
      computerShips := [];
      hitsByPlayer := [];
      hitsByComputer := [];
    }

    /** chooseShip: the named available ship, horizontal, not yet over the board. */
    method ChooseShip(shipName: string)
      modifies this`currentlyPlacing
      ensures var i := FindShip(availableShips, shipName);
              currentlyPlacing ==
                Some((if i >= 0 then availableShips[i] else NO_SHIP).(orientation := Horizontal, position := None))
    {
      var shipIdx := FindShip(availableShips, shipName);
      var shipToPlace := if shipIdx >= 0 then availableShips[shipIdx] else NO_SHIP;
      currentlyPlacing := Some(shipToPlace.(orientation := Horizontal, position := None));
    }

    /** placeShip: appends the ship marked placed, drops every available ship
        of that name and clears the ship being placed. */
    method PlaceShip(ship: Ship)
      requires Valid() && Positioned(ship)
      modifies this`placedShips, this`availableShips, this`currentlyPlacing
      ensures Valid()
      ensures placedShips == old(placedShips) + [ship.(placed := true)]
      ensures availableShips == Filter(old(availableShips), (s: Ship) => s.name != ship.name)
      ensures currentlyPlacing == None
    {
      placedShips := placedShips + [ship.(placed := true)];
      availableShips := Filter(availableShips, (s: Ship) => s.name != ship.name);
      currentlyPlacing := None;
    }

    /** startTurn: deploys the computer fleet and hands the first turn to the
        player, whether or not the player's ships are all placed. The
        original retries forever; here the deployment ends when the draws
        run out and then no state changes. */
    method StartTurn(draws: seq<Draw>) returns (deployed: bool)
      requires Valid() && DrawsInRange(draws)
      modifies this`computerShips, this`gameState
      ensures Valid()
      ensures deployed <==> Deploy(AVAILABLE_SHIPS, draws, EmptyLayout()).Some?
      ensures deployed ==> computerShips == Deploy(AVAILABLE_SHIPS, draws, EmptyLayout()).value
      ensures deployed ==> |computerShips| == |AVAILABLE_SHIPS| && FleetOnBoard(computerShips)
      ensures deployed ==> gameState == PlayerTurn
      ensures !deployed ==> computerShips == old(computerShips) && gameState == old(gameState)
    {
      var placedComputerShips := RandomDeployShips(AVAILABLE_SHIPS, draws);
      deployed := placedComputerShips.Some?;
      if deployed {
        computerShips := placedComputerShips.value;
        gameState := PlayerTurn;
      }
    }

    /** changeTurn */
    method ChangeTurn()
      modifies this`gameState
      ensures gameState == NextTurn(old(gameState))
    {
      gameState := if gameState == PlayerTurn then ComputerTurn else PlayerTurn;
    }

    /** computerFire: records a hit on a 'ship' square or a miss on an
        'empty' one, then recomputes the sunk flags of the player's ships.
        `history` and `ships` are the computer's hits and the player's ships
        as the render that created this computerFire saw them; the new
        values are built from those, whatever the cells hold by now.
        (On any other square the original breaks reading an undefined history.) */
    method ComputerFire(index: int, layout: seq<Square>, history: seq<HitEvent>, ships: seq<Ship>)
      requires Valid() && AllPositioned(ships) && Shots(history)
      requires |layout| == BOARD_SQUARES && Untried(layout, index)
      modifies this`placedShips, this`hitsByComputer
      ensures Valid()
      ensures hitsByComputer == history +
                [HitEvent(IndexToCoords(index), if layout[index] == Square.Ship then Hit else Miss)]
      ensures placedShips == UpdateSunkShips(hitsByComputer, ships)
    {
      var computerHits: seq<HitEvent>;
      if layout[index] == Square.Ship {
        computerHits := history + [HitEvent(IndexToCoords(index), Hit)];
      }
      if layout[index] == Empty {
        computerHits := history + [HitEvent(IndexToCoords(index), Miss)];
      }
      IndexToCoordsRoundTrip(index);
      var sunkShips := UpdateSunkShips(computerHits, ships);
      placedShips := sunkShips;
      hitsByComputer := computerHits;
    }

    /** checkIfGameOver: true when either side has exactly 17 'hit' events;
        then the phase is 'game-over' and the winner is the player whenever
        the player has 17, the computer otherwise. */
    method CheckIfGameOver() returns (over: bool)
      modifies this`gameState, this`winner
      ensures over <==> GameOverReached(hitsByPlayer, hitsByComputer)
      ensures over ==> gameState == GameOver
      ensures over ==> winner == Some(if HitCount(hitsByPlayer) == SHIP_SQUARES then Player else Computer)
      ensures !over ==> gameState == old(gameState) && winner == old(winner)
    {
      var successfulPlayerHits := HitCount(hitsByPlayer);
      var successfulComputerHits := HitCount(hitsByComputer);
      if successfulComputerHits == SHIP_SQUARES || successfulPlayerHits == SHIP_SQUARES {
        gameState := GameOver;
        if successfulComputerHits == SHIP_SQUARES {
          winner := Some(Computer);
        }
        if successfulPlayerHits == SHIP_SQUARES {
          winner := Some(Player);
        }
        return true;
      }
      return false;
    }

    /** handleComputerTurn: changes turn, stops if the game is over, and
        otherwise derives the player's board and picks the target the
        deferred move will fire at. `pick` stands for the random draw; None
        is returned when no move is scheduled, and also when there is no
        candidate (the original schedules a move that fails at once). */
    method HandleComputerTurn(pick: nat) returns (scheduled: Option<Pending>)
      requires Valid()
      modifies this`gameState, this`winner
      ensures GameOverReached(hitsByPlayer, hitsByComputer) ==>
                gameState == GameOver && scheduled == None &&
                winner == Some(if HitCount(hitsByPlayer) == SHIP_SQUARES then Player else Computer)
      ensures !GameOverReached(hitsByPlayer, hitsByComputer) ==>
                gameState == NextTurn(old(gameState)) && winner == old(winner)
      ensures !GameOverReached(hitsByPlayer, hitsByComputer) ==>
                var layout := BoardLayout(placedShips, hitsByComputer);
                var candidates := TargetCandidates(layout, hitsByComputer);
                (scheduled.Some? <==> |candidates| > 0) &&
                (scheduled.Some? ==>
                   scheduled.value == Pending(candidates[pick % |candidates|], layout, hitsByComputer, placedShips))
      ensures scheduled.Some? ==> WellFormed(scheduled.value) && |scheduled.value.layout| == BOARD_SQUARES
    {
      ChangeTurn();
      var over := CheckIfGameOver();
      if over {
        return None;
      }
      var layout := BoardLayout(placedShips, hitsByComputer);
      var potentialTargets := TargetCandidates(layout, hitsByComputer);
      if |potentialTargets| == 0 {
        return None;
      }
      var target := potentialTargets[pick % |potentialTargets|];
      scheduled := Some(Pending(target, layout, hitsByComputer, placedShips));
    }

    /** The deferred move: computerFire on the chosen target, then changeTurn.
        The shot is at a square the captured history never targeted, a hit
        exactly when a captured ship covers it, and the new history and ships
        are built from the captured ones: a move that fires after startAgain
        writes the pre-reset history and fleet back. */
    method RunScheduled(p: Pending)
      requires Valid() && WellFormed(p)
      modifies this`placedShips, this`hitsByComputer, this`gameState
      ensures Valid()
      ensures !ShotAt(p.history, p.target)
      ensures hitsByComputer == p.history +
                [HitEvent(IndexToCoords(p.target), if Covers(p.ships, p.target) then Hit else Miss)]
      ensures placedShips == UpdateSunkShips(hitsByComputer, p.ships)
      ensures DistinctTargets(p.history) ==> DistinctTargets(hitsByComputer)
      ensures gameState == NextTurn(old(gameState))
    {
      UntriedSquareOfBoard(p.ships, p.history, p.target);
      IndexToCoordsRoundTrip(p.target);
      if DistinctTargets(p.history) {
        ShotAtFreshSquare(p.history,
          HitEvent(IndexToCoords(p.target), if Covers(p.ships, p.target) then Hit else Miss));
      }
      ComputerFire(p.target, p.layout, p.history, p.ships);
      ChangeTurn();
    }

    /** startAgain: every state cell back to its initial value. */
    method StartAgain()
      modifies this
      ensures IsInitial() && Valid()
    {
      gameState := Placement;
      winner := None;
      currentlyPlacing := None;
      placedShips := [];
      availableShips := AVAILABLE_SHIPS;
      computerShips := [];
      hitsByPlayer := [];
      hitsByComputer := [];
    }
  }
}
