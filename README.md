# Battleship engine in Dafny

This project models the engine of a single-player Battleship game (a React
application) and proves the model's properties: a human against the computer
on two 10×10 boards.

It models these parts of the engine:

- **Board logic** (`src/utils/gameLogic.js`):
  - layouts (a flat, row-major list of 100 square states);
  - index/coordinate conversion;
  - the squares a ship covers;
  - the placement checks;
  - the copy-then-write layout update;
  - neighbour lookup;
  - sunk-flag recomputation;
  - random fleet deployment.
- **Game component** (`src/components/Game.jsx`): the eight state cells and the handlers that overwrite them. This includes the computer's hunt/target choice of square.
- **The two board components** (`src/components/AIBoard.jsx`, `src/components/PlayerBoard.jsx`):
  - the three-fold derivation of each board;
  - the player's shot gate;
  - the placement preview with its overhang-shortened "forbidden" ghost;
  - the placement, hover and drag handlers.
- **Configuration** (`src/utils/gameConfig.js`): the constants, the fleet and the square-state enumeration.

Each Dafny module follows one part of the source:

| file | module | models |
|---|---|---|
| config.dfy | `Config` | gameConfig.js: board size, fleet, square states, `stateToClass` |
| seqs.dfy | `Seqs` | the JavaScript list operations the code relies on: `filter`, `[...new Set(xs)]`, `flatMap` |
| game_logic.dfy | `GameLogic` | gameLogic.js |
| layouts.dfy | `Layouts` | the ships → shots → sunk `reduce` folds common to Game.jsx, AIBoard.jsx and PlayerBoard.jsx |
| game_flow.dfy | `GameFlow` | Game.jsx: class `Game` with the eight state cells; targeting functions |
| ai_board.dfy | `AIBoard` | AIBoard.jsx |
| player_board.dfy | `PlayerBoard` | PlayerBoard.jsx |

The model's form follows the source:
- **Imperative parts stay imperative.**
  - `getOccupiedIndices` is a loop method.
  - `updateLayout` copies an `array` and writes into the copy.
  - `randomDeployShips` is a nested loop over an array layout.
  - Each method is proved equal to a specification function (`OccupiedIndices`, `Updated`, `Deploy`). The properties are proved about that function.
- **The state cells are fields.** They are fields of the class `GameFlow.Game`. The handlers are methods whose `modifies` clauses name exactly the fields the original's setters touch.
- **Pure folds are functions.** The board folds and the targeting filters are functions, with lemmas stating what each square of a derived board reads.

Randomness is supplied from outside:
- `StartTurn` takes the sequence of draws (square index and orientation) as a parameter.
- `HandleComputerTurn` and `OnSquareClick` take the target draw `pick` as a parameter.

React's update semantics within one handler are kept:
- **Queued writes.** The player's shot handler queues its writes. The `handleComputerTurn` it calls still reads the history from before the shot, so it does not see a winning shot. `AIBoard.FireAndHandOver` reproduces this by running the computer-turn step before storing the new history.
- **The delayed computer move.** It is the separate method `GameFlow.Game.RunScheduled`: `computerFire` followed by `changeTurn`, on the target, board, computer history and player fleet captured when it was scheduled.

## Model

| member | source | states |
|---|---|---|
| Config.BoardIsSquare | src/utils/gameConfig.js:1-2 | The board has 10 rows and 10 columns, 100 squares. |
| Config.FleetShape | src/utils/gameConfig.js:20-46 | The fleet is five ships of lengths 5, 4, 3, 3, 2. They cover 17 squares in total. The names are pairwise distinct, and no ship starts placed, sunk or positioned. |
| Config.SquareNamesDistinct | src/utils/gameConfig.js:57-64 | The six square-state strings are pairwise distinct: two states have the same string iff they are the same state. `ship_sunk` is the string "ship-sunk". |
| Config.StateToClassIsIdentity | src/utils/gameConfig.js:66-73 | `stateToClass` is defined exactly on the six state strings, and maps each one to itself. |
| Seqs.Filter | src/utils/gameLogic.js:190-192 | `filter` keeps exactly the elements satisfying the predicate, is no longer than its input, and keeps a duplicate-free input duplicate-free. |
| Seqs.Distinct | src/utils/gameLogic.js:194 | `[...new Set(xs)]` has no duplicates and the same elements as the input. |
| Seqs.FlatMap | src/components/Game.jsx:172-173 | An element is in the `flatMap` result iff it is in the list produced for some input element. |
| GameLogic.EmptyLayout | src/utils/gameLogic.js:7-9 | The empty layout has 100 squares, all 'empty'. |
| GameLogic.IndexToCoordsRoundTrip | src/utils/gameLogic.js:18-34 | Every index 0..99 converts to a board position that converts back to the same index. This holds although the row divides by BOARD_ROWS. |
| GameLogic.CoordsToIndexRoundTrip | src/utils/gameLogic.js:18-34 | Every board position converts to an index 0..99 that converts back to the same position. |
| GameLogic.GetOccupiedIndices | src/utils/gameLogic.js:41-53 | There is one index per unit of length. They start at the anchor's index and step by 1 horizontally or by BOARD_COLUMNS vertically. The result equals `OccupiedIndices`. |
| GameLogic.ComputeOverhang | src/utils/gameLogic.js:212-218 | The overhang is never negative. It is zero iff `isWithinBoard` holds, and otherwise it is the excess along the ship's axis. |
| GameLogic.WithinBoardCells | src/utils/gameLogic.js:41-68 | An entity anchored on the board that passes `isWithinBoard` covers only the indices 0..99. Each index stands for the intended square, with no wrap to the next row. |
| GameLogic.CanBePlacedIffFits | src/utils/gameLogic.js:60-80 | For an anchor on the board, `canBePlaced` (`isWithinBoard` and `isEmpty`) holds iff every square the ship would cover is an empty board square. |
| GameLogic.UpdatedCells | src/utils/gameLogic.js:89-119 | 'ship', 'forbidden' and 'ship-sunk' set exactly the covered indices. 'hit' and 'miss' set only the index of the position. Every other square keeps its state. |
| GameLogic.UpdatedUnknownKind | src/utils/gameLogic.js:89-119 | A type updateLayout does not recognise gives an identical copy. |
| GameLogic.PaintAll | src/utils/gameLogic.js:93-95 | The `forEach` writes the state at every listed index of the array and changes nothing else. |
| GameLogic.UpdateLayout | src/utils/gameLogic.js:89-119 | It returns a fresh array whose contents are `Updated(old contents)`. The input array is not modified. |
| GameLogic.GetNeighbors | src/utils/gameLogic.js:181-197 | There are at most 4 neighbour indices, without duplicates, all in 0..99. |
| GameLogic.GetNeighborsExact | src/utils/gameLogic.js:181-197 | For a board position, k is a neighbour iff k is a board index at Manhattan distance 1. |
| GameLogic.UpdateSunkShips | src/utils/gameLogic.js:226-242 | Ships keep their count, order and every field but `sunk`. `sunk` is true iff every covered index is the index of some event in the list, whatever its type. |
| GameLogic.UpdateSunkShipsIdempotent | src/utils/gameLogic.js:226-242 | Recomputing the flags twice gives the same ships as recomputing once. |
| GameLogic.SunkMeansAllCellsHit | src/utils/gameLogic.js:226-242 | When no non-hit event lies on the ship, `sunk` holds iff every covered square has a 'hit' event. |
| GameLogic.DeployPlacesFleet | src/utils/gameLogic.js:160-174 | A deployment keeps the ships, their fields and their order, and marks each one placed. Each ship is on the board, inside it, on squares empty at the start, and no two overlap. |
| GameLogic.RandomDeployShips | src/utils/gameLogic.js:160-174 | The loop computes `Deploy` for the supplied draws. When they suffice, the fleet has the same length and order, is placed, inside the board and non-overlapping. |
| Layouts.ShipsLayoutAt | src/components/AIBoard.jsx:31-35 | After the first fold, a square reads 'ship' iff some ship covers it, and otherwise keeps its base state. |
| Layouts.EventsLayoutAt | src/components/AIBoard.jsx:41-45 | After the second fold, a square takes the type of the latest hit or miss at it, and otherwise keeps its state. |
| Layouts.LastShot | src/components/AIBoard.jsx:41-45 | There is a latest shot at k iff some hit or miss event lies at k, and it is a 'hit' or a 'miss'. |
| Layouts.SunkLayoutAt | src/components/AIBoard.jsx:51-57 | After the third fold, a square reads 'ship-sunk' iff a sunk ship covers it, and otherwise keeps its state. |
| Layouts.BoardLayoutAt | src/components/PlayerBoard.jsx:13-32 | A derived board square reads 'ship-sunk' under a sunk ship. Failing that it reads the latest shot's type, then 'ship' under a ship, and otherwise 'empty'; it is never 'forbidden'. |
| GameFlow.ShipSquaresIsFleetSize | src/components/Game.jsx:201-202 | The game-over constant 17 is the fleet's total length. |
| GameFlow.FindShip | src/components/Game.jsx:61 | `findIndex` gives the first index whose name matches, or -1 iff there is none. |
| GameFlow.HitCount | src/components/Game.jsx:197-199 | The hit count is the number of 'hit' events the filter keeps, at most the history's length. |
| GameFlow.HitCountAppend | src/components/Game.jsx:197-199 | One more event raises the hit count by one exactly when it is a 'hit'. |
| GameFlow.NextTurn | src/components/Game.jsx:95-99 | `changeTurn` yields 'computer-turn' iff the phase was 'player-turn', and 'player-turn' otherwise. |
| GameFlow.ShotAtFreshSquare | src/components/AIBoard.jsx:118-121 | A shot at a square no earlier shot targeted keeps every target of the history distinct. |
| GameFlow.UntriedSquareOfBoard | src/components/Game.jsx:174-181 | On a derived board, a square reading 'empty' or 'ship' has never been shot at and is under no sunk ship. It reads 'ship' iff a ship covers it. |
| GameFlow.NonSunkHits | src/components/Game.jsx:165-170 | These are exactly the 'hit' events whose square still reads 'hit'. |
| GameFlow.AllIndices | src/components/Game.jsx:178 | `layout.map((_, idx) => idx)` holds exactly the indices 0..n-1. |
| GameFlow.PotentialTargets | src/components/Game.jsx:172-174 | Every potential target is untried. |
| GameFlow.UntriedSquares | src/components/Game.jsx:177-181 | These are exactly the untried squares, and the list is empty iff none is left. |
| GameFlow.TargetCandidates | src/components/Game.jsx:172-182 | Every candidate is untried, and there are none iff no untried square is left. |
| GameFlow.NearUnsunkHitIsPotential | src/components/Game.jsx:164-174 | Every untried board square next to an unsunk hit is a potential target. |
| GameFlow.PotentialIsNearUnsunkHit | src/components/Game.jsx:164-174 | Every potential target is an untried board square next to an unsunk hit. |
| GameFlow.TargetingTiers | src/components/Game.jsx:164-186 | When an untried square next to an unsunk hit exists, the candidates are exactly those squares. Otherwise they are exactly the untried squares. |
| GameFlow.Game.constructor | src/components/Game.jsx:26-33 | The eight state cells start in their initial values. |
| GameFlow.Game.ChooseShip | src/components/Game.jsx:60-69 | The ship being placed becomes the named available ship (or a nameless record), horizontal and with no position. |
| GameFlow.Game.PlaceShip | src/components/Game.jsx:72-86 | The ship is appended with `placed`, every available ship of that name is dropped, and nothing is being placed any more. No other cell changes. |
| GameFlow.Game.StartTurn | src/components/Game.jsx:89-105 | The computer fleet becomes the deployment of the draws, on the board and non-overlapping, and the phase becomes 'player-turn'. There is no check that the player's ships are placed. |
| GameFlow.Game.ChangeTurn | src/components/Game.jsx:95-99 | The phase becomes `NextTurn` of the old phase. |
| GameFlow.Game.ComputerFire | src/components/Game.jsx:108-133 | Exactly one event is appended to the history the closure captured, at the target's position: 'hit' on 'ship', 'miss' on 'empty'. The player's ships are the captured fleet with `updateSunkShips` over the new history. |
| GameFlow.Game.CheckIfGameOver | src/components/Game.jsx:196-218 | It returns true iff either side has exactly 17 hits. The phase is then 'game-over' and the winner is the player whenever the player has 17. Otherwise nothing changes. |
| GameFlow.Game.HandleComputerTurn | src/components/Game.jsx:136-187 | The turn changes and the game-over check runs. Otherwise the target is a candidate on the derived player board, so it is always untried and on the board. The scheduled move captures that board, the computer's history and the player's fleet, consistently with each other. |
| GameFlow.Game.RunScheduled | src/components/Game.jsx:189-192 | `computerFire`, then `changeTurn`, on the captured history and fleet, even after a reset. The shot is at a square no captured shot targeted, is a hit exactly when a captured ship covers it, and keeps the targets distinct. |
| GameFlow.Game.StartAgain | src/components/Game.jsx:221-231 | All eight state cells return to their initial values. |
| AIBoard.FireTorpedo | src/components/AIBoard.jsx:62-88 | It records a shot iff the square reads 'ship' or 'empty'. Exactly one event is appended at `indexToCoords(index)`: a 'hit' iff the square reads 'ship'. |
| AIBoard.AlreadyHitIff | src/components/AIBoard.jsx:97-100 | On the derived board a square is already hit iff a shot lies at it or a sunk ship covers it. Otherwise it is untried. |
| AIBoard.FireAtFreshSquare | src/components/AIBoard.jsx:62-88 | A square not already hit always records a shot at a square never shot before. It is a 'hit' exactly when a computer ship covers it. |
| AIBoard.ClickGate | src/components/AIBoard.jsx:90-92 | It lets the click fire iff it is the player's turn, the game is not over and the square is not already hit. The game-over check ends the game when it fires. |
| AIBoard.FireAndHandOver | src/components/AIBoard.jsx:121-124 | The shot is appended, the computer ships get the new sunk flags, and the computer's turn starts on the histories from before the shot. |
| AIBoard.OnSquareClick | src/components/AIBoard.jsx:118-126 | A shot happens only through the gate. It lands on a square never targeted, records a 'hit' only on a computer ship, and keeps the targets distinct. |
| PlayerBoard.ForbiddenGhost | src/components/PlayerBoard.jsx:45-48 | The ghost keeps the ship's anchor and orientation. For an anchor on the board it is never longer than the ship and always passes `isWithinBoard`. It is the ship itself when the ship fits, and otherwise ends exactly at the board edge. |
| PlayerBoard.ValidPreview | src/components/PlayerBoard.jsx:35-42 | With nothing over the board the display is the derived board. A valid ghost turns exactly its own squares, all of them empty, to 'ship'. |
| PlayerBoard.ForbiddenPreview | src/components/PlayerBoard.jsx:43-49 | An invalid ghost has length minus overhang squares: the first squares of the ship, on the board and within it. Those squares read 'forbidden' and the others keep their state. |
| PlayerBoard.PlacementKeepsFleet | src/components/PlayerBoard.jsx:36 | A ship that passes `canBePlaced` on the derived board joins a well-placed fleet without overlapping it. |
| PlayerBoard.PlaceIfAllowed | src/components/PlayerBoard.jsx:57-61 | `placeShip` runs iff `canPlaceCurrentShip` holds (click and drop), and otherwise nothing changes. The placement invariant is preserved. |
| PlayerBoard.MovePreview | src/components/PlayerBoard.jsx:65-84 | Hover and drag set only the position of the ship being placed, to `indexToCoords(index)`, which is the board position of that square. |

## Left out

- **Persistence:** the loading and saving of the state cells in the browser's storage are not modelled (src/components/Game.jsx:8-19, 23-33, 36-57). The model always starts from the initial values.
- **`Math.random`:** `generateRandomIndex` and `generateRandomOrientation` are replaced by draws supplied as parameters (src/utils/gameLogic.js:126-153).
- **GameLogic.RandomDeployShips:** does not model the unbounded `while (true)` retry. The original retries until a candidate fits; the model stops with None when the supplied draws run out, and `StartTurn` then changes nothing.
- **GameLogic.UpdateLayout:** does not model writes outside the layout. In JavaScript such a write adds an array slot or a property; the model drops it. No game path writes outside the board.
- **GameLogic.IsEmpty:** an index outside the layout reads `undefined`, as in the original, so it never counts as empty.
- **GameLogic.IndexToCoords:** follows JavaScript's `%` (truncating) and `Math.floor` for every integer. The row divides by BOARD_ROWS as in the source, which is harmless because the board is square.
- **Missing fields:** the fleet records have no orientation or sunk flag. The model gives them Horizontal and false, which is how every reader of those fields treats the missing values.
- **GameFlow.Game.ChooseShip:** an unknown name spreads `undefined` in the original. The model stores `NO_SHIP`, a nameless record of length 0. The two differ afterwards: in the model a length-0 record passes `canBePlaced` at any anchor on the board, so `PlaceIfAllowed` would append it. In the original, `position.x + undefined` is NaN, so `isWithinBoard` is false (src/utils/gameLogic.js:63-67) and the record is never placed. The path cannot be reached, since the fleet panel passes only names taken from the available ships (src/components/PlayerFleet.jsx:12-20, src/components/ShipBox.jsx:21-26).
- **GameFlow.Game.ComputerFire:** requires the square to read 'ship' or 'empty' on a 100-square board. On any other square the original passes an undefined history on and fails.
- **GameFlow.Game.HandleComputerTurn:** returns None when there is no candidate. The original then schedules a move at an undefined target, which fails.
- **The 300 ms `setTimeout`:** the scheduled move is the separate step `RunScheduled`.
- **The reset race:** a pending move that fires after `startAgain` writes the captured history and fleet back, as the original's timeout closure does (src/components/Game.jsx:108-133, 189-192). `GameFlow.Game.RunScheduled` builds the new cells from the `Pending` value, so the model reproduces this race and neither prevents nor detects it.
- **AIBoard.OnSquareClick:** requires the index to be a board square, since only the 100 rendered squares have the handler.
- **The render-time game-over check:** the original tests playerCanFire (which calls `checkIfGameOver`) on every render during the player's turn. The model runs that test when the click arrives.
- **GameLogic.UpdateSunkShips:** follows the code where its JSDoc differs. The JSDoc calls `currentHits` an "Array of successful hit positions" (src/utils/gameLogic.js:222), a hit-only rule. Both call sites pass the whole history, misses included (src/components/Game.jsx:129, src/components/AIBoard.jsx:122), and `updateSunkShips` counts every event at a covered square; the model does the same. `GameLogic.SunkMeansAllCellsHit` shows the two rules agree whenever no miss lies on the ship. For the player's ships it holds: a ship is placed only on squares that read 'empty', and a square with an earlier shot reads 'hit' or 'miss'. For the computer's ships it can fail: `startTurn` has no phase check, so the Start button of the easy mode (src/components/GameView.jsx:46-48) can redeploy the computer fleet without clearing `hitsByPlayer`, and a redeployed ship may then lie under an earlier miss.
- **Rendering:** the JSX markup, CSS class selection and the other view components (GameView, PlayerFleet, ShipBox, Grid, Cell, Scores, Rules, Home, App) are not modelled.
- **PlayerInfo:** the floating-point accuracy figure in PlayerInfo.jsx is not modelled.
- **pokemon.js:** the unrelated Express router in pokemon.js is not part of this model.
