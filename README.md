# OpenTankTactics rules engine in Dafny

This project models the game-rules engine of OpenTankTactics (`src/open_tt/`).
In Tank Tactics, tanks on a rectangular grid spend action points to move,
shoot or hand an action point to another tank. The model has three parts.

- The value types of `mod.rs` and `board_object.rs`:
  - positions and the Chebyshev grid distance;
  - the move and shoot ranges;
  - tanks;
  - actions, errors and results;
  - the terrain bit flags.
- The `Board` of `board.rs`:
  - it is stated as pure functions of one board snapshot (`BoardRules`);
  - it is refined by a `Board` class whose methods update the player and object maps in place (`TankBoard`). Each method is proved equal to its function applied to the board before the call.
- The `Game` of `game.rs`: an append-only action log plus a starting board and a current board (`GameLog`).
  - The log replays to the current board. This is the fold `ReplayRules.Replay` of the step function over the log.
  - Every accepted action keeps that true.

The modules are:

| module | file | models |
|---|---|---|
| `TankTypes` | `types.dfy` | `BoardPos`, `get_grid_dist`, range constants, `PlayerTank`, the enums, `u8`/`u16` |
| `BoardObjects` | `board_object.dfy` | the flag constants and presets; an object is its flag byte |
| `BoardRules` | `board_rules.dfy` | the board's queries and each action as a function `BoardState -> Result<BoardState, ActionError>` |
| `BoardProperties` | `board_properties.dfy` | check order, success effects, action-point economy, the board invariant |
| `TankBoard` | `board.dfy` | class `Board`, method by method |
| `ReplayRules` | `replay_rules.dfy` | the fold of the step function over a log |
| `ReplayCounterexample` | `replay_counterexample.dfy` | logs on which the as-written `get_board_at_turn` goes wrong |
| `GameLog` | `game.dfy` | class `Game`: `do_action` and `get_board_at_turn` |

Integers are Rust's:
- `u8` and `u16` are subset types of `int`.
- `hitpoints -= 1` and `action_points += 1` wrap around, as a release build computes them (`WrappingDec`, `WrappingInc`).

`HashMap` iteration order is unspecified, and it matters in one place. `get_player_id_at_pos` returns the first player the iteration yields, and GiveAP credits that player. The model takes that player as a ghost parameter `pick`:
- `BoardRules.Receiver` is `pick` when `pick` stands on the cell, and otherwise some player that does.
- The game keeps the picks alongside its log.
- Every refusal is independent of the pick (`StepErrorIgnoresPick`).
- On a well-formed board a cell holds at most one tank, so the pick does not matter at all (`StepIgnoresPick`, `ReplayIgnoresPicks`). A board is well formed when every tank is in bounds with at least one hitpoint and no two tanks share a cell. Every action keeps a board well formed (`StepPreservesWellFormed`).

## Departures from the comments, modelled as written

These are modelled as the code behaves. Where the comments or the evident design say otherwise, a separate member states the intent, and a lemma states the difference.

- **Traversability is inverted.**
  - `is_pos_traversable` (src/open_tt/board.rs:20-31) maps each occupant to "blocks" and folds the results with `&&`. A cell is therefore traversable iff it is empty or every occupant is an INPASSABLE object.
  - This contradicts the comment at src/open_tt/board.rs:18-19.
  - `BoardRules.IsTraversable` is the code. `BoardRules.IsTraversableIntended` is the comment.
  - `TraversabilityInverted` shows the two disagree on water and on forest. Water can be entered; forest cannot.
  - A consequence the model relies on: a Move onto any cell holding a tank is refused with SpaceOccupied. This includes the mover's own cell (`MoveOntoPlayerRefused`).
- **Move checks occupancy before bounds**, while Shoot and GiveAP check bounds first (`MoveRefusals`, `ShootRefusals`, `GiveApRefusals`).
- **`get_game_state` never reports a win.** The mapped iterator at src/open_tt/board.rs:253 is never consumed. `GetGameState` always returns InProgress, and `GameStateMissesWin` contrasts it with `GameStateIntended`.
- **`game.rs` is not compiled.** The module list at src/open_tt/mod.rs:4-5 does not declare it. It is modelled as if it were.

## Model

| member | source | states |
|---|---|---|
| TankTypes.WrappingDec | src/open_tt/board.rs:120 | `u8` decrement: one less, except that 0 wraps to 255 |
| TankTypes.WrappingInc | src/open_tt/board.rs:237 | `u8` increment: one more, except that 255 wraps to 0 |
| TankTypes.AxisGap | src/open_tt/mod.rs:39-40 | max minus min of two `u16` is their absolute difference, so it never underflows |
| TankTypes.GridDist | src/open_tt/mod.rs:37-42 | the grid distance is the Chebyshev distance max(\|dx\|, \|dy\|) and fits in `u16` |
| TankTypes.GridDistSymmetric | src/open_tt/mod.rs:37-42 | the distance is symmetric |
| TankTypes.GridDistZeroIffSame | src/open_tt/mod.rs:33-42 | distance 0 exactly between equal positions |
| TankTypes.MoveRangeWithinShootRange | src/open_tt/mod.rs:13-14 | any cell within move range is within shoot/give range |
| BoardObjects.FlagsAreDistinctBits | src/open_tt/board_object.rs:4-6 | INPASSABLE, BLOCK_SIGHT and DESTRUCTABLE are distinct single bits |
| BoardObjects.DisjointSumIsUnion | src/open_tt/board_object.rs:10 | adding flags with no common bit is their bitwise OR |
| BoardObjects.PresetFlags | src/open_tt/board_object.rs:10-11 | FOREST is DESTRUCTABLE \| BLOCK_SIGHT: destructible, not blocking. WATER is INPASSABLE only: blocking, not destructible |
| BoardRules.InBounds | src/open_tt/board.rs:10-12 | definition: `x < size_x && y < size_y`, which is also the body of `is_pos_in_bounds` (src/open_tt/board.rs:33-35). Used by every refusal lemma |
| BoardRules.PlayerExists | src/open_tt/board.rs:14-16 | definition: the id is a key of the player map. Characterised through the InvalidPlayerID clauses of MoveRefusals, ShootRefusals and GiveApRefusals |
| BoardRules.PlayerHasAp | src/open_tt/board.rs:37-42 | definition: the player exists and holds at least one point, and false for a missing player. Characterised by TakeAp |
| BoardRules.IsTraversable | src/open_tt/board.rs:20-31 | definition: the `&&` fold over the occupants' blocking flags, true on an empty cell. Characterised by TraversableAsWritten |
| BoardRules.IsTraversableIntended | src/open_tt/board.rs:18-19 | definition of the comment's rule. Characterised by TraversableIntended and TraversabilityInverted |
| BoardRules.HitPlayer | src/open_tt/board.rs:118-128 | definition of `damage_and_kill_player`. Characterised by DamagePlayersGrow and refined by TankBoard.Board.DamageAndKillPlayer |
| BoardRules.HitObject | src/open_tt/board.rs:131-146 | definition of `damage_and_destroy_board_pos`. Refined by TankBoard.Board.DamageAndDestroyBoardPos and characterised through ShootSuccess and ShootClearsForestNotWater |
| BoardRules.DamageAt | src/open_tt/board.rs:94-114 | definition of the whole-cell damage. Refined by TankBoard.Board.DamageThingsAtBoardPos and characterised by ShootSuccess |
| BoardRules.MoveStep | src/open_tt/board.rs:149-179 | definition of `apply_move_action`. Characterised by MoveRefusals, MoveSuccess and MoveToEmptyCell |
| BoardRules.ShootStep | src/open_tt/board.rs:181-207 | definition of `apply_shoot_action`. Characterised by ShootRefusals and ShootSuccess |
| BoardRules.GiveApStep | src/open_tt/board.rs:209-240 | definition of `apply_give_ap_action`. Characterised by GiveApRefusals and GiveApSuccess |
| BoardRules.Step | src/open_tt/board.rs:242-248 | definition of `try_do_action`'s dispatch. Characterised by StepOnlyRemovesKilled, StepPreservesWellFormed, StepIgnoresPick and StepErrorIgnoresPick |
| BoardRules.GetGameState | src/open_tt/board.rs:250-256 | always InProgress, as written. See GameStateMissesWin |
| BoardRules.ThingsAtMembers | src/open_tt/board.rs:45-64 | the occupants of a cell are its object iff it has one, and a player thing per player standing there |
| BoardRules.TraversableAsWritten | src/open_tt/board.rs:20-31 | as written, a cell is traversable iff no player is on it and any object on it is INPASSABLE |
| BoardRules.TraversableIntended | src/open_tt/board.rs:18-19 | as the comment says, a cell is traversable iff no INPASSABLE object is on it |
| BoardRules.TraversabilityInverted | src/open_tt/board.rs:20-31 | on a player-free cell, water is traversable as written but not as intended; forest the reverse |
| BoardRules.TakeAp | src/open_tt/board.rs:78-91 | the debit succeeds iff the player exists with at least one point. It fails with CouldNotFindPlayer iff the player is missing |
| BoardRules.DamagePlayersGrow | src/open_tt/board.rs:118-128 | hitting one more player on top of the players hit so far gives the map with that player hit too. The hit reports a kill iff it was the player's last hitpoint |
| BoardRules.Receiver | src/open_tt/board.rs:66-75 | the GiveAP receiver stands on the target cell, and it is the iteration's first pick when that one does |
| BoardRules.GameStateIntended | src/open_tt/board.rs:250-256 | the intended state is a win iff exactly one player lives, and the winner is that player |
| BoardRules.GameStateMissesWin | src/open_tt/board.rs:250-256 | with a single living player, the code still reports InProgress, while the intended state is that player's win |
| BoardProperties.MoveRefusals | src/open_tt/board.rs:149-174 | Move fails with SpaceOccupied, OutOfBounds, InvalidPlayerID, TargetTooFar, NotEnoughAP, each exactly when its check is the first to fail, and succeeds iff all pass |
| BoardProperties.MoveOntoPlayerRefused | src/open_tt/board.rs:149-152 | a Move onto any cell holding a player is refused with SpaceOccupied |
| BoardProperties.MoveSuccess | src/open_tt/board.rs:163-178 | after a successful Move the actor stands on the in-bounds, player-free target within distance 1. It has one point fewer. Every other player, every object and the size are unchanged |
| BoardProperties.MoveToEmptyCell | src/open_tt/board.rs:149-179 | conversely, a tank with points moving to a near, in-bounds, empty cell gives exactly the moved-and-debited board |
| BoardProperties.LoneTankAt | src/open_tt/board.rs:57-61 | on a board with a single tank, a cell holds that tank iff it stands there |
| BoardProperties.LoneTankMoves | src/open_tt/board.rs:149-179 | a lone tank with points steps onto a free neighbouring cell, paying one point |
| BoardProperties.LoneTankTooFar | src/open_tt/board.rs:163-165 | a lone tank aiming at a free cell more than one step away gets TargetTooFar |
| BoardProperties.ShootRefusals | src/open_tt/board.rs:181-202 | Shoot fails with OutOfBounds, InvalidPlayerID, TargetTooFar, NotEnoughAP in that order, each exactly when its check is the first to fail, and succeeds iff all pass |
| BoardProperties.ShootSuccess | src/open_tt/board.rs:181-207 | after a successful Shoot, even at an empty cell, the shooter has paid one point. Every player on the target loses one hitpoint and is removed exactly when that was its last. The target's object goes iff DESTRUCTABLE. Nothing else changes |
| BoardProperties.ShootClearsForestNotWater | src/open_tt/board.rs:131-146 | a shot clears forest and leaves water |
| BoardProperties.GiveApRefusals | src/open_tt/board.rs:209-235 | GiveAP fails with OutOfBounds, InvalidPlayerID, TargetTooFar, NoTargetFound, NotEnoughAP in that order, each exactly when its check is the first to fail, and succeeds iff all pass |
| BoardProperties.TooFarBeyondShootRange | src/open_tt/board.rs:181-221 | beyond range 3, Shoot and GiveAP both fail with TargetTooFar once the target and the actor are valid |
| BoardProperties.GiveApSuccess | src/open_tt/board.rs:209-240 | a successful GiveAP debits the actor one point and credits a player on the target cell; giving to itself changes nothing. Every other player, the objects and the size are unchanged |
| BoardProperties.MoveSpendsOneAp | src/open_tt/board.rs:167-176 | a successful Move lowers the total action points of all players by exactly one |
| BoardProperties.ShootSpendsAtLeastOneAp | src/open_tt/board.rs:195-204 | a successful Shoot lowers the total by at least one |
| BoardProperties.GiveApConservesAp | src/open_tt/board.rs:228-237 | a successful GiveAP keeps the total, unless the credit wraps |
| BoardProperties.GiveApWrapsAt255 | src/open_tt/board.rs:237 | a receiver holding 255 points is left with 0 |
| BoardProperties.StepOnlyRemovesKilled | src/open_tt/board.rs:118-128 | no action adds a player id. A player leaves only when a Shoot at its cell takes its last hitpoint |
| BoardProperties.AtMostOnePlayerAt | src/open_tt/board.rs:66-75 | on a well-formed board a cell holds at most one player |
| BoardProperties.StepPreservesWellFormed | src/open_tt/board.rs:242-248 | every successful action keeps the players in bounds, alive and on distinct cells |
| BoardProperties.StepIgnoresPick | src/open_tt/board.rs:223-237 | on a well-formed board, the action's result does not depend on iteration order |
| BoardProperties.StepErrorIgnoresPick | src/open_tt/board.rs:209-235 | a refusal, and its error, never depend on iteration order |
| BoardProperties.MoveScenario | src/open_tt/board.rs:149-179 | a concrete diagonal move succeeds and leaves the tank without points, so its next move gets NotEnoughAP |
| BoardProperties.KillScenario | src/open_tt/board.rs:181-226 | a shot kills a tank on its last hitpoint; a GiveAP at that cell then gets NoTargetFound |
| TankBoard.Board.Clone | src/open_tt/game.rs:19 | a clone has the same size, players and objects |
| TankBoard.Board.GetThingsAtPos | src/open_tt/board.rs:45-64 | the list holds every occupant of the cell, each once, with the object first |
| TankBoard.Board.GetPlayerIdAtPos | src/open_tt/board.rs:66-75 | None iff no player stands on the cell; otherwise a player standing there |
| TankBoard.Board.TakeApFromPlayer | src/open_tt/board.rs:78-91 | the in-place debit is `TakeAp`, and it leaves the board unchanged on failure |
| TankBoard.Board.DamageAndKillPlayer | src/open_tt/board.rs:118-128 | the in-place hit is `HitPlayer`: one hitpoint less, and removal when it reaches 0 |
| TankBoard.Board.DamageAndDestroyBoardPos | src/open_tt/board.rs:131-146 | the in-place hit is `HitObject`: the object is removed iff DESTRUCTABLE |
| TankBoard.Board.DamageThingsAtBoardPos | src/open_tt/board.rs:94-114 | the loop over occupants leaves the board `DamageAt` the cell. It returns exactly the destroyed things: the object iff DESTRUCTABLE, and each player hit on its last hitpoint |
| TankBoard.Board.ApplyMoveAction | src/open_tt/board.rs:149-179 | the in-place Move is `MoveStep`. On error, nothing changes |
| TankBoard.Board.ApplyShootAction | src/open_tt/board.rs:181-207 | the in-place Shoot is `ShootStep`. On error, nothing changes |
| TankBoard.Board.ApplyGiveApAction | src/open_tt/board.rs:209-240 | the in-place GiveAP is `GiveApStep` for the player the iteration yields. On error, nothing changes |
| TankBoard.Board.TryDoAction | src/open_tt/board.rs:242-248 | `try_do_action` is `Step`. On error, nothing changes |
| ReplayRules.Replay | src/open_tt/game.rs:33-42 | definition: the fold of `Step` over a log, which the game's invariant `Consistent` uses. Characterised by ReplayAppend, ReplayFailureInLog, ReplayPrefix, ReplayPreservesWellFormed and ReplayIgnoresPicks |
| ReplayRules.ReplayAppend | src/open_tt/game.rs:33-42 | replaying a log with one more action is one more step from the board the log replays to |
| ReplayRules.ReplayFailureInLog | src/open_tt/game.rs:21-26 | a failing replay names a step inside the log |
| ReplayRules.ReplayPrefix | src/open_tt/game.rs:13-31 | every prefix of a log that replays cleanly replays cleanly |
| ReplayRules.ReplayPreservesWellFormed | src/open_tt/game.rs:33-42 | a log replayed from a well-formed board ends on a well-formed board |
| ReplayRules.ReplayIgnoresPicks | src/open_tt/board.rs:57-73 | from a well-formed board, replay does not depend on iteration order |
| ReplayRules.Repeated | src/open_tt/game.rs:21-22 | `n` copies of one action: what the as-written loop applies |
| ReplayCounterexample.ReplayIndexCounterexample | src/open_tt/game.rs:21-23 | a lone tank walking two cells in two moves has a log that replays cleanly. Reconstructing turn 1 as written fails with MoveError(0, TargetTooFar) |
| ReplayCounterexample.EastWalk | src/open_tt/game.rs:21-23 | a 3x3 board with a lone tank at (0,0) holding 2 points, walked to (1,0) and then (2,0), is such a walk |
| GameLog.Game.constructor | src/open_tt/mod.rs:18-22 | a game is its starting board, its current board and its log |
| GameLog.Game.DoAction | src/open_tt/game.rs:33-42 | the current board takes the step. On error, the log and the board are unchanged, and the same error arises whichever player the iteration picks. On success, exactly the action is appended. A log that replayed to the current board still does |
| GameLog.Game.GetBoardAtTurn | src/open_tt/game.rs:13-31 | as written: TurnOutOfBounds iff turn >= log length. Otherwise a fresh board that is the replay of `turn` copies of `moves[turn]`; turn 0 gives a copy of the starting board. A failure MoveError(t, e) has t < turn and is that replay's failure at step t. Nothing in the game changes |
| GameLog.Game.GetBoardAtTurnIntended | src/open_tt/game.rs:13-31 | corrected: TurnOutOfBounds iff turn > log length. Otherwise the replay of the first `turn` logged actions. On a consistent game from a well-formed board it always succeeds, and turn = log length gives the current board |
| GameLog.LoggedPrefixReplays | src/open_tt/game.rs:13-31 | from a well-formed board, every prefix of a cleanly replaying log replays cleanly whatever the iteration picks |

## Findings

| source | as written | input that shows it | evidently intended | confidence | as-written member | corrected member |
|---|---|---|---|---|---|---|
| src/open_tt/game.rs:22 | every step of the replay loop applies `moves[turn_num]` | 3x3 board, lone tank 0 at (0,0) with 2 action points, log [Move(0,(1,0)), Move(0,(2,0))]. The log replays cleanly, but turn 1 applies Move(0,(2,0)) to the starting board: MoveError(0, TargetTooFar) | step `t_ind` applies `moves[t_ind]`, so turn n is the first n actions replayed in order | not executed | GameLog.Game.GetBoardAtTurn, ReplayCounterexample.ReplayIndexCounterexample | GameLog.Game.GetBoardAtTurnIntended |
| src/open_tt/game.rs:14 | `turn_num >= moves.len()` is refused | any game with `turn_num == moves.len()`, e.g. an empty log and turn 0: TurnOutOfBounds, so the current board is never rebuilt | only `turn_num > moves.len()` is out of bounds | not executed | GameLog.Game.GetBoardAtTurn | GameLog.Game.GetBoardAtTurnIntended |

The game's invariant `Consistent` uses the corrected fold `ReplayRules.Replay`.

## Left out

- src/netcode.rs, src/netcode/ and src/main.rs: HTTP handlers, SQL queries, passcode generation and a serialisation round trip. All of it is I/O or library calls.
- The `BoardObject` wrapper (src/open_tt/board_object.rs:16-18): an object is modelled as its flag byte.
- Derived traits (`Debug`, `Clone`, `Hash`, serialisation) are left out. `Clone` on `Board` is modelled as `TankBoard.Board.Clone`.
- Debug-build overflow panics: arithmetic wraps as in a release build.
- `pos_in_bounds` and `is_pos_in_bounds` have identical bodies and are the single predicate `InBounds`. `player_exists` is `PlayerExists`, and `player_has_ap` is `PlayerHasAp`. These predicates are definitions, not contracts.
- The `Board` struct is not among the source files: its fields are inferred from their uses in src/open_tt/board.rs.
- Game creation, spawning and game-over gating do not exist in the source. The `Game` constructor is only the struct literal.
- TankBoard.Board.GetPlayerIdAtPos: returns some player on the cell, not the first in `HashMap` iteration order, which is unspecified.
- TankBoard.Board.GetThingsAtPos: the players after the object come in an unspecified order. The contract states membership and uniqueness, not order.
- TankBoard.Board.DamageThingsAtBoardPos: the returned list is stated by membership, not order. That order is `HashMap` order.
- TankBoard.Board.DamageAndKillPlayer: requires the player to exist. The source unwraps and would panic otherwise, and its only caller passes a player found on the cell.
- BoardProperties.GiveApConservesAp: requires that no receiver other than the actor holds 255 points, because the `u8` credit would wrap. `GiveApWrapsAt255` states the wrapped case.
- GameLog.Game.DoAction: requires the starting and current boards to be distinct objects. In Rust they are two owned values.
- A game's consistency is not established by its constructor, because the source never builds a game. `DoAction` preserves it.
