# Connect four pallet, modelled in Dafny

This project models the core of a Substrate pallet that runs connect-four
matches between two accounts on a 7-column, 6-row grid. Matches are created
by `new_game` and played by `play_turn`. They are resolved when nobody moves,
by `force_end_turn`, which the chain's scheduler dispatches at a deadline the
pallet arms. The model has three layers:

- `grid.dfy` (module `Grid`) is `connectfour.rs`:
  - The grid is a value `Board` (7 columns of 6 bytes; row 0 is the top, row 5 the bottom).
  - `AddStone` drops a stone in place into an `array2<byte>` with the source's bottom-up loop. It is proved against the pure function `Place`.
  - `Evaluate` is the source's four nested scans. It is proved equal to `FourInARow`, an independent reference predicate: some four adjacent cells in one of the eight directions belong to the player.
  - `Full` is the source's scan of row 5, proved equal to `BottomRowFilled`.
- `game.dfy` (module `Game`) is the types, constants and helpers of `lib.rs`:
  - Records: `BoardStruct`, `BoardState`, the error enum, the storage items as one `Storage` value.
  - Helpers: the SCALE encoding of the nonce, the seed padding, the task names of `schedule_end_turn`.
  - Each of the three game calls as a function from the storage before the call to a `Step`: the dispatch result, the storage after the call, and the requests made of the scheduler, in order.
  - Also here: the storage invariant `Consistent`, which all three calls preserve (`new_game` under a board id that does not collide with a stored one), and lemmas about matches: rejection conditions, rescheduling, win before draw, forfeit and cleanup.
- `pallet.dfy` (module `Pallet`) is the pallet object:
  - `ConnectFour` holds the three map storage items as `map` fields, and the nonce and `Something` as plain fields. Each dispatchable and private helper is a method that updates those fields in the order the source does. The exception is `schedule_end_turn`, which changes no storage and is the pure function `Game.ScheduleEndTurn`.
  - The contracts of `NewGame`, `PlayTurn` and `ForceEndTurn` state that their result, their new state and their scheduler requests are exactly those of the corresponding `Game` function. `CauseError` has its own contract.
  - `DropAndJudge` is the grid part of `play_turn`: it copies the board into a mutable grid, calls `AddStone`, then `Evaluate`, then `Full`.

Inputs the pallet gets from the runtime become parameters of the calls:
- the signed caller, and the block number
- the output of the randomness source, and the hasher (a function value `HashOracle`)
- the scheduler's answer to a `schedule_named` request (a `bool`)

The requests sent to the scheduler are returned as a list of `SchedulerRequest` values.

Where the code behaves differently from what a reader might expect, the model follows the code:
- `full` tests row index 5, which `add_stone` fills first. So a board whose bottom row holds seven stones counts as full. `Grid.BottomRowFilledTooEarly` shows such a board: no line for either player and the top row still empty, yet `Full` reports it full. In `play_turn` that board ends as a draw. `Grid.TopRowFilledIsFull` shows the converse: a board with all 42 cells filled counts as full.
- A draw is stored as `Finished(default account)`, the account 0 of the test runtime. It cannot be told apart from a win by that account.
- `new_game` arms no deadline. The first deadline is armed by the first move.
- `play_turn` arms a deadline at `now + MAX_BLOCKS_PER_TURN` after every move, also one that finishes the game. When that deadline fires on the finished board, `force_end_turn` removes it.
- A refused `schedule_named` is stored as a `None` entry in `BoardSchedules`, and the call still succeeds. A failed `cancel_named` is ignored.
- Column 7 passes the `column < 8` check, and `add_stone` then indexes beyond the 7 columns. The call panics, which aborts it with no storage change. The model returns `Err(IndexOutOfBounds)` with the storage unchanged.

The numeric types are modelled as follows:
- `u8` cells and player numbers are the newtype `byte`.
- The nonce is a `u64`, and its increment wraps explicitly.
- `Something` is a `u32` with an explicit check for the maximum.
- Account ids are `u64`, as in the test runtime.
- Block numbers are `nat`.

## Model

| member | source | states |
|---|---|---|
| Grid.EmptyBoard | pallets/connectfour/src/lib.rs:482 | the board of a new match has seven columns of six cells, all empty |
| Grid.Evaluate | pallets/connectfour/src/connectfour.rs:19-68 | the four short-circuiting scans return true exactly when the player owns four adjacent cells in some direction (horizontal, vertical or either diagonal), anywhere on the grid including its edges; every cell the scans read is within the 7x6 grid |
| Grid.ScansCoverEveryLine | pallets/connectfour/src/connectfour.rs:19-68 | the start cells the four scans range over find a line exactly when a four-in-a-row exists in any of the eight directions, so the scan order and the chosen starting ends lose nothing |
| Grid.Full | pallets/connectfour/src/connectfour.rs:8-17 | returns true exactly when every column's cell at row index 5 holds a stone |
| Grid.FullMeansNoEmptyColumn | pallets/connectfour/src/connectfour.rs:8-17 | on a grid whose stones obey gravity, the board is full exactly when no column is empty |
| Grid.TopRowFilledIsFull | pallets/connectfour/src/connectfour.rs:8-17 | on a grid whose stones obey gravity, when every column's top cell is taken then all 42 cells are taken and the board counts as full |
| Grid.AlternatingBottomRowHasNoLine | pallets/connectfour/src/connectfour.rs:19-68 | a grid holding only a bottom row of alternating players 1 and 2 has no four-in-a-row for any player |
| Grid.OneStoneHasNoLine | pallets/connectfour/src/connectfour.rs:8-68 | a grid holding a single stone has no four-in-a-row for any player and is not full |
| Grid.BottomRowFilledTooEarly | pallets/connectfour/src/connectfour.rs:8-17 | a grid holding only seven alternating stones on the bottom row obeys gravity, has an empty top row and no line for either player, and yet counts as full |
| Grid.LastEmpty | pallets/connectfour/src/connectfour.rs:74-82 | the bottom-up search finds an empty cell with every cell below it down to the bottom taken: the lowest empty cell of the column |
| Grid.Place | pallets/connectfour/src/connectfour.rs:70-84 | a drop is refused exactly when the column's top cell is taken; otherwise the player's stone goes into the lowest empty cell, every cell below it is taken, and every other cell of every column is unchanged |
| Grid.PlaceKeepsSettled | pallets/connectfour/src/connectfour.rs:70-84 | dropping a stone keeps every column gravity-packed (no stone above an empty cell) |
| Grid.DropsStackUp | pallets/connectfour/src/connectfour.rs:70-84 | up to six stones dropped into an empty column stack from the bottom: the k-th lands on row 5-k, the rows above stay empty, and other columns are untouched |
| Grid.SeventhDropRefused | pallets/connectfour/src/connectfour.rs:71-73 | after six stones in one column, a seventh drop there is refused |
| Grid.AddStone | pallets/connectfour/src/connectfour.rs:70-84 | the in-place drop returns true exactly when the top cell was empty; on false the grid is unchanged, on true the new grid is the dropped one `Place` describes |
| Game.LittleEndianRoundTrip | pallets/connectfour/src/lib.rs:452 | reading back the little-endian bytes of a number that fits recovers the number |
| Game.EncodeU64 | pallets/connectfour/src/lib.rs:452 | the encoding of the nonce is eight bytes long |
| Game.EncodeU64Injective | pallets/connectfour/src/lib.rs:448-453 | distinct nonces encode differently, so successive hash inputs of one sender differ until the nonce wraps |
| Game.WrappingIncrement | pallets/connectfour/src/lib.rs:451 | the stored nonce becomes the old nonce plus one modulo 2^64 |
| Game.PadSeed | pallets/connectfour/src/lib.rs:460-462 | the seed is 32 bytes: the random output's bytes where it has them, zeros after |
| Game.FirstPlayer | pallets/connectfour/src/lib.rs:474 | definition: player 1 when the id's first byte is below 128, player 2 otherwise; who moves first is proved in `NewGameRegistersBoth` |
| Game.Other | pallets/connectfour/src/lib.rs:323-331 | the turn passes to the other of the two player numbers |
| Game.BoardIdFor | pallets/connectfour/src/lib.rs:456-464 | the board id is the hasher applied to the padded seed, the creating account and the encoded nonce |
| Game.AccountOf | pallets/connectfour/src/lib.rs:323-328 | definition: player 1 is played by `red` and player 2 by `blue`; its consequences are proved in `ForfeitThenCleanup` and `NewGameRegistersBoth` |
| Game.NewBoard | pallets/connectfour/src/lib.rs:478-486 | definition: the record of a new match, with the given id and players, an empty grid, started now, Running, and the first mover chosen by the id's first byte; its promises are proved in `NewGameRegistersBoth` |
| Game.TurnAllowed | pallets/connectfour/src/lib.rs:306-334 | the checks of `play_turn` before the drop all pass: a column below 7, a registered sender whose board is stored and Running, a turn number of 1 or 2, and the sender is the account due to move |
| Game.Outcome | pallets/connectfour/src/lib.rs:341-346 | the state after a move: Finished for the mover when the mover has a line, else Finished for the default account when the board counts as full, else Running |
| Game.ScheduleEndTurn | pallets/connectfour/src/lib.rs:497-519 | definition: the request names the task after the lock id, the board and the turn, and asks for `force_end_turn(board, turn)` at the given block; the entry to store is that name when the scheduler accepts and None when it refuses; its promises are proved in `PlayTurnReschedules`, `TurnTasksDistinct` and `ForfeitThenCleanup` |
| Game.TurnTasksDistinct | pallets/connectfour/src/lib.rs:504 | task names of different boards or different turns differ |
| Game.NewGameSpec | pallets/connectfour/src/lib.rs:279-298 | fails with NoFakePlay exactly for a game against oneself; fails with PlayerBoardExists exactly when either account already has a board; a failure changes nothing; success stores the new board under the hashed id, registers both accounts to it and steps the nonce; no scheduler request and no schedule entry either way |
| Game.CancelPrevious | pallets/connectfour/src/lib.rs:355-366 | definition: a cancel is requested exactly when the board has a recorded task name, and it names that task; its promise is proved in `PlayTurnReschedules` |
| Game.PlayTurnSpec | pallets/connectfour/src/lib.rs:302-372 | a failure changes nothing and requests nothing; ColumnTooLarge exactly for columns of 8 or more; IndexOutOfBounds only for column 7; success requires that all turn checks pass and leaves the registry and the nonce alone |
| Game.ForceEndTurnSpec | pallets/connectfour/src/lib.rs:401-441 | a failure changes nothing; NoBoardFound exactly for an unknown board; MoveInBetween exactly when the board's last turn is not the one the task was armed for; only a successful cleanup changes the registry, and it removes the board; the nonce never changes |
| Game.GenesisConsistent | pallets/connectfour/src/lib.rs:118-138 | empty storage satisfies the storage invariant |
| Game.RegistryStillPoints | pallets/connectfour/src/lib.rs:291-295 | after a fresh board is added and its two unregistered players are registered to it, every registered account points at a stored board on which it plays |
| Game.BoardsStillRegistered | pallets/connectfour/src/lib.rs:291-295 | after that registration, both players of every stored board are registered to it |
| Game.RegisterBoardKeepsConsistent | pallets/connectfour/src/lib.rs:291-295 | adding a well-formed board under an unused id together with its players' registration keeps the storage invariant |
| Game.NewGameKeepsConsistent | pallets/connectfour/src/lib.rs:279-298 | `new_game` keeps the storage invariant whenever the hashed id is not already in use |
| Game.PlaceKeepsGridValid | pallets/connectfour/src/lib.rs:337-339 | a drop by player 1 or 2 keeps the grid gravity-packed and holding only stones of players 1 and 2 |
| Game.UpdateBoardKeepsConsistent | pallets/connectfour/src/lib.rs:353-369 | writing back a board with the same players, still well formed, with the task name of its new turn, keeps the storage invariant |
| Game.PlayTurnKeepsConsistent | pallets/connectfour/src/lib.rs:302-372 | `play_turn` keeps the storage invariant |
| Game.CleanupKeepsConsistent | pallets/connectfour/src/lib.rs:431-438 | removing a board, both its players' entries and its schedule entry keeps the storage invariant |
| Game.ForfeitKeepsConsistent | pallets/connectfour/src/lib.rs:410-429 | recording a forfeit on a board, with the cleanup task of the new turn, keeps the storage invariant |
| Game.ForceEndTurnKeepsConsistent | pallets/connectfour/src/lib.rs:401-441 | `force_end_turn` keeps the storage invariant |
| Game.NewGameOnlyAdvances | pallets/connectfour/src/lib.rs:279-298 | `new_game` neither revives a finished board nor changes a running one to anything but Running or Finished, when the new id is unused |
| Game.PlayTurnOnlyAdvances | pallets/connectfour/src/lib.rs:302-372 | `play_turn` never revives a finished board; a running board stays Running or becomes Finished |
| Game.ForceEndTurnOnlyAdvances | pallets/connectfour/src/lib.rs:401-441 | `force_end_turn` never revives a finished board; a running board becomes Finished or stays |
| Game.PlayTurnSucceeds | pallets/connectfour/src/lib.rs:319-353 | when every check passes and the column has room, the call succeeds: the stone goes where `add_stone` puts it, the turn passes to the other player, the last turn becomes now, the state is judged for the mover's own number, and no other board changes |
| Game.PlayTurnRejections | pallets/connectfour/src/lib.rs:306-339 | `play_turn` fails exactly when one of its checks fails: column of 8 or more, no registered board, board missing, board not Running, turn number not 1 or 2, sender not due, column 7, or column full |
| Game.PlayTurnErrorCodes | pallets/connectfour/src/lib.rs:306-339 | each failing check returns its own error, in the order the checks run: ColumnTooLarge, NoPlayerBoard, NoBoardFound, BoardNotRunning, WrongLogic for a turn number other than 1 or 2, NotPlayerTurn, IndexOutOfBounds for column 7, WrongLogic for a full column; a call passing all of them succeeds |
| Game.PlayTurnReschedules | pallets/connectfour/src/lib.rs:355-369 | after a move the recorded task, if any, is cancelled first; then `force_end_turn(board, now)` is requested at now + MAX_BLOCKS_PER_TURN whatever the outcome, and its name is recorded, or None when refused |
| Game.WinBeatsFullBoard | pallets/connectfour/src/lib.rs:341-346 | a move that completes a line is a win for the mover even if it also fills the board; a full board without a line is Finished for the default account; otherwise the game runs on |
| Game.FirstMoveKeepsRunning | pallets/connectfour/src/lib.rs:337-346 | the first move on an empty board succeeds and the game stays Running |
| Game.ColumnSevenAborts | pallets/connectfour/src/lib.rs:306-337 | column 7 passes the `column < 8` check, and a call that would otherwise go ahead aborts with nothing changed and nothing requested |
| Game.NewGameArmsNoDeadline | pallets/connectfour/src/lib.rs:279-298 | `new_game` makes no scheduler request, and the new board has no schedule entry |
| Game.NewGameRegistersBoth | pallets/connectfour/src/lib.rs:279-298 | for two distinct unregistered accounts `new_game` succeeds; both point at the new board, which is empty, Running, started now, and due to the sender when the id's first byte is below 128 and to the opponent otherwise |
| Game.StaleDeadlineIgnored | pallets/connectfour/src/lib.rs:408 | a deadline whose turn has been superseded by a move fails with MoveInBetween and changes nothing |
| Game.ForceEndTurnForfeits | pallets/connectfour/src/lib.rs:410-429 | a deadline for the current turn of a Running board gives the win to the player not due to move, sets the last turn to now, requests the cleanup task at now + CLEANUP_BOARDS_AFTER and records it, and changes nothing else |
| Game.ForceEndTurnCleansUp | pallets/connectfour/src/lib.rs:431-438 | a deadline for the current turn of a board that is not Running succeeds with no scheduler request, removes the board, its schedule entry and both players' entries, and keeps every other entry and the nonce |
| Game.ForfeitThenCleanup | pallets/connectfour/src/lib.rs:410-438 | a deadline firing on a running board gives the win to the player not due to move and requests the cleanup task at now + CLEANUP_BOARDS_AFTER; when that fires, the board, its schedule entry and both players' entries are gone and neither player can move |
| Game.FinishingMoveCleansUpAtTurnDeadline | pallets/connectfour/src/lib.rs:368-369 | a move that ends the game still arms the turn deadline, at now + MAX_BLOCKS_PER_TURN; when it fires it succeeds with no scheduler request and removes the board, its schedule entry and both players' entries |
| Pallet.ConnectFour.constructor | pallets/connectfour/src/lib.rs:108-138 | the storage starts empty with the nonce at 0 and `Something` unset, which satisfies the storage invariant |
| Pallet.ConnectFour.EncodeAndUpdateNonce | pallets/connectfour/src/lib.rs:448-453 | returns the encoding of the current nonce and stores its wrapping increment |
| Pallet.ConnectFour.GenerateRandomHash | pallets/connectfour/src/lib.rs:456-464 | returns the hash of the padded seed, the sender and the encoded old nonce, and steps the nonce |
| Pallet.ConnectFour.CreateGame | pallets/connectfour/src/lib.rs:467-494 | stores an empty Running board started now under the new id, with the first mover chosen by the id's first byte, and steps the nonce |
| Pallet.ConnectFour.NewGame | pallets/connectfour/src/lib.rs:279-298 | the result and the new storage are exactly those of `NewGameSpec` |
| Pallet.ConnectFour.PlayTurn | pallets/connectfour/src/lib.rs:302-372 | the result, the new storage and the scheduler requests are exactly those of `PlayTurnSpec` |
| Pallet.ConnectFour.RearmTurnDeadline | pallets/connectfour/src/lib.rs:355-369 | requests a cancel of the board's recorded task, if any, then the new end-of-turn task, and records that task's entry |
| Pallet.ConnectFour.ForceEndTurn | pallets/connectfour/src/lib.rs:401-441 | the result, the new storage and the scheduler requests are exactly those of `ForceEndTurnSpec` |
| Pallet.ConnectFour.CauseError | pallets/connectfour/src/lib.rs:260-275 | fails with NoneValue exactly when `Something` is unset, and with StorageOverflow exactly when it is at the u32 maximum, changing nothing; for any other value it succeeds and stores the value plus one |
| Pallet.ForfeitScenario | pallets/connectfour/src/lib.rs:279-441 | in a game between accounts 1 and 2, the account due first moves once at block 6, and the other does not answer. The deadline that move armed fires at block 16 and gives the win to the account that moved. The cleanup deadline then removes the board at block 36, and account 1 can start a new game |
| Pallet.DropAndJudge | pallets/connectfour/src/lib.rs:336-346 | the drop succeeds exactly when `Place` does; the new grid is the dropped one, and the state is a win for the mover, else a draw when the board counts as full, else Running |

## Left out

- The scheduler itself is not modelled: its priorities, origins, the firing of tasks, and name clashes in `schedule_named`. Each answer is a parameter, and the requests are returned, not executed.
- Task names are kept as the tuple (lock id, board, turn) rather than its SCALE bytes. The encoding is injective, so equal names mean equal tuples either way.
- The randomness source and `T::Hashing` are not modelled. Their outputs are parameters. The invariant lemmas about `new_game` require that the hashed id is not already a stored board, because the source relies on the hash never colliding.
- The origin checks `ensure_signed` and `ensure_root` are not modelled. The caller's account is a parameter, and `force_end_turn` is taken as dispatched by the scheduler.
- Events (`deposit_event`) and log output are not modelled: they change no storage the model tracks.
- `do_something` and `test_schedule` are not modelled: they are template examples outside the game. `Something` is kept only for `cause_error`.
- The genesis configuration and `FounderKey` are not modelled: they are unused by the game.
- The hooks, the weights and the runtime configuration are not modelled.
- The commented-out `random_board` and `print_board` in `connectfour.rs` are dead code and are not modelled.
- Block numbers are unbounded. The model does not capture a `u64` overflow of `now + MAX_BLOCKS_PER_TURN`.
- Pallet.ConnectFour.PlayTurn: models the panic on column 7 as an error result with no state change. The model does not capture the panic's effects outside storage.
- The mock runtime, the unit tests and the benchmarking code are not part of this model.
