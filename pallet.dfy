/**
 * The connect-four pallet as an object whose fields are its storage items.
 * Each dispatchable is a method that changes the fields in place, as the
 * source does; its contract ties the result, the new storage and the
 * scheduler requests it makes to the function of the same name in `Game`.
 * The caller's account, the block number, the randomness, the hasher and
 * the scheduler's answers are parameters.
 */
module Pallet {
  import opened Wrappers
  import opened Grid
  import opened Game

  class ConnectFour {
    var boards: map<Hash, BoardStruct>
    var playerBoard: map<AccountId, Hash>
    var boardSchedules: map<Hash, Option<TaskName>>
    var nonce: u64
    /** The template's `Something` value, read by `cause_error`. */
    var something: Option<u32>

    /** The four game storage items as one value. */
    function State(): Storage
      reads this
    {
      Storage(boards, playerBoard, boardSchedules, nonce)
    }

    /** Empty storage; `Nonce` starts at its default 0. */
    constructor ()
      ensures State() == Storage(map[], map[], map[], 0) && something == None
      ensures Consistent(State())
    {
      boards, playerBoard, boardSchedules, nonce := map[], map[], map[], 0;
      something := None;
    }

    /** `encode_and_update_nonce`: returns the encoding of the current nonce and stores it plus one, wrapping. */
    method EncodeAndUpdateNonce() returns (encoded: seq<byte>)
      modifies this`nonce
      ensures encoded == EncodeU64(old(nonce))
      ensures nonce == WrappingIncrement(old(nonce))
    {
      var current := nonce;
      nonce := WrappingIncrement(current);
      encoded := EncodeU64(current);
    }

    /** `generate_random_hash`: hashes the padded random seed, the sender and the encoded nonce. */
    method GenerateRandomHash(random: seq<byte>, sender: AccountId, hash: HashOracle) returns (id: Hash)
      modifies this`nonce
      ensures id == BoardIdFor(random, sender, old(nonce), hash)
      ensures nonce == WrappingIncrement(old(nonce))
    {
      var seed := PadSeed(random);
      var encoded := EncodeAndUpdateNonce();
      id := hash(seed, sender, encoded);
    }

    /** `create_game`: stores a new Running board for `red` and `blue` and returns its id. */
    method CreateGame(red: AccountId, blue: AccountId, now: BlockNumber, random: seq<byte>, hash: HashOracle)
      returns (id: Hash)
      modifies this`boards, this`nonce
      ensures id == BoardIdFor(random, red, old(nonce), hash)
      ensures boards == old(boards)[id := NewBoard(id, red, blue, now)]
      ensures nonce == WrappingIncrement(old(nonce))
    {
      id := GenerateRandomHash(random, red, hash);
      var nextPlayer := if id[0] < 128 then Player1 else Player2;
      var board := BoardStruct(id, red, blue, EmptyBoard(), now, nextPlayer, Running);
      boards := boards[id := board];
    }

    /** `new_game` called by `sender` against `opponent` at block `now`. */
    method NewGame(sender: AccountId, opponent: AccountId, now: BlockNumber, random: seq<byte>, hash: HashOracle)
      returns (result: Dispatch)
      modifies this
      ensures Step(result, State(), []) == NewGameSpec(old(State()), sender, opponent, now, random, hash)
      ensures something == old(something)
    {
      if sender == opponent {
        return Err(NoFakePlay);
      }
      if sender in playerBoard {
        return Err(PlayerBoardExists);
      }
      if opponent in playerBoard {
        return Err(PlayerBoardExists);
      }
      var id := CreateGame(sender, opponent, now, random, hash);
      playerBoard := playerBoard[sender := id];
      playerBoard := playerBoard[opponent := id];
      return Ok;
    }

    /**
     * `play_turn` by `sender` into `column` at block `now`; `scheduled` is the
     * scheduler's answer to the new end-of-turn task. Works on a local copy
     * of the board and writes it back, as the source does.
     */
    method PlayTurn(sender: AccountId, column: byte, now: BlockNumber, scheduled: bool)
      returns (result: Dispatch, requests: seq<SchedulerRequest>)
      modifies this
      ensures Step(result, State(), requests) == PlayTurnSpec(old(State()), sender, column, now, scheduled)
      ensures something == old(something)
    {
      if column >= 8 {
        return Err(ColumnTooLarge), [];
      }
      if sender !in playerBoard {
        return Err(NoPlayerBoard), [];
      }
      var boardId := playerBoard[sender];
      if boardId !in boards {
        return Err(NoBoardFound), [];
      }
      var board := boards[boardId];
      if board.boardState != Running {
        return Err(BoardNotRunning), [];
      }
      var currentPlayer := board.nextPlayer;
      var currentAccount;
      if currentPlayer == Player1 {
        currentAccount := board.red;
        board := board.(nextPlayer := Player2);
      } else if currentPlayer == Player2 {
        currentAccount := board.blue;
        board := board.(nextPlayer := Player1);
      } else {
        return Err(WrongLogic), [];
      }
      if sender != currentAccount {
        return Err(NotPlayerTurn), [];
      }
      if column as int >= Width {
        // `board[column]` is out of bounds: the call panics and nothing is written
        return Err(IndexOutOfBounds), [];
      }
      var placed, grid, state := DropAndJudge(board.board, column as nat, currentPlayer, currentAccount);
      if !placed {
        return Err(WrongLogic), [];
      }
      board := board.(board := grid, boardState := state);
      board := board.(lastTurn := now);
      boards := boards[boardId := board];
      requests := RearmTurnDeadline(boardId, now, scheduled);
      return Ok, requests;
    }

    /**
     * The end of `play_turn`: cancels the task recorded for the board, if
     * any (the answer is only logged), then asks for the end-of-turn task of
     * the new turn and records its name, or None when the scheduler refused.
     */
    method RearmTurnDeadline(boardId: Hash, now: BlockNumber, scheduled: bool) returns (requests: seq<SchedulerRequest>)
      modifies this`boardSchedules
      ensures var (entry, request) := ScheduleEndTurn(boardId, now, now + MaxBlocksPerTurn, scheduled);
        && requests == CancelPrevious(old(State()), boardId) + [request]
        && boardSchedules == old(boardSchedules)[boardId := entry]
    {
      requests := [];
      if boardId in boardSchedules {
        var oldScheduleId := boardSchedules[boardId];
        if oldScheduleId.Some? {
          requests := requests + [CancelNamed(oldScheduleId.value)];
        }
      }
      var (scheduleId, request) := ScheduleEndTurn(boardId, now, now + MaxBlocksPerTurn, scheduled);
      requests := requests + [request];
      boardSchedules := boardSchedules[boardId := scheduleId];
    }

    /**
     * `force_end_turn(boardId, lastTurn)` dispatched by the scheduler at block
     * `now`; `scheduled` is the scheduler's answer to the cleanup task.
     */
    method ForceEndTurn(boardId: Hash, lastTurn: BlockNumber, now: BlockNumber, scheduled: bool)
      returns (result: Dispatch, requests: seq<SchedulerRequest>)
      modifies this
      ensures Step(result, State(), requests) == ForceEndTurnSpec(old(State()), boardId, lastTurn, now, scheduled)
      ensures something == old(something)
    {
      if boardId !in boards {
        return Err(NoBoardFound), [];
      }
      var board := boards[boardId];
      if board.lastTurn != lastTurn {
        return Err(MoveInBetween), [];
      }
      if board.boardState == Running {
        if board.nextPlayer == Player1 {
          board := board.(boardState := Finished(board.blue));
        } else if board.nextPlayer == Player2 {
          board := board.(boardState := Finished(board.red));
        } else {
          return Err(WrongLogic), [];
        }
        board := board.(lastTurn := now);
        boards := boards[boardId := board];
        var (scheduleId, request) := ScheduleEndTurn(boardId, now, now + CleanupBoardsAfter, scheduled);
        boardSchedules := boardSchedules[boardId := scheduleId];
        return Ok, [request];
      } else {
        boards := boards - {boardId};
        playerBoard := playerBoard - {board.red};
        playerBoard := playerBoard - {board.blue};
        boardSchedules := boardSchedules - {boardId};
        return Ok, [];
      }
    }

    /**
     * `cause_error`: fails with NoneValue when `Something` is unset and with
     * StorageOverflow when it is at the u32 maximum; otherwise increments it.
     */
    method CauseError() returns (result: Dispatch)
      modifies this`something
      ensures result == Err(NoneValue) <==> old(something) == None
      ensures result == Err(StorageOverflow) <==> old(something) == Some(0xFFFF_FFFF)
      ensures result.Err? ==> something == old(something)
      ensures result.Ok? ==> old(something).Some? && something == Some(old(something).value + 1)
      ensures old(something).Some? && old(something).value < 0xFFFF_FFFF ==> result == Ok
    {
      match something
      case None =>
        return Err(NoneValue);
      case Some(current) =>
        if current == 0xFFFF_FFFF {
          return Err(StorageOverflow);
        }
        something := Some(current + 1);
        return Ok;
    }
  }

  /**
   * The grid part of `play_turn`: drops the mover's stone into a mutable copy
   * of the grid, then asks `evaluate` for the mover and, failing that, `full`.
   */
  method DropAndJudge(board: Board, column: nat, mover: byte, moverAccount: AccountId)
    returns (placed: bool, grid: Board, state: BoardState)
    requires column < Width
    ensures placed <==> Place(board, column, mover).Some?
    ensures placed ==> grid == Place(board, column, mover).value && state == Outcome(grid, mover, moverAccount)
  {
    var cells := ToGrid(board);
    placed := AddStone(cells, column, mover);
    grid := Cells(cells);
    state := Running;
    if !placed {
      return;
    }
    var won := Evaluate(grid, mover);
    if won {
      state := Finished(moverAccount);
    } else {
      var full := Full(grid);
      if full {
        state := Finished(DefaultAccount);
      }
    }
  }

  /**
   * A game between accounts 1 and 2 at block 5. The account due first drops
   * a stone at block 6, which arms the turn deadline for block 16. The other
   * account does not answer: the deadline fires and the account that moved
   * wins by forfeit, the cleanup deadline it arms removes the board at block
   * 36, and account 1 may then start a new game.
   */
  method ForfeitScenario(random: seq<byte>, hash: HashOracle) returns (mover: AccountId, winner: AccountId)
    ensures mover == 1 || mover == 2
    ensures winner == mover
  {
    var pallet := new ConnectFour();
    var r := pallet.NewGame(1, 2, 5, random, hash);
    assert r == Ok;
    var id := BoardIdFor(random, 1, 0, hash);
    var b := pallet.boards[id];
    mover := AccountOf(b, b.nextPlayer);
    FirstMoveKeepsRunning(pallet.State(), mover, 0, 6, true);
    var requests;
    r, requests := pallet.PlayTurn(mover, 0, 6, true);
    assert r == Ok && pallet.boards[id].boardState == Running;
    assert requests == [ScheduleNamed(TaskName(ConnectFourId, id, 6), 16, ForceEndTurnCall(id, 6))];
    ForceEndTurnForfeits(pallet.State(), id, 6, 16, true);
    r, requests := pallet.ForceEndTurn(id, 6, 16, true);
    assert r == Ok && pallet.boards[id].boardState.Finished?;
    assert requests == [ScheduleNamed(TaskName(ConnectFourId, id, 16), 36, ForceEndTurnCall(id, 16))];
    winner := pallet.boards[id].boardState.account;
    ForceEndTurnCleansUp(pallet.State(), id, 16, 36, true);
    r, requests := pallet.ForceEndTurn(id, 16, 36, true);
    assert r == Ok && 1 !in pallet.playerBoard && 2 !in pallet.playerBoard && id !in pallet.boards;
    r := pallet.NewGame(1, 3, 40, random, hash);
    assert r == Ok;
  }
}
