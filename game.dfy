/**
 * The match records of the connect-four pallet and the pure meaning of its
 * three game calls (`new_game`, `play_turn`, `force_end_turn`) as functions
 * from the pallet's storage before the call to its result, the storage
 * after it and the requests the call makes of the scheduler.
 */
module Game {
  import opened Wrappers
  import opened Grid

  newtype u64 = x: int | 0 <= x < 0x1_0000_0000_0000_0000
  newtype u32 = x: int | 0 <= x < 0x1_0000_0000

  /** Accounts as in the test runtime (a u64); the default account is 0. */
  type AccountId = u64
  const DefaultAccount: AccountId := 0

  /** Block numbers; the u64 of the test runtime is taken as unbounded. */
  type BlockNumber = nat

  /** A 32-byte hash, the board identifier. */
  type Hash = h: seq<byte> | |h| == 32 witness seq(32, _ => 0)

  /** `BoardState`; `Unset` is the source's default variant `None`. */
  datatype BoardState = Unset | Running | Finished(account: AccountId)

  /** `BoardStruct`: the two players, the grid, the block of the last turn, who moves next and the state. */
  datatype BoardStruct = BoardStruct(
    id: Hash,
    red: AccountId,
    blue: AccountId,
    board: Board,
    lastTurn: BlockNumber,
    nextPlayer: byte,
    boardState: BoardState)

  const Player1: byte := 1
  const Player2: byte := 2
  const MaxBlocksPerTurn: nat := 10
  const CleanupBoardsAfter: nat := 20
  /** The lock identifier `b"connect4"` that prefixes every task name. */
  const ConnectFourId: seq<byte> := [0x63, 0x6f, 0x6e, 0x6e, 0x65, 0x63, 0x74, 0x34]

  datatype Error =
    // the pallet's error enum
    | NoneValue
    | StorageOverflow
    | ScheduleError
    | PlayerBoardExists
    | NoPlayerBoard
    | NoFakePlay
    | NotPlayerTurn
    | WrongLogic
    // the string errors of `ensure!`
    | ColumnTooLarge    // "Game only allows columns smaller then 8"
    | NoBoardFound      // "No board found"
    | BoardNotRunning   // "Board is not running, check if already finished."
    | MoveInBetween     // "There has been a move in between."
    // the call panics: `add_stone` indexes column 7 of a 7-column board
    | IndexOutOfBounds

  /** `DispatchResult`. */
  datatype Dispatch = Ok | Err(error: Error)

  /** The name of a scheduled task: the lock id, the board and the turn it belongs to. */
  datatype TaskName = TaskName(lock: seq<byte>, boardId: Hash, lastTurn: BlockNumber)

  /** The call a scheduled task dispatches. */
  datatype Call = ForceEndTurnCall(boardId: Hash, lastTurn: BlockNumber)

  /** What the pallet asks of the scheduler. */
  datatype SchedulerRequest =
    | CancelNamed(name: TaskName)
    | ScheduleNamed(name: TaskName, when: BlockNumber, call: Call)

  /** The storage items `Boards`, `PlayerBoard`, `BoardSchedules` and `Nonce`. */
  datatype Storage = Storage(
    boards: map<Hash, BoardStruct>,
    playerBoard: map<AccountId, Hash>,
    boardSchedules: map<Hash, Option<TaskName>>,
    nonce: u64)

  /** One call: its result, the storage afterwards, and the scheduler requests it made, in order. */
  datatype Step = Step(result: Dispatch, storage: Storage, requests: seq<SchedulerRequest>)

  /** `T::Hashing::hash` over the encoded tuple (seed, sender, encoded nonce). */
  type HashOracle = (seq<byte>, AccountId, seq<byte>) -> Hash

  // ---------------------------------------------------------------------
  // Nonce and seed
  // ---------------------------------------------------------------------

  function Pow256(k: nat): nat
  {
    if k == 0 then 1 else 256 * Pow256(k - 1)
  }

  /** Little-endian bytes of `n`, `width` of them, as SCALE encodes fixed-width integers. */
  function LittleEndian(n: nat, width: nat): (bs: seq<byte>)
    ensures |bs| == width
  {
    if width == 0 then [] else [(n % 256) as byte] + LittleEndian(n / 256, width - 1)
  }

  function FromLittleEndian(bs: seq<byte>): nat
  {
    if bs == [] then 0 else bs[0] as nat + 256 * FromLittleEndian(bs[1..])
  }

  lemma {:induction false} LittleEndianRoundTrip(n: nat, width: nat)
    requires n < Pow256(width)
    ensures FromLittleEndian(LittleEndian(n, width)) == n
  {
    if width > 0 {
      LittleEndianRoundTrip(n / 256, width - 1);
      assert LittleEndian(n, width)[1..] == LittleEndian(n / 256, width - 1);
    }
  }

  /** `nonce.encode()`: the eight little-endian bytes of a u64. */
  function EncodeU64(n: u64): (bs: seq<byte>)
    ensures |bs| == 8
  {
    LittleEndian(n as nat, 8)
  }

  /** Distinct nonces give distinct encodings, so the hash input never repeats within 2^64 games. */
  lemma EncodeU64Injective(a: u64, b: u64)
    ensures EncodeU64(a) == EncodeU64(b) ==> a == b
  {
    assert Pow256(8) == 0x1_0000_0000_0000_0000;
    LittleEndianRoundTrip(a as nat, 8);
    LittleEndianRoundTrip(b as nat, 8);
  }

  /** `u64::wrapping_add(1)`. */
  function WrappingIncrement(n: u64): (r: u64)
    ensures r as int == (n as int + 1) % 0x1_0000_0000_0000_0000
  {
    if n == 0xFFFF_FFFF_FFFF_FFFF then 0 else n + 1
  }

  /**
   * The 32-byte seed decoded from the randomness source's output through a
   * `TrailingZeroInput`: its first 32 bytes, padded with zeros when shorter.
   */
  function PadSeed(random: seq<byte>): (seed: seq<byte>)
    ensures |seed| == 32
    ensures forall i :: 0 <= i < 32 ==> seed[i] == if i < |random| then random[i] else 0
  {
    if |random| >= 32 then random[..32] else random + seq(32 - |random|, _ => 0)
  }

  /** The board id `create_game` obtains from the randomness and the hasher. */
  function BoardIdFor(random: seq<byte>, red: AccountId, nonce: u64, hash: HashOracle): Hash
  {
    hash(PadSeed(random), red, EncodeU64(nonce))
  }

  /** The player who moves first: PLAYER_1 when the first byte of the board id is below 128. */
  function FirstPlayer(boardId: Hash): (p: byte)
    ensures p == Player1 || p == Player2
    ensures p == Player1 <==> boardId[0] < 128
  {
    if boardId[0] < 128 then Player1 else Player2
  }

  // ---------------------------------------------------------------------
  // Players
  // ---------------------------------------------------------------------

  predicate IsPlayer(p: byte)
  {
    p == Player1 || p == Player2
  }

  /** The other player number. */
  function Other(p: byte): (q: byte)
    requires IsPlayer(p)
    ensures IsPlayer(q) && q != p
  {
    if p == Player1 then Player2 else Player1
  }

  /** The account playing as `p`: PLAYER_1 is red, PLAYER_2 is blue. */
  function AccountOf(b: BoardStruct, p: byte): (a: AccountId)
    requires IsPlayer(p)
    ensures a == if p == Player1 then b.red else b.blue
  {
    if p == Player1 then b.red else b.blue
  }

  // ---------------------------------------------------------------------
  // Scheduling
  // ---------------------------------------------------------------------

  /**
   * `schedule_end_turn`: asks the scheduler to dispatch `force_end_turn(boardId,
   * lastTurn)` at block `endTurn` under a name made of the lock id, the board
   * and the turn. When the scheduler refuses (`scheduled` is false) the entry
   * to record is None; the failure is only logged.
   */
  function ScheduleEndTurn(boardId: Hash, lastTurn: BlockNumber, endTurn: BlockNumber, scheduled: bool)
    : (r: (Option<TaskName>, SchedulerRequest))
    ensures r.1 == ScheduleNamed(TaskName(ConnectFourId, boardId, lastTurn), endTurn, ForceEndTurnCall(boardId, lastTurn))
    ensures r.0 == if scheduled then Some(r.1.name) else None
  {
    var name := TaskName(ConnectFourId, boardId, lastTurn);
    (if scheduled then Some(name) else None, ScheduleNamed(name, endTurn, ForceEndTurnCall(boardId, lastTurn)))
  }

  /** Task names of different boards or different turns differ, so one turn's task never cancels another's. */
  lemma TurnTasksDistinct(id: Hash, turn: BlockNumber, endTurn: BlockNumber, scheduled: bool,
                          id': Hash, turn': BlockNumber, endTurn': BlockNumber, scheduled': bool)
    requires id != id' || turn != turn'
    ensures ScheduleEndTurn(id, turn, endTurn, scheduled).1.name != ScheduleEndTurn(id', turn', endTurn', scheduled').1.name
  {
  }

  // ---------------------------------------------------------------------
  // The three game calls
  // ---------------------------------------------------------------------

  function Reject(s: Storage, e: Error): (r: Step)
    ensures r.result.Err? && r.storage == s && r.requests == []
  {
    Step(Err(e), s, [])
  }

  /** The record `create_game` stores: empty grid, Running, started at `now`. */
  function NewBoard(id: Hash, red: AccountId, blue: AccountId, now: BlockNumber): (b: BoardStruct)
    ensures b.board == EmptyBoard() && b.boardState == Running && b.lastTurn == now
    ensures b.red == red && b.blue == blue && b.id == id && b.nextPlayer == FirstPlayer(id)
  {
    BoardStruct(id, red, blue, EmptyBoard(), now, FirstPlayer(id), Running)
  }

  /**
   * `new_game` called by `sender` against `opponent` at block `now`, with
   * `random` the randomness source's output.
   */
  function NewGameSpec(s: Storage, sender: AccountId, opponent: AccountId, now: BlockNumber,
                       random: seq<byte>, hash: HashOracle): (r: Step)
    ensures r.result == Err(NoFakePlay) <==> sender == opponent
    ensures r.result == Err(PlayerBoardExists) <==>
      sender != opponent && (sender in s.playerBoard || opponent in s.playerBoard)
    ensures r.result.Err? ==> r.storage == s
    ensures r.requests == [] && r.storage.boardSchedules == s.boardSchedules
    ensures r.result.Ok? ==>
      var id := BoardIdFor(random, sender, s.nonce, hash);
      && r.storage.playerBoard == s.playerBoard[sender := id][opponent := id]
      && r.storage.boards == s.boards[id := NewBoard(id, sender, opponent, now)]
      && r.storage.nonce as int == (s.nonce as int + 1) % 0x1_0000_0000_0000_0000
  {
    if sender == opponent then Reject(s, NoFakePlay)
    else if sender in s.playerBoard || opponent in s.playerBoard then Reject(s, PlayerBoardExists)
    else
      var id := BoardIdFor(random, sender, s.nonce, hash);
      Step(Ok, s.(boards := s.boards[id := NewBoard(id, sender, opponent, now)],
                  playerBoard := s.playerBoard[sender := id][opponent := id],
                  nonce := WrappingIncrement(s.nonce)), [])
  }

  /**
   * The state a move leaves: a win for the mover takes priority over a full
   * board, which is recorded as a win for the default account.
   */
  ghost function Outcome(grid: Board, mover: byte, moverAccount: AccountId): (st: BoardState)
    ensures FourInARow(grid, mover) ==> st == Finished(moverAccount)
    ensures !FourInARow(grid, mover) && BottomRowFilled(grid) ==> st == Finished(DefaultAccount)
    ensures !FourInARow(grid, mover) && !BottomRowFilled(grid) ==> st == Running
  {
    if FourInARow(grid, mover) then Finished(moverAccount)
    else if BottomRowFilled(grid) then Finished(DefaultAccount)
    else Running
  }

  /** The cancel request for the task recorded for `id`, if one is recorded. */
  function CancelPrevious(s: Storage, id: Hash): (r: seq<SchedulerRequest>)
    ensures |r| <= 1
    ensures r != [] <==> id in s.boardSchedules && s.boardSchedules[id].Some?
    ensures r != [] ==> r[0] == CancelNamed(s.boardSchedules[id].value)
  {
    if id in s.boardSchedules && s.boardSchedules[id].Some? then [CancelNamed(s.boardSchedules[id].value)] else []
  }

  /** True when `play_turn` by `sender` gets past every check before the stone is dropped. */
  predicate TurnAllowed(s: Storage, sender: AccountId, column: byte)
  {
    && column < 7
    && sender in s.playerBoard
    && s.playerBoard[sender] in s.boards
    && var b := s.boards[s.playerBoard[sender]];
    && b.boardState == Running
    && IsPlayer(b.nextPlayer)
    && sender == AccountOf(b, b.nextPlayer)
  }

  /**
   * `play_turn` by `sender` into `column` at block `now`; `scheduled` is the
   * scheduler's answer to the new end-of-turn task.
   */
  ghost function PlayTurnSpec(s: Storage, sender: AccountId, column: byte, now: BlockNumber, scheduled: bool): (r: Step)
    ensures r.result.Err? ==> r.storage == s && r.requests == []
    ensures r.result == Err(ColumnTooLarge) <==> column >= 8
    ensures r.result == Err(IndexOutOfBounds) ==> column == 7
    ensures r.result.Ok? ==> TurnAllowed(s, sender, column)
    ensures r.result.Ok? ==> r.storage.playerBoard == s.playerBoard && r.storage.nonce == s.nonce
  {
    if column >= 8 then Reject(s, ColumnTooLarge)
    else if sender !in s.playerBoard then Reject(s, NoPlayerBoard)
    else
      var id := s.playerBoard[sender];
      if id !in s.boards then Reject(s, NoBoardFound)
      else
        var b := s.boards[id];
        if b.boardState != Running then Reject(s, BoardNotRunning)
        else if !IsPlayer(b.nextPlayer) then Reject(s, WrongLogic)
        else if sender != AccountOf(b, b.nextPlayer) then Reject(s, NotPlayerTurn)
        else if column as int >= Width then Reject(s, IndexOutOfBounds)
        else match Place(b.board, column as nat, b.nextPlayer)
          case None => Reject(s, WrongLogic)
          case Some(grid) =>
            var b' := b.(board := grid,
                         nextPlayer := Other(b.nextPlayer),
                         boardState := Outcome(grid, b.nextPlayer, sender),
                         lastTurn := now);
            var (entry, request) := ScheduleEndTurn(id, now, now + MaxBlocksPerTurn, scheduled);
            Step(Ok, s.(boards := s.boards[id := b'], boardSchedules := s.boardSchedules[id := entry]),
                 CancelPrevious(s, id) + [request])
  }

  /**
   * `force_end_turn(id, lastTurn)` dispatched by the scheduler at block `now`;
   * `scheduled` is the scheduler's answer to the cleanup task.
   */
  function ForceEndTurnSpec(s: Storage, id: Hash, lastTurn: BlockNumber, now: BlockNumber, scheduled: bool): (r: Step)
    ensures r.result.Err? ==> r.storage == s && r.requests == []
    ensures r.result == Err(NoBoardFound) <==> id !in s.boards
    ensures r.result == Err(MoveInBetween) <==> id in s.boards && s.boards[id].lastTurn != lastTurn
    ensures r.storage.playerBoard != s.playerBoard ==> r.result.Ok? && id !in r.storage.boards
    ensures r.storage.nonce == s.nonce
  {
    if id !in s.boards then Reject(s, NoBoardFound)
    else
      var b := s.boards[id];
      if b.lastTurn != lastTurn then Reject(s, MoveInBetween)
      else if b.boardState == Running then
        if !IsPlayer(b.nextPlayer) then Reject(s, WrongLogic)
        else
          var b' := b.(boardState := Finished(AccountOf(b, Other(b.nextPlayer))), lastTurn := now);
          var (entry, request) := ScheduleEndTurn(id, now, now + CleanupBoardsAfter, scheduled);
          Step(Ok, s.(boards := s.boards[id := b'], boardSchedules := s.boardSchedules[id := entry]), [request])
      else
        Step(Ok, s.(boards := s.boards - {id},
                    playerBoard := s.playerBoard - {b.red, b.blue},
                    boardSchedules := s.boardSchedules - {id}), [])
  }

  // ---------------------------------------------------------------------
  // Invariants
  // ---------------------------------------------------------------------

  /** Every stone belongs to one of the two players. */
  predicate StonesValid(g: Board)
  {
    forall x, y :: 0 <= x < Width && 0 <= y < Height ==> g[x][y] == 0 || IsPlayer(g[x][y])
  }

  /** What every stored board satisfies. */
  predicate WellFormedBoard(id: Hash, b: BoardStruct)
  {
    && b.id == id
    && b.red != b.blue
    && IsPlayer(b.nextPlayer)
    && b.boardState != Unset
    && AllSettled(b.board)
    && StonesValid(b.board)
  }

  /** Every stored board is well formed under its own id. */
  ghost predicate BoardsWellFormed(boards: map<Hash, BoardStruct>)
  {
    forall id :: id in boards ==> WellFormedBoard(id, boards[id])
  }

  /** Each board's two players point at it. */
  ghost predicate PlayersRegistered(boards: map<Hash, BoardStruct>, playerBoard: map<AccountId, Hash>)
  {
    forall id :: id in boards ==>
      && boards[id].red in playerBoard && playerBoard[boards[id].red] == id
      && boards[id].blue in playerBoard && playerBoard[boards[id].blue] == id
  }

  /** Each player entry points at a stored board the player plays on. */
  ghost predicate RegistryPoints(boards: map<Hash, BoardStruct>, playerBoard: map<AccountId, Hash>)
  {
    forall a :: a in playerBoard ==>
      playerBoard[a] in boards && (boards[playerBoard[a]].red == a || boards[playerBoard[a]].blue == a)
  }

  /** A schedule entry belongs to a stored board and, when present, names the task of its current turn. */
  ghost predicate SchedulesBelong(boards: map<Hash, BoardStruct>, boardSchedules: map<Hash, Option<TaskName>>)
  {
    forall id :: id in boardSchedules ==>
      && id in boards
      && (boardSchedules[id].Some? ==> boardSchedules[id].value == TaskName(ConnectFourId, id, boards[id].lastTurn))
  }

  /** The storage invariant: the four properties above. */
  ghost predicate Consistent(s: Storage)
  {
    && BoardsWellFormed(s.boards)
    && PlayersRegistered(s.boards, s.playerBoard)
    && RegistryPoints(s.boards, s.playerBoard)
    && SchedulesBelong(s.boards, s.boardSchedules)
  }

  /** The genesis storage: nothing stored, nonce 0. */
  lemma GenesisConsistent()
    ensures Consistent(Storage(map[], map[], map[], 0))
  {
  }

  /** The registry after adding board `id` for `red` and `blue`. */
  function Register(playerBoard: map<AccountId, Hash>, red: AccountId, blue: AccountId, id: Hash): (m: map<AccountId, Hash>)
    ensures m.Keys == playerBoard.Keys + {red, blue}
    ensures m[red] == id && m[blue] == id
    ensures forall a :: a in playerBoard && a != red && a != blue ==> m[a] == playerBoard[a]
  {
    playerBoard[red := id][blue := id]
  }

  /** Each registered account of a storage extended by fresh board `id` still points at a board it plays on. */
  lemma RegistryStillPoints(s: Storage, id: Hash, b: BoardStruct)
    requires Consistent(s) && id !in s.boards
    requires b.red !in s.playerBoard && b.blue !in s.playerBoard
    ensures RegistryPoints(s.boards[id := b], Register(s.playerBoard, b.red, b.blue, id))
  {
    var boards, pb := s.boards[id := b], Register(s.playerBoard, b.red, b.blue, id);
    forall a | a in pb
      ensures pb[a] in boards && (boards[pb[a]].red == a || boards[pb[a]].blue == a)
    {
      if a != b.red && a != b.blue {
        assert a in s.playerBoard && s.playerBoard[a] != id;
      }
    }
  }

  /** Each board of a storage extended by fresh board `id` still has both players registered to it. */
  lemma BoardsStillRegistered(s: Storage, id: Hash, b: BoardStruct)
    requires Consistent(s) && id !in s.boards
    requires b.red !in s.playerBoard && b.blue !in s.playerBoard
    ensures PlayersRegistered(s.boards[id := b], Register(s.playerBoard, b.red, b.blue, id))
  {
    var boards, pb := s.boards[id := b], Register(s.playerBoard, b.red, b.blue, id);
    forall i | i in boards
      ensures boards[i].red in pb && pb[boards[i].red] == i
      ensures boards[i].blue in pb && pb[boards[i].blue] == i
    {
      if i != id {
        assert s.boards[i].red != b.red && s.boards[i].red != b.blue;
        assert s.boards[i].blue != b.red && s.boards[i].blue != b.blue;
      }
    }
  }

  /**
   * Adding a well-formed board under an id not in use, with both of its
   * players (not yet registered) pointing at it, keeps the invariant.
   */
  lemma RegisterBoardKeepsConsistent(s: Storage, id: Hash, b: BoardStruct)
    requires Consistent(s) && id !in s.boards && WellFormedBoard(id, b)
    requires b.red !in s.playerBoard && b.blue !in s.playerBoard
    ensures Consistent(Storage(s.boards[id := b], Register(s.playerBoard, b.red, b.blue, id), s.boardSchedules, s.nonce))
  {
    var boards := s.boards[id := b];
    assert BoardsWellFormed(boards) by {
      forall i | i in boards ensures WellFormedBoard(i, boards[i]) {
        if i != id {
          assert boards[i] == s.boards[i];
        }
      }
    }
    RegistryStillPoints(s, id, b);
    BoardsStillRegistered(s, id, b);
    assert SchedulesBelong(boards, s.boardSchedules) by {
      forall i | i in s.boardSchedules
        ensures i in boards && boards[i] == s.boards[i]
      {
      }
    }
  }

  /** `new_game` keeps the invariant when the hasher yields an id not already in use. */
  lemma NewGameKeepsConsistent(s: Storage, sender: AccountId, opponent: AccountId, now: BlockNumber,
                               random: seq<byte>, hash: HashOracle)
    requires Consistent(s)
    requires BoardIdFor(random, sender, s.nonce, hash) !in s.boards
    ensures Consistent(NewGameSpec(s, sender, opponent, now, random, hash).storage)
  {
    var r := NewGameSpec(s, sender, opponent, now, random, hash);
    if r.result.Ok? {
      var id := BoardIdFor(random, sender, s.nonce, hash);
      var b := NewBoard(id, sender, opponent, now);
      assert StonesValid(EmptyBoard()) && AllSettled(EmptyBoard());
      RegisterBoardKeepsConsistent(s, id, b);
      assert r.storage == Storage(s.boards[id := b], Register(s.playerBoard, b.red, b.blue, id), s.boardSchedules,
                             WrappingIncrement(s.nonce));
    }
  }

  /** A dropped stone of a valid player keeps the grid settled and its stones valid. */
  lemma PlaceKeepsGridValid(g: Board, column: nat, p: byte)
    requires column < Width && IsPlayer(p) && AllSettled(g) && StonesValid(g)
    requires Place(g, column, p).Some?
    ensures AllSettled(Place(g, column, p).value) && StonesValid(Place(g, column, p).value)
  {
    PlaceKeepsSettled(g, column, p);
  }

  /**
   * Rewriting a stored board, with the same players and still well formed,
   * together with a schedule entry for its new turn, keeps the invariant.
   */
  lemma UpdateBoardKeepsConsistent(s: Storage, id: Hash, b': BoardStruct, entry: Option<TaskName>)
    requires Consistent(s) && id in s.boards
    requires b'.red == s.boards[id].red && b'.blue == s.boards[id].blue && WellFormedBoard(id, b')
    requires entry.Some? ==> entry.value == TaskName(ConnectFourId, id, b'.lastTurn)
    ensures Consistent(s.(boards := s.boards[id := b'], boardSchedules := s.boardSchedules[id := entry]))
  {
  }

  /** `play_turn` keeps the invariant. */
  lemma PlayTurnKeepsConsistent(s: Storage, sender: AccountId, column: byte, now: BlockNumber, scheduled: bool)
    requires Consistent(s)
    ensures Consistent(PlayTurnSpec(s, sender, column, now, scheduled).storage)
  {
    var r := PlayTurnSpec(s, sender, column, now, scheduled);
    if r.result.Ok? {
      var id := s.playerBoard[sender];
      var b := s.boards[id];
      var grid := Place(b.board, column as nat, b.nextPlayer).value;
      PlaceKeepsGridValid(b.board, column as nat, b.nextPlayer);
      var b' := b.(board := grid, nextPlayer := Other(b.nextPlayer),
                   boardState := Outcome(grid, b.nextPlayer, sender), lastTurn := now);
      var entry := ScheduleEndTurn(id, now, now + MaxBlocksPerTurn, scheduled).0;
      UpdateBoardKeepsConsistent(s, id, b', entry);
      assert r.storage == s.(boards := s.boards[id := b'], boardSchedules := s.boardSchedules[id := entry]);
    }
  }

  /** Removing a finished board and its two players' entries keeps the invariant. */
  lemma CleanupKeepsConsistent(s: Storage, id: Hash)
    requires Consistent(s) && id in s.boards
    ensures var b := s.boards[id];
      Consistent(s.(boards := s.boards - {id}, playerBoard := s.playerBoard - {b.red, b.blue},
                    boardSchedules := s.boardSchedules - {id}))
  {
    var b := s.boards[id];
    var t := s.(boards := s.boards - {id}, playerBoard := s.playerBoard - {b.red, b.blue},
                boardSchedules := s.boardSchedules - {id});
    forall i | i in t.boards
      ensures t.boards[i].red in t.playerBoard && t.playerBoard[t.boards[i].red] == i
      ensures t.boards[i].blue in t.playerBoard && t.playerBoard[t.boards[i].blue] == i
    {
      assert i != id && s.boards[i] == t.boards[i];
      assert s.boards[i].red != b.red && s.boards[i].red != b.blue;
      assert s.boards[i].blue != b.red && s.boards[i].blue != b.blue;
    }
    forall a | a in t.playerBoard
      ensures t.playerBoard[a] in t.boards
      ensures t.boards[t.playerBoard[a]].red == a || t.boards[t.playerBoard[a]].blue == a
    {
      assert a in s.playerBoard && a != b.red && a != b.blue;
      assert s.playerBoard[a] != id;
    }
  }

  /** Recording a forfeit on a board, with the cleanup task of the new turn, keeps the invariant. */
  lemma ForfeitKeepsConsistent(s: Storage, id: Hash, winner: AccountId, now: BlockNumber, entry: Option<TaskName>)
    requires Consistent(s) && id in s.boards
    requires entry.Some? ==> entry.value == TaskName(ConnectFourId, id, now)
    ensures var b := s.boards[id];
      Consistent(s.(boards := s.boards[id := b.(boardState := Finished(winner), lastTurn := now)],
                    boardSchedules := s.boardSchedules[id := entry]))
  {
    var b := s.boards[id];
    UpdateBoardKeepsConsistent(s, id, b.(boardState := Finished(winner), lastTurn := now), entry);
  }

  /** `force_end_turn` keeps the invariant. */
  lemma ForceEndTurnKeepsConsistent(s: Storage, id: Hash, lastTurn: BlockNumber, now: BlockNumber, scheduled: bool)
    requires Consistent(s)
    ensures Consistent(ForceEndTurnSpec(s, id, lastTurn, now, scheduled).storage)
  {
    var r := ForceEndTurnSpec(s, id, lastTurn, now, scheduled);
    if r.result.Ok? {
      var b := s.boards[id];
      if b.boardState == Running {
        var entry := ScheduleEndTurn(id, now, now + CleanupBoardsAfter, scheduled).0;
        ForfeitKeepsConsistent(s, id, AccountOf(b, Other(b.nextPlayer)), now, entry);
      } else {
        CleanupKeepsConsistent(s, id);
      }
    }
  }

  // ---------------------------------------------------------------------
  // Properties of the calls
  // ---------------------------------------------------------------------

  /** A board that is no longer Running keeps its state until it is removed. */
  ghost predicate NoRevival(s: Storage, t: Storage)
  {
    forall id :: id in s.boards && id in t.boards && s.boards[id].boardState != Running ==>
      t.boards[id].boardState == s.boards[id].boardState
  }

  /** A Running board either stays Running or becomes Finished. */
  ghost predicate RunningAdvances(s: Storage, t: Storage)
  {
    forall id :: id in s.boards && id in t.boards && s.boards[id].boardState == Running ==>
      t.boards[id].boardState == Running || t.boards[id].boardState.Finished?
  }

  /** `new_game` moves no board back to Running when the new id is not in use. */
  lemma NewGameOnlyAdvances(s: Storage, sender: AccountId, opponent: AccountId, now: BlockNumber,
                            random: seq<byte>, hash: HashOracle)
    requires BoardIdFor(random, sender, s.nonce, hash) !in s.boards
    ensures var t := NewGameSpec(s, sender, opponent, now, random, hash).storage;
      NoRevival(s, t) && RunningAdvances(s, t)
  {
  }

  /** `play_turn` changes only a Running board, to Running or Finished. */
  lemma PlayTurnOnlyAdvances(s: Storage, sender: AccountId, column: byte, now: BlockNumber, scheduled: bool)
    ensures var t := PlayTurnSpec(s, sender, column, now, scheduled).storage;
      NoRevival(s, t) && RunningAdvances(s, t)
  {
  }

  /** `force_end_turn` finishes a Running board or removes a finished one. */
  lemma ForceEndTurnOnlyAdvances(s: Storage, id: Hash, lastTurn: BlockNumber, now: BlockNumber, scheduled: bool)
    ensures var t := ForceEndTurnSpec(s, id, lastTurn, now, scheduled).storage;
      NoRevival(s, t) && RunningAdvances(s, t)
  {
  }

  /**
   * A successful move: the mover was the account of `next_player`, the stone
   * went where `add_stone` puts it, `next_player` flips, `last_turn` becomes
   * `now`, and the state is decided for the mover's own player number.
   */
  lemma PlayTurnSucceeds(s: Storage, sender: AccountId, column: byte, now: BlockNumber, scheduled: bool)
    requires TurnAllowed(s, sender, column)
    requires Place(s.boards[s.playerBoard[sender]].board, column as nat, s.boards[s.playerBoard[sender]].nextPlayer).Some?
    ensures
      var id := s.playerBoard[sender];
      var b := s.boards[id];
      var grid := Place(b.board, column as nat, b.nextPlayer).value;
      var r := PlayTurnSpec(s, sender, column, now, scheduled);
      && r.result == Ok
      && id in r.storage.boards
      && r.storage.boards[id] == b.(board := grid, nextPlayer := Other(b.nextPlayer),
                                    boardState := Outcome(grid, b.nextPlayer, sender), lastTurn := now)
      && (forall other :: other in s.boards && other != id ==> other in r.storage.boards && r.storage.boards[other] == s.boards[other])
  {
  }

  /** Every rejection of `play_turn` leaves storage untouched and asks nothing of the scheduler; these are all of them. */
  lemma PlayTurnRejections(s: Storage, sender: AccountId, column: byte, now: BlockNumber, scheduled: bool)
    ensures var r := PlayTurnSpec(s, sender, column, now, scheduled);
      r.result.Err? <==>
        || column >= 8
        || sender !in s.playerBoard
        || s.playerBoard[sender] !in s.boards
        || s.boards[s.playerBoard[sender]].boardState != Running
        || !IsPlayer(s.boards[s.playerBoard[sender]].nextPlayer)
        || sender != AccountOf(s.boards[s.playerBoard[sender]], s.boards[s.playerBoard[sender]].nextPlayer)
        || column == 7
        || s.boards[s.playerBoard[sender]].board[column][0] != 0
  {
  }

  /**
   * Which error each check of `play_turn` returns, in the order the checks
   * run, and that a call passing all of them succeeds.
   */
  lemma PlayTurnErrorCodes(s: Storage, sender: AccountId, column: byte, now: BlockNumber, scheduled: bool)
    ensures var r := PlayTurnSpec(s, sender, column, now, scheduled);
      && (column >= 8 ==> r.result == Err(ColumnTooLarge))
      && (column < 8 && sender !in s.playerBoard ==> r.result == Err(NoPlayerBoard))
      && (column < 8 && sender in s.playerBoard ==>
            var id := s.playerBoard[sender];
            && (id !in s.boards ==> r.result == Err(NoBoardFound))
            && (id in s.boards ==>
                  var b := s.boards[id];
                  && (b.boardState != Running ==> r.result == Err(BoardNotRunning))
                  && (b.boardState == Running && !IsPlayer(b.nextPlayer) ==> r.result == Err(WrongLogic))
                  && (b.boardState == Running && IsPlayer(b.nextPlayer) ==>
                        && (sender != AccountOf(b, b.nextPlayer) ==> r.result == Err(NotPlayerTurn))
                        && (sender == AccountOf(b, b.nextPlayer) ==>
                              && (column == 7 ==> r.result == Err(IndexOutOfBounds))
                              && (column < 7 && b.board[column][0] != 0 ==> r.result == Err(WrongLogic))
                              && (column < 7 && b.board[column][0] == 0 ==> r.result == Ok)))))
  {
  }

  /**
   * Scheduling after a move: any recorded task is cancelled first, then the
   * end-of-turn task for the new turn is requested at `now + MAX_BLOCKS_PER_TURN`
   * whatever the outcome, and the entry recorded is that task's name or None.
   */
  lemma PlayTurnReschedules(s: Storage, sender: AccountId, column: byte, now: BlockNumber, scheduled: bool)
    requires PlayTurnSpec(s, sender, column, now, scheduled).result.Ok?
    ensures
      var id := s.playerBoard[sender];
      var r := PlayTurnSpec(s, sender, column, now, scheduled);
      var name := TaskName(ConnectFourId, id, now);
      && r.requests == CancelPrevious(s, id) + [ScheduleNamed(name, now + MaxBlocksPerTurn, ForceEndTurnCall(id, now))]
      && r.storage.boardSchedules == s.boardSchedules[id := if scheduled then Some(name) else None]
  {
  }

  /** A call that wins and fills the board at once is a win, not a draw. */
  lemma WinBeatsFullBoard(s: Storage, sender: AccountId, column: byte, now: BlockNumber, scheduled: bool)
    requires PlayTurnSpec(s, sender, column, now, scheduled).result.Ok?
    ensures
      var id := s.playerBoard[sender];
      var b := s.boards[id];
      var b' := PlayTurnSpec(s, sender, column, now, scheduled).storage.boards[id];
      && (FourInARow(b'.board, b.nextPlayer) ==> b'.boardState == Finished(sender))
      && (!FourInARow(b'.board, b.nextPlayer) && BottomRowFilled(b'.board) ==> b'.boardState == Finished(DefaultAccount))
      && (!FourInARow(b'.board, b.nextPlayer) && !BottomRowFilled(b'.board) ==> b'.boardState == Running)
  {
  }

  /** The first move on an empty board succeeds and leaves the game Running: one stone neither wins nor fills. */
  lemma FirstMoveKeepsRunning(s: Storage, sender: AccountId, column: byte, now: BlockNumber, scheduled: bool)
    requires TurnAllowed(s, sender, column)
    requires s.boards[s.playerBoard[sender]].board == EmptyBoard()
    ensures var r := PlayTurnSpec(s, sender, column, now, scheduled);
      r.result == Ok && r.storage.boards[s.playerBoard[sender]].boardState == Running
  {
    var b := s.boards[s.playerBoard[sender]];
    OneStoneHasNoLine(Place(b.board, column as nat, b.nextPlayer).value, column as int, Bottom, b.nextPlayer);
  }

  /** Column 7 passes the `column < 8` check and then aborts the call: no change. */
  lemma ColumnSevenAborts(s: Storage, sender: AccountId, now: BlockNumber, scheduled: bool)
    requires TurnAllowed(s, sender, 0)
    ensures PlayTurnSpec(s, sender, 7, now, scheduled) == Step(Err(IndexOutOfBounds), s, [])
  {
  }

  /** `new_game` arms no deadline: it makes no scheduler request, and a fresh board has no schedule entry. */
  lemma NewGameArmsNoDeadline(s: Storage, sender: AccountId, opponent: AccountId, now: BlockNumber,
                              random: seq<byte>, hash: HashOracle)
    requires Consistent(s)
    requires BoardIdFor(random, sender, s.nonce, hash) !in s.boards
    ensures var r := NewGameSpec(s, sender, opponent, now, random, hash);
      && r.requests == []
      && (r.result.Ok? ==> BoardIdFor(random, sender, s.nonce, hash) !in r.storage.boardSchedules)
  {
  }

  /** Both players of a new game are registered on the same new board; either may be due first. */
  lemma NewGameRegistersBoth(s: Storage, sender: AccountId, opponent: AccountId, now: BlockNumber,
                             random: seq<byte>, hash: HashOracle)
    requires sender != opponent && sender !in s.playerBoard && opponent !in s.playerBoard
    ensures var r := NewGameSpec(s, sender, opponent, now, random, hash);
      var id := BoardIdFor(random, sender, s.nonce, hash);
      && r.result == Ok
      && r.storage.playerBoard[sender] == id && r.storage.playerBoard[opponent] == id
      && id in r.storage.boards
      && var b := r.storage.boards[id];
      && b.board == EmptyBoard() && b.boardState == Running && b.lastTurn == now && IsPlayer(b.nextPlayer)
      && AccountOf(b, b.nextPlayer) == (if id[0] < 128 then sender else opponent)
  {
  }

  /** A deadline whose turn was superseded by a move is ignored. */
  lemma StaleDeadlineIgnored(s: Storage, id: Hash, lastTurn: BlockNumber, now: BlockNumber, scheduled: bool)
    requires id in s.boards && s.boards[id].lastTurn != lastTurn
    ensures ForceEndTurnSpec(s, id, lastTurn, now, scheduled) == Step(Err(MoveInBetween), s, [])
  {
  }

  /**
   * A turn deadline that fires on a Running board gives the win to the
   * player who was not due to move, and asks for the cleanup task at
   * `now + CLEANUP_BOARDS_AFTER`. When that one fires, the board, both
   * players' entries and the schedule entry are gone, and neither player can
   * move any more.
   */
  lemma {:induction false} ForfeitThenCleanup(s: Storage, id: Hash, now: BlockNumber, later: BlockNumber,
                                              scheduled: bool, scheduled': bool, column: byte)
    requires Consistent(s) && id in s.boards && s.boards[id].boardState == Running
    ensures
      var b := s.boards[id];
      var r1 := ForceEndTurnSpec(s, id, b.lastTurn, now, scheduled);
      var r2 := ForceEndTurnSpec(r1.storage, id, now, later, scheduled');
      && r1.result == Ok
      && r1.storage.boards[id].boardState == Finished(AccountOf(b, Other(b.nextPlayer)))
      && AccountOf(b, Other(b.nextPlayer)) != AccountOf(b, b.nextPlayer)
      && r1.requests == [ScheduleNamed(TaskName(ConnectFourId, id, now), now + CleanupBoardsAfter, ForceEndTurnCall(id, now))]
      && r2.result == Ok
      && id !in r2.storage.boards && id !in r2.storage.boardSchedules
      && b.red !in r2.storage.playerBoard && b.blue !in r2.storage.playerBoard
      && PlayTurnSpec(r2.storage, b.red, column, later, scheduled').result.Err?
      && PlayTurnSpec(r2.storage, b.blue, column, later, scheduled').result.Err?
  {
    var b := s.boards[id];
    var r1 := ForceEndTurnSpec(s, id, b.lastTurn, now, scheduled);
    assert r1.storage.boards[id] == b.(boardState := Finished(AccountOf(b, Other(b.nextPlayer))), lastTurn := now);
    assert r1.storage.playerBoard == s.playerBoard;
  }

  /**
   * After a move that ends the game, the turn deadline it armed (at
   * `now + MAX_BLOCKS_PER_TURN`) removes the board when it fires.
   */
  lemma FinishingMoveCleansUpAtTurnDeadline(s: Storage, sender: AccountId, column: byte, now: BlockNumber,
                                            later: BlockNumber, scheduled: bool, scheduled': bool)
    requires PlayTurnSpec(s, sender, column, now, scheduled).result.Ok?
    requires PlayTurnSpec(s, sender, column, now, scheduled).storage.boards[s.playerBoard[sender]].boardState.Finished?
    ensures
      var id := s.playerBoard[sender];
      var r := PlayTurnSpec(s, sender, column, now, scheduled);
      && r.requests[|r.requests| - 1] == ScheduleNamed(TaskName(ConnectFourId, id, now), now + MaxBlocksPerTurn, ForceEndTurnCall(id, now))
      && var r2 := ForceEndTurnSpec(r.storage, id, now, later, scheduled');
      && r2.result == Ok && r2.requests == []
      && id !in r2.storage.boards && id !in r2.storage.boardSchedules
      && sender !in r2.storage.playerBoard
      && s.boards[id].red !in r2.storage.playerBoard && s.boards[id].blue !in r2.storage.playerBoard
  {
  }

  /**
   * A deadline that fires, for the current turn, on a board that is not
   * Running removes the board, its schedule entry and both players' entries,
   * asks nothing of the scheduler, and keeps every other entry.
   */
  lemma ForceEndTurnCleansUp(s: Storage, id: Hash, lastTurn: BlockNumber, now: BlockNumber, scheduled: bool)
    requires id in s.boards && s.boards[id].lastTurn == lastTurn && s.boards[id].boardState != Running
    ensures var b := s.boards[id];
      var r := ForceEndTurnSpec(s, id, lastTurn, now, scheduled);
      && r.result == Ok && r.requests == []
      && r.storage.boards == s.boards - {id}
      && r.storage.playerBoard == s.playerBoard - {b.red, b.blue}
      && r.storage.boardSchedules == s.boardSchedules - {id}
      && r.storage.nonce == s.nonce
  {
  }

  /**
   * A deadline that fires, for the current turn, on a Running board gives
   * the win to the player not due to move, stamps the turn with `now`,
   * requests the cleanup task at `now + CLEANUP_BOARDS_AFTER` and records it,
   * and changes nothing else.
   */
  lemma ForceEndTurnForfeits(s: Storage, id: Hash, lastTurn: BlockNumber, now: BlockNumber, scheduled: bool)
    requires id in s.boards && s.boards[id].lastTurn == lastTurn && s.boards[id].boardState == Running
    requires IsPlayer(s.boards[id].nextPlayer)
    ensures var b := s.boards[id];
      var r := ForceEndTurnSpec(s, id, lastTurn, now, scheduled);
      var name := TaskName(ConnectFourId, id, now);
      && r.result == Ok
      && r.requests == [ScheduleNamed(name, now + CleanupBoardsAfter, ForceEndTurnCall(id, now))]
      && r.storage.boards == s.boards[id := b.(boardState := Finished(AccountOf(b, Other(b.nextPlayer))), lastTurn := now)]
      && r.storage.playerBoard == s.playerBoard
      && r.storage.boardSchedules == s.boardSchedules[id := if scheduled then Some(name) else None]
      && r.storage.nonce == s.nonce
  {
  }
}
