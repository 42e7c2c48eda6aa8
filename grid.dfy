/**
 * The grid logic of connect four: a board of 7 columns by 6 rows of bytes,
 * indexed `board[x][y]`, where row 0 is the top and row 5 the bottom.
 * A cell holds 0 when empty and the player's number otherwise.
 */
module Grid {
  import opened Wrappers

  newtype byte = b: int | 0 <= b < 256

  const Width: nat := 7
  const Height: nat := 6
  /** The row index `add_stone` fills first and the only row `full` looks at. */
  const Bottom: nat := Height - 1

  predicate IsBoard(b: seq<seq<byte>>)
  {
    |b| == Width && forall x :: 0 <= x < |b| ==> |b[x]| == Height
  }

  type Board = b: seq<seq<byte>> | IsBoard(b) witness EmptyBoard()

  function EmptyBoard(): (b: seq<seq<byte>>)
    ensures IsBoard(b)
    ensures forall x, y :: 0 <= x < Width && 0 <= y < Height ==> b[x][y] == 0
  {
    seq(Width, _ => seq(Height, _ => 0))
  }

  predicate InBounds(x: int, y: int)
  {
    0 <= x < Width && 0 <= y < Height
  }

  // ---------------------------------------------------------------------
  // Four in a row
  // ---------------------------------------------------------------------

  /** The four cells from (x, y) in steps of (dx, dy) are on the board and all hold `player`. */
  predicate RunOfFour(b: Board, player: byte, x: int, y: int, dx: int, dy: int)
    requires -1 <= dx <= 1 && -1 <= dy <= 1
  {
    && InBounds(x, y) && InBounds(x + 3 * dx, y + 3 * dy)
    && b[x][y] == player
    && b[x + dx][y + dy] == player
    && b[x + 2 * dx][y + 2 * dy] == player
    && b[x + 3 * dx][y + 3 * dy] == player
  }

  predicate IsStep(dx: int, dy: int)
  {
    -1 <= dx <= 1 && -1 <= dy <= 1 && (dx != 0 || dy != 0)
  }

  /**
   * Reference definition of a win: four consecutive cells holding `player`
   * anywhere on the board, in any of the eight directions.
   */
  ghost predicate FourInARow(b: Board, player: byte)
  {
    exists x, y, dx, dy :: IsStep(dx, dy) && RunOfFour(b, player, x, y, dx, dy)
  }

  // The regions the four scans of `evaluate` cover, one predicate per scan,
  // each saying that no start cell in its first `yEnd` rows begins a run.

  ghost predicate NoHorizontal(b: Board, player: byte, yEnd: int)
  {
    forall x, y :: 0 <= y < yEnd && 0 <= x < Width - 3 ==> !RunOfFour(b, player, x, y, 1, 0)
  }

  ghost predicate NoVertical(b: Board, player: byte, yEnd: int)
  {
    forall x, y :: 0 <= y < yEnd && 0 <= x < Width ==> !RunOfFour(b, player, x, y, 0, 1)
  }

  ghost predicate NoAscending(b: Board, player: byte, yEnd: int)
  {
    forall x, y :: 0 <= y < yEnd && 3 <= x < Width ==> !RunOfFour(b, player, x, y, -1, 1)
  }

  ghost predicate NoDescending(b: Board, player: byte, yEnd: int)
  {
    forall x, y :: 3 <= y < yEnd && 3 <= x < Width ==> !RunOfFour(b, player, x, y, -1, -1)
  }

  /** What `evaluate` finds: a hit in one of its four scans over their full ranges. */
  ghost predicate ScanFinds(b: Board, player: byte)
  {
    !(NoHorizontal(b, player, Height) && NoVertical(b, player, Height - 3)
      && NoAscending(b, player, Height - 3) && NoDescending(b, player, Height))
  }

  /**
   * The four scans of `evaluate` together cover every line of four on a 7x6
   * board: a run in any of the eight directions is found by one of them,
   * read from one end or the other, and every hit is such a run.
   */
  lemma ScansCoverEveryLine(b: Board, player: byte)
    ensures ScanFinds(b, player) <==> FourInARow(b, player)
  {
    if FourInARow(b, player) {
      var x, y, dx, dy :| IsStep(dx, dy) && RunOfFour(b, player, x, y, dx, dy);
      if dy == 0 {
        var x0 := if dx == 1 then x else x - 3;
        assert RunOfFour(b, player, x0, y, 1, 0);
      } else if dx == 0 {
        var y0 := if dy == 1 then y else y - 3;
        assert RunOfFour(b, player, x, y0, 0, 1);
      } else if dx == -dy {
        var x0, y0 := if dx == -1 then x else x + 3, if dx == -1 then y else y - 3;
        assert RunOfFour(b, player, x0, y0, -1, 1);
      } else {
        var x0, y0 := if dx == -1 then x else x + 3, if dx == -1 then y else y + 3;
        assert RunOfFour(b, player, x0, y0, -1, -1);
      }
    }
    if !NoHorizontal(b, player, Height) {
      var x, y :| 0 <= y < Height && 0 <= x < Width - 3 && RunOfFour(b, player, x, y, 1, 0);
      assert IsStep(1, 0);
    } else if !NoVertical(b, player, Height - 3) {
      var x, y :| 0 <= y < Height - 3 && 0 <= x < Width && RunOfFour(b, player, x, y, 0, 1);
      assert IsStep(0, 1);
    } else if !NoAscending(b, player, Height - 3) {
      var x, y :| 0 <= y < Height - 3 && 3 <= x < Width && RunOfFour(b, player, x, y, -1, 1);
      assert IsStep(-1, 1);
    } else if !NoDescending(b, player, Height) {
      var x, y :| 3 <= y < Height && 3 <= x < Width && RunOfFour(b, player, x, y, -1, -1);
      assert IsStep(-1, -1);
    }
  }

  /**
   * `Logic::evaluate`: the horizontal, vertical, ascending-diagonal and
   * descending-diagonal scans, each returning at its first hit. Every cell it
   * reads is on the board (the index checks of this method prove it).
   */
  method Evaluate(board: Board, player: byte) returns (found: bool)
    ensures found <==> FourInARow(board, player)
  {
    // horizontal
    for y := 0 to Height
      invariant NoHorizontal(board, player, y)
    {
      for x := 0 to Width - 3
        invariant NoHorizontal(board, player, y)
        invariant forall x' :: 0 <= x' < x ==> !RunOfFour(board, player, x', y, 1, 0)
      {
        if board[x][y] == player && board[x + 1][y] == player
          && board[x + 2][y] == player && board[x + 3][y] == player
        {
          assert IsStep(1, 0) && RunOfFour(board, player, x, y, 1, 0);
          return true;
        }
      }
    }
    // vertical
    for y := 0 to Height - 3
      invariant NoVertical(board, player, y)
    {
      for x := 0 to Width
        invariant NoVertical(board, player, y)
        invariant forall x' :: 0 <= x' < x ==> !RunOfFour(board, player, x', y, 0, 1)
      {
        if board[x][y] == player && board[x][y + 1] == player
          && board[x][y + 2] == player && board[x][y + 3] == player
        {
          assert IsStep(0, 1) && RunOfFour(board, player, x, y, 0, 1);
          return true;
        }
      }
    }
    // ascending diagonal
    for y := 0 to Height - 3
      invariant NoAscending(board, player, y)
    {
      for x := 3 to Width
        invariant NoAscending(board, player, y)
        invariant forall x' :: 3 <= x' < x ==> !RunOfFour(board, player, x', y, -1, 1)
      {
        if board[x][y] == player && board[x - 1][y + 1] == player
          && board[x - 2][y + 2] == player && board[x - 3][y + 3] == player
        {
          assert IsStep(-1, 1) && RunOfFour(board, player, x, y, -1, 1);
          return true;
        }
      }
    }
    // descending diagonal
    for y := 3 to Height
      invariant NoDescending(board, player, y)
    {
      for x := 3 to Width
        invariant NoDescending(board, player, y)
        invariant forall x' :: 3 <= x' < x ==> !RunOfFour(board, player, x', y, -1, -1)
      {
        if board[x][y] == player && board[x - 1][y - 1] == player
          && board[x - 2][y - 2] == player && board[x - 3][y - 3] == player
        {
          assert IsStep(-1, -1) && RunOfFour(board, player, x, y, -1, -1);
          return true;
        }
      }
    }
    ScansCoverEveryLine(board, player);
    return false;
  }

  // ---------------------------------------------------------------------
  // Full board test
  // ---------------------------------------------------------------------

  /** Every column has a stone in row index 5, the row `full` inspects. */
  predicate BottomRowFilled(b: Board)
  {
    forall x :: 0 <= x < Width ==> b[x][Bottom] != 0
  }

  /** Every column's top cell, row index 0, is occupied. */
  predicate TopRowFilled(b: Board)
  {
    forall x :: 0 <= x < Width ==> b[x][0] != 0
  }

  /** `Logic::full`: scans row index 5 and answers false at its first empty cell. */
  method Full(board: Board) returns (full: bool)
    ensures full <==> BottomRowFilled(board)
  {
    for x := 0 to Width
      invariant forall x' :: 0 <= x' < x ==> board[x'][Bottom] != 0
    {
      if board[x][Bottom] == 0 {
        return false;
      }
    }
    return true;
  }

  // ---------------------------------------------------------------------
  // Gravity
  // ---------------------------------------------------------------------

  /** A column obeys gravity: its occupied cells form a run ending at the bottom row. */
  predicate Settled(col: seq<byte>)
  {
    forall i, j :: 0 <= i < j < |col| && col[i] != 0 ==> col[j] != 0
  }

  predicate AllSettled(b: Board)
  {
    forall x :: 0 <= x < Width ==> Settled(b[x])
  }

  /** The column holds at least one stone. */
  predicate HasStone(col: seq<byte>)
  {
    exists y :: 0 <= y < |col| && col[y] != 0
  }

  /** Under gravity, `full` holds exactly when every column holds at least one stone. */
  lemma FullMeansNoEmptyColumn(b: Board)
    requires AllSettled(b)
    ensures BottomRowFilled(b) <==> forall x :: 0 <= x < Width ==> HasStone(b[x])
  {
    forall x | 0 <= x < Width
      ensures HasStone(b[x]) <==> b[x][Bottom] != 0
    {
      var col := b[x];
      if HasStone(col) {
        var y :| 0 <= y < Height && col[y] != 0;
        assert Settled(col);
        assert y == Bottom || col[Bottom] != 0;
      }
    }
  }

  /** Under gravity, a board whose top row is occupied is occupied everywhere, and `full` sees it. */
  lemma TopRowFilledIsFull(b: Board)
    requires AllSettled(b) && TopRowFilled(b)
    ensures forall x, y :: InBounds(x, y) ==> b[x][y] != 0
    ensures BottomRowFilled(b)
  {
    forall x, y | InBounds(x, y)
      ensures b[x][y] != 0
    {
      assert Settled(b[x]);
      assert y == 0 || b[x][0] != 0;
    }
  }

  /** Row index 5 alternates 1, 2, 1, ... and every other cell is empty. */
  predicate AlternatingBottomRow(b: Board)
  {
    forall x, y :: 0 <= x < Width && 0 <= y < Height ==> b[x][y] == if y == Bottom then (if x % 2 == 0 then 1 else 2) else 0
  }

  /** On such a board neither player has four in a row. */
  lemma AlternatingBottomRowHasNoLine(b: Board, player: byte)
    requires AlternatingBottomRow(b) && player != 0
    ensures !FourInARow(b, player)
  {
    assert NoHorizontal(b, player, Height) by {
      forall x, y | 0 <= y < Height && 0 <= x < Width - 3
        ensures !RunOfFour(b, player, x, y, 1, 0)
      {
        assert (x % 2 == 0) != ((x + 1) % 2 == 0);
        assert b[x][y] == 0 || b[x][y] != b[x + 1][y];
      }
    }
    assert NoVertical(b, player, Height - 3) by {
      forall x, y | 0 <= y < Height - 3 && 0 <= x < Width
        ensures !RunOfFour(b, player, x, y, 0, 1)
      {
        assert b[x][y] == 0;
      }
    }
    assert NoAscending(b, player, Height - 3) by {
      forall x, y | 0 <= y < Height - 3 && 3 <= x < Width
        ensures !RunOfFour(b, player, x, y, -1, 1)
      {
        assert b[x][y] == 0;
      }
    }
    assert NoDescending(b, player, Height) by {
      forall x, y | 3 <= y < Height && 3 <= x < Width
        ensures !RunOfFour(b, player, x, y, -1, -1)
      {
        assert b[x - 3][y - 3] == 0;
      }
    }
    ScansCoverEveryLine(b, player);
  }

  /**
   * Since `full` inspects the row `add_stone` fills first, seven stones along
   * the bottom already make the board "full": there 35 cells are still empty
   * and neither player has four in a row.
   */
  lemma BottomRowFilledTooEarly(b: Board)
    requires AlternatingBottomRow(b)
    ensures BottomRowFilled(b) && !TopRowFilled(b) && AllSettled(b)
    ensures !FourInARow(b, 1) && !FourInARow(b, 2)
  {
    assert b[0][0] == 0;
    forall x | 0 <= x < Width
      ensures Settled(b[x])
    {
      assert forall i :: 0 <= i < Height ==> (b[x][i] != 0 <==> i == Bottom);
    }
    AlternatingBottomRowHasNoLine(b, 1);
    AlternatingBottomRowHasNoLine(b, 2);
  }

  /** A grid holding a single stone, at (cx, cy), has no line and is not full. */
  lemma OneStoneHasNoLine(b: Board, cx: int, cy: int, player: byte)
    requires InBounds(cx, cy) && player != 0
    requires forall x, y :: 0 <= x < Width && 0 <= y < Height && (x != cx || y != cy) ==> b[x][y] == 0
    ensures !FourInARow(b, player) && !BottomRowFilled(b)
  {
    forall x, y, dx, dy | IsStep(dx, dy)
      ensures !RunOfFour(b, player, x, y, dx, dy)
    {
      if RunOfFour(b, player, x, y, dx, dy) {
        assert false;
      }
    }
    assert b[if cx == 0 then 1 else 0][Bottom] == 0;
  }

  // ---------------------------------------------------------------------
  // Dropping a stone
  // ---------------------------------------------------------------------

  /** The largest row index at or above `y` whose cell is empty. */
  function LastEmpty(col: seq<byte>, y: nat): (r: nat)
    requires y < |col| && col[0] == 0
    ensures r <= y && col[r] == 0
    ensures forall i :: r < i <= y ==> col[i] != 0
    decreases y
  {
    if col[y] == 0 then y else LastEmpty(col, y - 1)
  }

  /**
   * What `add_stone` does to the board value: no change (None) when the
   * column's top cell is occupied; otherwise the empty cell with the largest
   * row index in the column receives `player` and nothing else changes.
   */
  function Place(b: Board, column: nat, player: byte): (r: Option<Board>)
    requires column < Width
    ensures r.None? <==> b[column][0] != 0
    ensures r.Some? ==>
      var y := LastEmpty(b[column], Bottom);
      && b[column][y] == 0
      && (forall i :: y < i < Height ==> b[column][i] != 0)
      && r.value[column][y] == player
      && (forall x, i :: InBounds(x, i) && (x != column || i != y) ==> r.value[x][i] == b[x][i])
  {
    if b[column][0] != 0 then None
    else
      var y := LastEmpty(b[column], Bottom);
      Some(b[column := b[column][y := player]])
  }

  /** Dropping a stone keeps every column settled. */
  lemma PlaceKeepsSettled(b: Board, column: nat, player: byte)
    requires column < Width && player != 0 && AllSettled(b)
    requires Place(b, column, player).Some?
    ensures AllSettled(Place(b, column, player).value)
  {
    var r := Place(b, column, player).value;
    var y := LastEmpty(b[column], Bottom);
    forall x | 0 <= x < Width
      ensures Settled(r[x])
    {
      forall i, j | 0 <= i < j < Height && r[x][i] != 0
        ensures r[x][j] != 0
      {
        assert Settled(b[x]);
        if x == column && i == y {
          assert b[x][j] != 0;
        } else if x == column && j == y {
        } else {
          assert b[x][i] != 0;
        }
      }
    }
  }

  /** Drops `players`' stones one after another into `column`, stopping at the first refusal. */
  function DropAll(b: Board, column: nat, players: seq<byte>): Option<Board>
    requires column < Width
    decreases |players|
  {
    if players == [] then Some(b)
    else match DropAll(b, column, players[..|players| - 1])
      case None => None
      case Some(b') => Place(b', column, players[|players| - 1])
  }

  /**
   * Into an empty column, up to six stones are accepted one after another and
   * stack from the bottom: the k-th lands in row index 5 - k. Other columns
   * are untouched.
   */
  lemma {:induction false} DropsStackUp(b: Board, column: nat, players: seq<byte>)
    requires column < Width && |players| <= Height
    requires forall y :: 0 <= y < Height ==> b[column][y] == 0
    requires forall k :: 0 <= k < |players| ==> players[k] != 0
    ensures DropAll(b, column, players).Some?
    ensures var r := DropAll(b, column, players).value;
      && (forall k :: 0 <= k < |players| ==> r[column][Bottom - k] == players[k])
      && (forall y :: 0 <= y < Height - |players| ==> r[column][y] == 0)
      && (forall x, y :: InBounds(x, y) && x != column ==> r[x][y] == b[x][y])
  {
    if players != [] {
      var n := |players| - 1;
      var front := players[..n];
      DropsStackUp(b, column, front);
      var r0 := DropAll(b, column, front).value;
      assert r0[column][0] == 0;
      var y := LastEmpty(r0[column], Bottom);
      assert r0[column][Bottom - n] == 0;
      assert forall i :: Bottom - n < i <= Bottom ==> r0[column][i] == front[Bottom - i];
      assert y == Bottom - n;
    }
  }

  /** With six stones in an empty column, a seventh drop is refused and the board is left as it was. */
  lemma SeventhDropRefused(b: Board, column: nat, players: seq<byte>, player: byte)
    requires column < Width && |players| == Height
    requires forall y :: 0 <= y < Height ==> b[column][y] == 0
    requires forall k :: 0 <= k < |players| ==> players[k] != 0
    ensures DropAll(b, column, players).Some?
    ensures DropAll(b, column, players + [player]) == None
  {
    DropsStackUp(b, column, players);
    assert (players + [player])[..|players|] == players;
  }

  // ---------------------------------------------------------------------
  // The board in place
  // ---------------------------------------------------------------------

  predicate IsGrid(a: array2<byte>)
  {
    a.Length0 == Width && a.Length1 == Height
  }

  /** The board value an array holds. */
  function Cells(a: array2<byte>): (b: Board)
    requires IsGrid(a)
    reads a
    ensures forall x, y :: InBounds(x, y) ==> b[x][y] == a[x, y]
  {
    seq(Width, x requires 0 <= x < Width reads a =>
      seq(Height, y requires 0 <= y < Height reads a => a[x, y]))
  }

  /** A fresh array holding `board`, the mutable copy `add_stone` works on. */
  method ToGrid(board: Board) returns (a: array2<byte>)
    ensures fresh(a) && IsGrid(a) && Cells(a) == board
  {
    a := new byte[Width, Height]((x, y) => if InBounds(x, y) then board[x][y] else 0);
    assert forall x :: 0 <= x < Width ==> Cells(a)[x] == board[x];
  }

  /**
   * `Logic::add_stone`: refuses a column whose top cell is occupied; otherwise
   * walks the column from the bottom, skips occupied cells and writes `player`
   * into the first empty one. `column` must be a column of the board: the
   * source indexes out of bounds otherwise.
   */
  method AddStone(board: array2<byte>, column: nat, player: byte) returns (ok: bool)
    requires IsGrid(board) && column < Width
    modifies board
    ensures ok <==> old(board[column, 0]) == 0
    ensures !ok ==> Cells(board) == old(Cells(board))
    ensures ok ==> Place(old(Cells(board)), column, player) == Some(Cells(board))
  {
    ghost var before := Cells(board);
    if board[column, 0] > 0 {
      return false;
    }
    ghost var target := LastEmpty(before[column], Bottom);
    for y := 0 to Height
      invariant forall i :: Height - y <= i < Height ==> board[column, i] != 0
      invariant Cells(board) == before
    {
      var yPos := Height - y - 1;
      if board[column, yPos] > 0 {
        continue;
      }
      assert yPos == target;
      board[column, yPos] := player;
      assert Cells(board) == Place(before, column, player).value by {
        var after := Place(before, column, player).value;
        forall x | 0 <= x < Width
          ensures Cells(board)[x] == after[x]
        {
          assert forall i :: 0 <= i < Height ==> Cells(board)[x][i] == after[x][i];
        }
      }
      break;
    }
    return true;
  }
}
