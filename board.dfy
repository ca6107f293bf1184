/**
  The vocabulary shared by the three tic-tac-toe implementations: cells,
  the 3x3 board (stored row-major), the eight winning lines and counting.
  The repository writes a cell as the string "-", "X" or "O".
 */
module Board {

  datatype Option<T> = None | Some(value: T)

  datatype Cell = Empty | X | O

  /** A 3x3 grid, row r and column c at index 3 * r + c. */
  type Board = b: seq<Cell> | |b| == 9
    witness [Empty, Empty, Empty, Empty, Empty, Empty, Empty, Empty, Empty]

  /** A (row, col) pair, as the server's move tuples. */
  type Move = (int, int)

  predicate InRange(row: int, col: int) {
    0 <= row < 3 && 0 <= col < 3
  }

  function At(b: Board, row: int, col: int): Cell
    requires InRange(row, col)
  {
    b[3 * row + col]
  }

  /** The board with one cell overwritten, as `board[row][col] = v`. */
  function Place(b: Board, row: int, col: int, v: Cell): (r: Board)
    requires InRange(row, col)
    ensures At(r, row, col) == v
    ensures forall i, j :: InRange(i, j) && (i, j) != (row, col) ==> At(r, i, j) == At(b, i, j)
  {
    b[3 * row + col := v]
  }

  const EmptyBoard: Board := [Empty, Empty, Empty, Empty, Empty, Empty, Empty, Empty, Empty]

  /** The symbol that moves after `p`: "O" after "X", "X" otherwise. */
  function Other(p: Cell): (q: Cell)
    ensures q != Empty && q != p
  {
    if p == X then O else X
  }

  /** The three cells p, q, r all hold `c`. */
  predicate Line(b: Board, p: nat, q: nat, r: nat, c: Cell)
    requires p < 9 && q < 9 && r < 9
  {
    b[p] == c && b[q] == c && b[r] == c
  }

  /**
    Reference definition of a completed line: one of the 3 rows, 3 columns
    or 2 diagonals holds `c` in all three cells.
   */
  predicate HasLine(b: Board, c: Cell) {
    Line(b, 0, 1, 2, c) || Line(b, 3, 4, 5, c) || Line(b, 6, 7, 8, c) ||
    Line(b, 0, 3, 6, c) || Line(b, 1, 4, 7, c) || Line(b, 2, 5, 8, c) ||
    Line(b, 0, 4, 8, c) || Line(b, 2, 4, 6, c)
  }

  /** The eight lines in the order the evaluators test them: rows, columns, diagonals. */
  const Lines: seq<(nat, nat, nat)> :=
    [(0, 1, 2), (3, 4, 5), (6, 7, 8), (0, 3, 6), (1, 4, 7), (2, 5, 8), (0, 4, 8), (2, 4, 6)]

  /** Reference scan: the symbol of the first monochrome non-empty line in `Lines` from index k. */
  function FirstWinner(b: Board, k: nat): Option<Cell>
    requires k <= |Lines|
    decreases |Lines| - k
  {
    if k == |Lines| then None
    else
      var (p, q, r) := Lines[k];
      if b[p] != Empty && Line(b, p, q, r, b[p]) then Some(b[p]) else FirstWinner(b, k + 1)
  }

  /** Number of occurrences of `c` in `s`. */
  function Count(s: seq<Cell>, c: Cell): (n: nat)
    ensures n <= |s|
    ensures n == 0 <==> c !in s
  {
    if s == [] then 0 else (if s[0] == c then 1 else 0) + Count(s[1..], c)
  }

  /** Overwriting one position changes each count by at most the cell it removes and the cell it adds. */
  lemma {:induction false} CountUpdate(s: seq<Cell>, p: nat, v: Cell, c: Cell)
    requires p < |s|
    ensures Count(s[p := v], c) ==
            Count(s, c) - (if s[p] == c then 1 else 0) + (if v == c then 1 else 0)
  {
    if p == 0 {
      assert s[p := v][1..] == s[1..];
    } else {
      assert s[p := v][1..] == s[1..][p - 1 := v];
      CountUpdate(s[1..], p - 1, v, c);
    }
  }

  /** Placing `p` can complete a line only for `p`: any other symbol's lines were there before. */
  lemma PlaceKeepsOtherLines(b: Board, row: int, col: int, p: Cell, q: Cell)
    requires InRange(row, col) && q != p
    ensures HasLine(Place(b, row, col, p), q) ==> HasLine(b, q)
  {
    var r := Place(b, row, col, p);
    assert forall k :: 0 <= k < 9 && k != 3 * row + col ==> r[k] == b[k];
  }
}
