/**
  The server's board evaluator (backend/server.py): `check_winner`,
  `is_board_full` and `get_available_moves`.
 */
module Server {
  import opened Board

  /** The `for row in board` loop of check_winner, from row r on. */
  function RowWinner(b: Board, r: nat): (w: Option<Cell>)
    requires r <= 3
    ensures w.Some? ==> w.value != Empty && HasLine(b, w.value)
    ensures w.None? && r == 0 ==> forall c :: c != Empty ==> !Line(b, 0, 1, 2, c) && !Line(b, 3, 4, 5, c) && !Line(b, 6, 7, 8, c)
    decreases 3 - r
  {
    if r == 3 then None
    else if At(b, r, 0) == At(b, r, 1) && At(b, r, 1) == At(b, r, 2) && At(b, r, 2) != Empty then Some(At(b, r, 0))
    else RowWinner(b, r + 1)
  }

  /** The `for col in range(3)` loop of check_winner, from column c on. */
  function ColWinner(b: Board, c: nat): (w: Option<Cell>)
    requires c <= 3
    ensures w.Some? ==> w.value != Empty && HasLine(b, w.value)
    ensures w.None? && c == 0 ==> forall s :: s != Empty ==> !Line(b, 0, 3, 6, s) && !Line(b, 1, 4, 7, s) && !Line(b, 2, 5, 8, s)
    decreases 3 - c
  {
    if c == 3 then None
    else if At(b, 0, c) == At(b, 1, c) && At(b, 1, c) == At(b, 2, c) && At(b, 2, c) != Empty then Some(At(b, 0, c))
    else ColWinner(b, c + 1)
  }

  /**
    `check_winner`: rows, then columns, then the two diagonals; the first
    line holding three equal non-"-" cells gives the winner, None otherwise.
   */
  function CheckWinner(b: Board): (w: Option<Cell>)
    ensures w.Some? ==> w.value != Empty && HasLine(b, w.value)
    ensures w.None? <==> !HasLine(b, X) && !HasLine(b, O)
  {
    var rows := RowWinner(b, 0);
    if rows.Some? then rows
    else
      var cols := ColWinner(b, 0);
      if cols.Some? then cols
      else if At(b, 0, 0) == At(b, 1, 1) && At(b, 1, 1) == At(b, 2, 2) && At(b, 2, 2) != Empty then Some(At(b, 0, 0))
      else if At(b, 0, 2) == At(b, 1, 1) && At(b, 1, 1) == At(b, 2, 0) && At(b, 2, 0) != Empty then Some(At(b, 0, 2))
      else None
  }

  /** check_winner reports the first monochrome line in the order rows, columns, diagonals. */
  lemma CheckWinnerScansLinesInOrder(b: Board)
    ensures CheckWinner(b) == FirstWinner(b, 0)
  {
    RowsScanFirst(b);
    ColsScanNext(b);
    assert FirstWinner(b, 6) == (if b[0] != Empty && Line(b, 0, 4, 8, b[0]) then Some(b[0]) else FirstWinner(b, 7));
    assert FirstWinner(b, 7) == (if b[2] != Empty && Line(b, 2, 4, 6, b[2]) then Some(b[2]) else FirstWinner(b, 8));
  }

  /** The row loop covers the first three entries of `Lines`. */
  lemma RowsScanFirst(b: Board)
    ensures RowWinner(b, 0).Some? ==> FirstWinner(b, 0) == RowWinner(b, 0)
    ensures RowWinner(b, 0).None? ==> FirstWinner(b, 0) == FirstWinner(b, 3)
  {
    assert FirstWinner(b, 0) == (if b[0] != Empty && Line(b, 0, 1, 2, b[0]) then Some(b[0]) else FirstWinner(b, 1));
    assert FirstWinner(b, 1) == (if b[3] != Empty && Line(b, 3, 4, 5, b[3]) then Some(b[3]) else FirstWinner(b, 2));
    assert FirstWinner(b, 2) == (if b[6] != Empty && Line(b, 6, 7, 8, b[6]) then Some(b[6]) else FirstWinner(b, 3));
  }

  /** The column loop covers the next three entries of `Lines`. */
  lemma ColsScanNext(b: Board)
    ensures ColWinner(b, 0).Some? ==> FirstWinner(b, 3) == ColWinner(b, 0)
    ensures ColWinner(b, 0).None? ==> FirstWinner(b, 3) == FirstWinner(b, 6)
  {
    assert FirstWinner(b, 3) == (if b[0] != Empty && Line(b, 0, 3, 6, b[0]) then Some(b[0]) else FirstWinner(b, 4));
    assert FirstWinner(b, 4) == (if b[1] != Empty && Line(b, 1, 4, 7, b[1]) then Some(b[1]) else FirstWinner(b, 5));
    assert FirstWinner(b, 5) == (if b[2] != Empty && Line(b, 2, 5, 8, b[2]) then Some(b[2]) else FirstWinner(b, 6));
  }

  /** The `for row in board: if "-" in row` loop of is_board_full, from row r on. */
  function RowsFull(b: Board, r: nat): (full: bool)
    requires r <= 3
    ensures full <==> Empty !in b[3 * r..]
    decreases 3 - r
  {
    if r == 3 then true
    else if At(b, r, 0) == Empty || At(b, r, 1) == Empty || At(b, r, 2) == Empty then false
    else
      assert b[3 * r..] == [b[3 * r], b[3 * r + 1], b[3 * r + 2]] + b[3 * (r + 1)..];
      RowsFull(b, r + 1)
  }

  /** `is_board_full`: no cell holds "-". */
  function IsBoardFull(b: Board): (full: bool)
    ensures full <==> Empty !in b
    ensures full <==> Count(b, Empty) == 0
  {
    assert b[3 * 0..] == b;
    RowsFull(b, 0)
  }

  /** Row-major position of a move. */
  function Key(m: Move): int {
    3 * m.0 + m.1
  }

  /** The moves the nested loops of get_available_moves append from cell (i, j) on. */
  function MovesFrom(b: Board, i: nat, j: nat): seq<Move>
    requires i <= 3 && j <= 3
    decreases 3 - i, 3 - j
  {
    if i == 3 then []
    else if j == 3 then MovesFrom(b, i + 1, 0)
    else (if At(b, i, j) == Empty then [(i as int, j as int)] else []) + MovesFrom(b, i, j + 1)
  }

  /** The value get_available_moves returns. */
  function AvailableMoves(b: Board): seq<Move> {
    MovesFrom(b, 0, 0)
  }

  /** Every move is in range and targets a "-" cell. */
  predicate AllLegal(b: Board, moves: seq<Move>) {
    forall m :: m in moves ==> InRange(m.0, m.1) && At(b, m.0, m.1) == Empty
  }

  /** Strictly increasing in row-major order (so each cell at most once). */
  predicate RowMajor(moves: seq<Move>) {
    forall p, q :: 0 <= p < q < |moves| ==> Key(moves[p]) < Key(moves[q])
  }

  lemma {:induction false} MovesFromLegal(b: Board, i: nat, j: nat)
    requires i <= 3 && j <= 3
    ensures AllLegal(b, MovesFrom(b, i, j))
    ensures forall m :: m in MovesFrom(b, i, j) ==> Key(m) >= 3 * i + j
    decreases 3 - i, 3 - j
  {
    if i < 3 && j == 3 {
      MovesFromLegal(b, i + 1, 0);
    } else if i < 3 {
      MovesFromLegal(b, i, j + 1);
    }
  }

  lemma {:induction false} MovesFromComplete(b: Board, i: nat, j: nat)
    requires i <= 3 && j <= 3
    ensures forall r, c :: InRange(r, c) && 3 * i + j <= 3 * r + c && At(b, r, c) == Empty ==> (r, c) in MovesFrom(b, i, j)
    decreases 3 - i, 3 - j
  {
    if i < 3 && j == 3 {
      MovesFromComplete(b, i + 1, 0);
    } else if i < 3 {
      MovesFromComplete(b, i, j + 1);
      forall r, c | InRange(r, c) && 3 * i + j <= 3 * r + c && At(b, r, c) == Empty
        ensures (r, c) in MovesFrom(b, i, j)
      {
        if 3 * r + c == 3 * i + j {
          assert r == i && c == j;
        }
      }
    }
  }

  /** Prepending a move that precedes every later one keeps the list in row-major order. */
  lemma ConsRowMajor(m: Move, rest: seq<Move>)
    requires RowMajor(rest)
    requires forall n :: n in rest ==> Key(m) < Key(n)
    ensures RowMajor([m] + rest)
  {
    var all := [m] + rest;
    forall p, q | 0 <= p < q < |all| ensures Key(all[p]) < Key(all[q]) {
      assert all[q] == rest[q - 1];
      if p > 0 {
        assert all[p] == rest[p - 1];
      } else {
        assert rest[q - 1] in rest;
      }
    }
  }

  lemma {:induction false} MovesFromOrdered(b: Board, i: nat, j: nat)
    requires i <= 3 && j <= 3
    ensures RowMajor(MovesFrom(b, i, j))
    decreases 3 - i, 3 - j
  {
    if i < 3 && j == 3 {
      MovesFromOrdered(b, i + 1, 0);
    } else if i < 3 {
      MovesFromOrdered(b, i, j + 1);
      MovesFromLegal(b, i, j + 1);
      if At(b, i, j) == Empty {
        ConsRowMajor((i as int, j as int), MovesFrom(b, i, j + 1));
      }
    }
  }

  /**
    get_available_moves lists every "-" cell and nothing else, all in range,
    in strictly increasing row-major order, so each cell exactly once.
   */
  lemma AvailableMovesCorrect(b: Board)
    ensures AllLegal(b, AvailableMoves(b))
    ensures forall r, c :: InRange(r, c) && At(b, r, c) == Empty ==> (r, c) in AvailableMoves(b)
    ensures RowMajor(AvailableMoves(b))
  {
    MovesFromLegal(b, 0, 0);
    MovesFromComplete(b, 0, 0);
    MovesFromOrdered(b, 0, 0);
  }

  /** is_board_full holds exactly when get_available_moves returns an empty list. */
  lemma FullIffNoMoves(b: Board)
    ensures IsBoardFull(b) <==> AvailableMoves(b) == []
  {
    AvailableMovesCorrect(b);
  }

  /** One step of the inner loop: appending cell (i, j) if it is "-" keeps `moves + rest == all`. */
  lemma AppendStep(b: Board, i: nat, j: nat, moves: seq<Move>, all: seq<Move>)
    requires i < 3 && j < 3
    requires moves + MovesFrom(b, i, j) == all
    ensures (if At(b, i, j) == Empty then moves + [(i as int, j as int)] else moves) + MovesFrom(b, i, j + 1) == all
  {
    var rest := MovesFrom(b, i, j + 1);
    if At(b, i, j) == Empty {
      var m: Move := (i, j);
      assert MovesFrom(b, i, j) == [m] + rest;
      assert (moves + [m]) + rest == moves + ([m] + rest);
    } else {
      assert MovesFrom(b, i, j) == rest;
    }
  }

  /**
    `get_available_moves`, with its nested loops appending (i, j) for every
    "-" cell. The board is the 9-cell array, row i and column j at index
    3 * i + j; it is only read.
   */
  method GetAvailableMoves(board: array<Cell>) returns (moves: seq<Move>)
    requires board.Length == 9
    ensures moves == AvailableMoves(board[..])
    ensures AllLegal(board[..], moves) && RowMajor(moves)
    ensures forall r, c :: InRange(r, c) && At(board[..], r, c) == Empty ==> (r, c) in moves
  {
    ghost var b: Board := board[..];
    ghost var all := AvailableMoves(b);
    moves := [];
    var i := 0;
    while i < 3
      invariant 0 <= i <= 3
      invariant moves + MovesFrom(b, i, 0) == all
    {
      var j := 0;
      while j < 3
        invariant 0 <= j <= 3
        invariant moves + MovesFrom(b, i, j) == all
      {
        AppendStep(b, i, j, moves, all);
        if board[3 * i + j] == Empty {
          moves := moves + [(i, j)];
        }
        j := j + 1;
      }
      assert MovesFrom(b, i, 3) == MovesFrom(b, i + 1, 0);
      i := i + 1;
    }
    assert moves == all;
    AvailableMovesCorrect(b);
  }
}
