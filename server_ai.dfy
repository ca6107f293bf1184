/**
  The server's AI (backend/server.py): `minimax`, an alpha-beta search with
  the AI playing "O" and the human "X", and `get_ai_move`, which picks a move
  by difficulty. Both search by writing a trial symbol into the board in
  place and undoing it, so they are methods on the board array (9 cells,
  row i and column j at index 3 * i + j); the value they
  compute is given by the functions MinimaxValue and AiMoveChoice.
 */
module ServerAi {
  import opened Board
  import opened Server

  /** Integer stand-ins for the search's `-float('inf')` and `float('inf')`. */
  const NegInf: int := -100
  const PosInf: int := 100

  function Max(a: int, b: int): int { if a >= b then a else b }
  function Min(a: int, b: int): int { if a <= b then a else b }

  /**
    The score `minimax(board, depth, is_maximizing, alpha, beta)` returns:
    10 - depth when "O" has won, depth - 10 when "X" has won, 0 on a full
    board, otherwise the best reply found by the scan over the empty cells.
   */
  function MinimaxValue(b: Board, depth: int, isMaximizing: bool, alpha: int, beta: int): int
    decreases Count(b, Empty), 4, 0
  {
    var winner := CheckWinner(b);
    if winner == Some(O) then 10 - depth
    else if winner == Some(X) then depth - 10
    else if IsBoardFull(b) then 0
    else if isMaximizing then MaxScan(b, depth, 0, 0, NegInf, alpha, beta)
    else MinScan(b, depth, 0, 0, PosInf, alpha, beta)
  }

  /**
    The maximizing loops, resumed at cell (i, j) with the running max_eval
    and alpha. A cutoff (`beta <= alpha`) breaks only the loop over j: the
    scan goes on with the next row.
   */
  function MaxScan(b: Board, depth: int, i: nat, j: nat, maxEval: int, alpha: int, beta: int): int
    requires i <= 3 && j <= 3
    decreases Count(b, Empty), 3 - i, 3 - j
  {
    if i == 3 then maxEval
    else if j == 3 then MaxScan(b, depth, i + 1, 0, maxEval, alpha, beta)
    else if At(b, i, j) != Empty then MaxScan(b, depth, i, j + 1, maxEval, alpha, beta)
    else
      CountUpdate(b, 3 * i + j, O, Empty);
      var evalScore := MinimaxValue(Place(b, i, j, O), depth + 1, false, alpha, beta);
      var alpha' := Max(alpha, evalScore);
      if beta <= alpha' then MaxScan(b, depth, i + 1, 0, Max(maxEval, evalScore), alpha', beta)
      else MaxScan(b, depth, i, j + 1, Max(maxEval, evalScore), alpha', beta)
  }

  /** The minimizing loops, symmetric to MaxScan with "X" placed and beta lowered. */
  function MinScan(b: Board, depth: int, i: nat, j: nat, minEval: int, alpha: int, beta: int): int
    requires i <= 3 && j <= 3
    decreases Count(b, Empty), 3 - i, 3 - j
  {
    if i == 3 then minEval
    else if j == 3 then MinScan(b, depth, i + 1, 0, minEval, alpha, beta)
    else if At(b, i, j) != Empty then MinScan(b, depth, i, j + 1, minEval, alpha, beta)
    else
      CountUpdate(b, 3 * i + j, X, Empty);
      var evalScore := MinimaxValue(Place(b, i, j, X), depth + 1, true, alpha, beta);
      var beta' := Min(beta, evalScore);
      if beta' <= alpha then MinScan(b, depth, i + 1, 0, Min(minEval, evalScore), alpha, beta')
      else MinScan(b, depth, i, j + 1, Min(minEval, evalScore), alpha, beta')
  }

  /** Terminal boards score by who has won and how deep the search is; a full board without a line is 0. */
  lemma MinimaxTerminalScores(b: Board, depth: int, isMaximizing: bool, alpha: int, beta: int)
    ensures HasLine(b, O) && !HasLine(b, X) ==> MinimaxValue(b, depth, isMaximizing, alpha, beta) == 10 - depth
    ensures HasLine(b, X) && !HasLine(b, O) ==> MinimaxValue(b, depth, isMaximizing, alpha, beta) == depth - 10
    ensures !HasLine(b, X) && !HasLine(b, O) && Empty !in b ==> MinimaxValue(b, depth, isMaximizing, alpha, beta) == 0
  {
  }

  /** The running max_eval never goes down during the scan. */
  lemma {:induction false} MaxScanAtLeast(b: Board, depth: int, i: nat, j: nat, maxEval: int, alpha: int, beta: int)
    requires i <= 3 && j <= 3
    ensures MaxScan(b, depth, i, j, maxEval, alpha, beta) >= maxEval
    decreases 3 - i, 3 - j
  {
    if i < 3 && j == 3 {
      MaxScanAtLeast(b, depth, i + 1, 0, maxEval, alpha, beta);
    } else if i < 3 && At(b, i, j) != Empty {
      MaxScanAtLeast(b, depth, i, j + 1, maxEval, alpha, beta);
    } else if i < 3 {
      var evalScore := MinimaxValue(Place(b, i, j, O), depth + 1, false, alpha, beta);
      MaxScanAtLeast(b, depth, i + 1, 0, Max(maxEval, evalScore), Max(alpha, evalScore), beta);
      MaxScanAtLeast(b, depth, i, j + 1, Max(maxEval, evalScore), Max(alpha, evalScore), beta);
    }
  }

  /** The running min_eval never goes up during the scan. */
  lemma {:induction false} MinScanAtMost(b: Board, depth: int, i: nat, j: nat, minEval: int, alpha: int, beta: int)
    requires i <= 3 && j <= 3
    ensures MinScan(b, depth, i, j, minEval, alpha, beta) <= minEval
    decreases 3 - i, 3 - j
  {
    if i < 3 && j == 3 {
      MinScanAtMost(b, depth, i + 1, 0, minEval, alpha, beta);
    } else if i < 3 && At(b, i, j) != Empty {
      MinScanAtMost(b, depth, i, j + 1, minEval, alpha, beta);
    } else if i < 3 {
      var evalScore := MinimaxValue(Place(b, i, j, X), depth + 1, true, alpha, beta);
      MinScanAtMost(b, depth, i + 1, 0, Min(minEval, evalScore), alpha, Min(beta, evalScore));
      MinScanAtMost(b, depth, i, j + 1, Min(minEval, evalScore), alpha, Min(beta, evalScore));
    }
  }

  /**
    Score bounds: with depth plies already played and at most 9 in all, the
    score lies in [depth - 10, 10 - depth], and in [depth - 9, 9 - depth]
    when nobody has won yet. Holds for every alpha and beta.
   */
  lemma {:induction false} MinimaxBounds(b: Board, depth: int, isMaximizing: bool, alpha: int, beta: int)
    requires 0 <= depth && depth + Count(b, Empty) <= 9
    ensures depth - 10 <= MinimaxValue(b, depth, isMaximizing, alpha, beta) <= 10 - depth
    ensures CheckWinner(b).None? ==> depth - 9 <= MinimaxValue(b, depth, isMaximizing, alpha, beta) <= 9 - depth
    decreases Count(b, Empty), 4, 0
  {
    if CheckWinner(b).None? && !IsBoardFull(b) {
      assert b[0..] == b;
      if isMaximizing {
        MaxScanBounds(b, depth, 0, 0, NegInf, alpha, beta);
      } else {
        MinScanBounds(b, depth, 0, 0, PosInf, alpha, beta);
      }
    }
  }

  lemma {:induction false} MaxScanBounds(b: Board, depth: int, i: nat, j: nat, maxEval: int, alpha: int, beta: int)
    requires i <= 3 && j <= 3 && (i < 3 || j == 0)
    requires 0 <= depth && depth + Count(b, Empty) <= 9
    requires maxEval <= 9 - depth
    requires maxEval >= depth - 9 || Empty in b[3 * i + j..]
    ensures depth - 9 <= MaxScan(b, depth, i, j, maxEval, alpha, beta) <= 9 - depth
    decreases Count(b, Empty), 3 - i, 3 - j, 1
  {
    if i == 3 {
      assert b[9..] == [];
    } else if j == 3 {
      assert 3 * (i + 1) + 0 == 3 * i + j;
      MaxScanBounds(b, depth, i + 1, 0, maxEval, alpha, beta);
    } else if At(b, i, j) != Empty {
      assert b[3 * i + j..] == [b[3 * i + j]] + b[3 * i + (j + 1)..];
      MaxScanBounds(b, depth, i, j + 1, maxEval, alpha, beta);
    } else {
      MaxStepBounds(b, depth, i, j, maxEval, alpha, beta);
    }
  }

  /** One trial move of the scan: the reply's score lies in range, so the running value stays in range. */
  lemma {:induction false} MaxStepBounds(b: Board, depth: int, i: nat, j: nat, maxEval: int, alpha: int, beta: int)
    requires i < 3 && j < 3 && At(b, i, j) == Empty
    requires 0 <= depth && depth + Count(b, Empty) <= 9
    requires maxEval <= 9 - depth
    ensures depth - 9 <= MaxScan(b, depth, i, j, maxEval, alpha, beta) <= 9 - depth
    decreases Count(b, Empty), 3 - i, 3 - j, 0
  {
    var next := Place(b, i, j, O);
    CountUpdate(b, 3 * i + j, O, Empty);
    var evalScore := MinimaxValue(next, depth + 1, false, alpha, beta);
    MinimaxBounds(next, depth + 1, false, alpha, beta);
    var alpha' := Max(alpha, evalScore);
    var m := Max(maxEval, evalScore);
    assert depth - 9 <= m <= 9 - depth;
    if beta <= alpha' {
      MaxScanBounds(b, depth, i + 1, 0, m, alpha', beta);
    } else {
      MaxScanBounds(b, depth, i, j + 1, m, alpha', beta);
    }
  }

  lemma {:induction false} MinScanBounds(b: Board, depth: int, i: nat, j: nat, minEval: int, alpha: int, beta: int)
    requires i <= 3 && j <= 3 && (i < 3 || j == 0)
    requires 0 <= depth && depth + Count(b, Empty) <= 9
    requires minEval >= depth - 9
    requires minEval <= 9 - depth || Empty in b[3 * i + j..]
    ensures depth - 9 <= MinScan(b, depth, i, j, minEval, alpha, beta) <= 9 - depth
    decreases Count(b, Empty), 3 - i, 3 - j, 1
  {
    if i == 3 {
      assert b[9..] == [];
    } else if j == 3 {
      assert 3 * (i + 1) + 0 == 3 * i + j;
      MinScanBounds(b, depth, i + 1, 0, minEval, alpha, beta);
    } else if At(b, i, j) != Empty {
      assert b[3 * i + j..] == [b[3 * i + j]] + b[3 * i + (j + 1)..];
      MinScanBounds(b, depth, i, j + 1, minEval, alpha, beta);
    } else {
      MinStepBounds(b, depth, i, j, minEval, alpha, beta);
    }
  }

  /** One trial move of the scan: the reply's score lies in range, so the running value stays in range. */
  lemma {:induction false} MinStepBounds(b: Board, depth: int, i: nat, j: nat, minEval: int, alpha: int, beta: int)
    requires i < 3 && j < 3 && At(b, i, j) == Empty
    requires 0 <= depth && depth + Count(b, Empty) <= 9
    requires minEval >= depth - 9
    ensures depth - 9 <= MinScan(b, depth, i, j, minEval, alpha, beta) <= 9 - depth
    decreases Count(b, Empty), 3 - i, 3 - j, 0
  {
    var next := Place(b, i, j, X);
    CountUpdate(b, 3 * i + j, X, Empty);
    var evalScore := MinimaxValue(next, depth + 1, true, alpha, beta);
    MinimaxBounds(next, depth + 1, true, alpha, beta);
    var beta' := Min(beta, evalScore);
    var m := Min(minEval, evalScore);
    assert depth - 9 <= m <= 9 - depth;
    if beta' <= alpha {
      MinScanBounds(b, depth, i + 1, 0, m, alpha, beta');
    } else {
      MinScanBounds(b, depth, i, j + 1, m, alpha, beta');
    }
  }

  /** A search started from depth 0 scores within [-10, 10], whatever the board. */
  lemma MinimaxRange(b: Board, isMaximizing: bool, alpha: int, beta: int)
    ensures -10 <= MinimaxValue(b, 0, isMaximizing, alpha, beta) <= 10
  {
    MinimaxBounds(b, 0, isMaximizing, alpha, beta);
  }

  /**
    `minimax`: the terminal checks, then the maximizing or the minimizing
    loops. Every trial symbol is written into the board and "-" written
    back, so the board is left exactly as it was found.
   */
  method Minimax(board: array<Cell>, depth: int, isMaximizing: bool, alpha: int, beta: int) returns (score: int)
    requires board.Length == 9
    modifies board
    ensures board[..] == old(board[..])
    ensures score == MinimaxValue(old(board[..]), depth, isMaximizing, alpha, beta)
    decreases Count(board[..], Empty), 1
  {
    ghost var b: Board := board[..];
    var winner := CheckWinner(board[..]);
    if winner == Some(O) {
      return 10 - depth;
    } else if winner == Some(X) {
      return depth - 10;
    } else if IsBoardFull(board[..]) {
      return 0;
    }
    if isMaximizing {
      ghost var target := MaxScan(b, depth, 0, 0, NegInf, alpha, beta);
      var maxEval := NegInf;
      var a := alpha;
      var i := 0;
      while i < 3
        invariant 0 <= i <= 3
        invariant board[..] == b
        invariant MaxScan(b, depth, i, 0, maxEval, a, beta) == target
      {
        var j := 0;
        while j < 3
          invariant 0 <= j <= 3
          invariant board[..] == b
          invariant MaxScan(b, depth, i, j, maxEval, a, beta) == target
        {
          if board[3 * i + j] == Empty {
            var evalScore := TryCell(board, i, j, O, depth + 1, false, a, beta);
            maxEval := Max(maxEval, evalScore);
            a := Max(a, evalScore);
            if beta <= a {
              break;
            }
          }
          j := j + 1;
        }
        i := i + 1;
      }
      score := maxEval;
    } else {
      ghost var target := MinScan(b, depth, 0, 0, PosInf, alpha, beta);
      var minEval := PosInf;
      var bt := beta;
      var i := 0;
      while i < 3
        invariant 0 <= i <= 3
        invariant board[..] == b
        invariant MinScan(b, depth, i, 0, minEval, alpha, bt) == target
      {
        var j := 0;
        while j < 3
          invariant 0 <= j <= 3
          invariant board[..] == b
          invariant MinScan(b, depth, i, j, minEval, alpha, bt) == target
        {
          if board[3 * i + j] == Empty {
            var evalScore := TryCell(board, i, j, X, depth + 1, true, alpha, bt);
            minEval := Min(minEval, evalScore);
            bt := Min(bt, evalScore);
            if bt <= alpha {
              break;
            }
          }
          j := j + 1;
        }
        i := i + 1;
      }
      score := minEval;
    }
  }

  /**
    One step of either minimax loop, and of get_ai_move's scoring loop:
    write `symbol` into the "-" cell (i, j), score the resulting board,
    write "-" back.
   */
  method TryCell(board: array<Cell>, i: int, j: int, symbol: Cell, depth: int, isMaximizing: bool, alpha: int, beta: int)
    returns (evalScore: int)
    requires board.Length == 9
    requires InRange(i, j) && board[3 * i + j] == Empty && symbol != Empty
    modifies board
    ensures board[..] == old(board[..])
    ensures evalScore == MinimaxValue(Place(old(board[..]), i, j, symbol), depth, isMaximizing, alpha, beta)
    decreases Count(board[..], Empty), 0
  {
    ghost var b: Board := board[..];
    CountUpdate(b, 3 * i + j, symbol, Empty);
    board[3 * i + j] := symbol;
    assert board[..] == Place(b, i, j, symbol);
    evalScore := Minimax(board, depth, isMaximizing, alpha, beta);
    board[3 * i + j] := Empty;
    assert board[..] == b;
  }

  /** The score get_ai_move gives a move: "O" placed there, then `minimax(board, 0, False)`. */
  function Score(b: Board, m: Move): int
    requires InRange(m.0, m.1)
  {
    MinimaxValue(Place(b, m.0, m.1, O), 0, false, NegInf, PosInf)
  }

  predicate AllInRange(moves: seq<Move>) {
    forall m :: m in moves ==> InRange(m.0, m.1)
  }

  /** The score of each move, in list order. */
  function Scores(b: Board, moves: seq<Move>): (scores: seq<int>)
    requires AllInRange(moves)
    ensures |scores| == |moves|
    ensures forall l :: 0 <= l < |moves| ==> scores[l] == Score(b, moves[l])
  {
    seq(|moves|, l requires 0 <= l < |moves| => Score(b, moves[l]))
  }

  /**
    The scoring loop of get_ai_move from index k on, with the running
    best_move and best_score: a move replaces the best only when its score
    is strictly higher. Gives the final (best_move, best_score).
   */
  function BestFrom(moves: seq<Move>, scores: seq<int>, k: nat, bestMove: Move, bestScore: int): (Move, int)
    requires |scores| == |moves| && k <= |moves|
    decreases |moves| - k
  {
    if k == |moves| then (bestMove, bestScore)
    else if scores[k] > bestScore then BestFrom(moves, scores, k + 1, moves[k], scores[k])
    else BestFrom(moves, scores, k + 1, bestMove, bestScore)
  }

  /** The move the scoring loop returns, starting from `available_moves[0]` and -infinity. */
  function OptimalMove(b: Board, moves: seq<Move>): Move
    requires |moves| > 0 && AllInRange(moves)
  {
    BestFrom(moves, Scores(b, moves), 0, moves[0], NegInf).0
  }

  /**
    `get_ai_move`: None when no cell is "-"; "easy" takes the random move
    `pick`; "medium" takes the best move when `coin` holds (the source's
    `random.random() < 0.7`) and the random move otherwise; any other
    difficulty takes the best move.
   */
  function AiMoveChoice(b: Board, difficulty: string, pick: nat, coin: bool): Option<Move> {
    var moves := AvailableMoves(b);
    AvailableMovesCorrect(b);
    if moves == [] then None
    else if difficulty == "easy" then Some(moves[pick % |moves|])
    else if difficulty == "medium" && !coin then Some(moves[pick % |moves|])
    else Some(OptimalMove(b, moves))
  }

  /** Every move scores within [-10, 10], so the first move always beats the initial -infinity. */
  lemma ScoreRange(b: Board, m: Move)
    requires InRange(m.0, m.1)
    ensures -10 <= Score(b, m) <= 10
  {
    MinimaxRange(Place(b, m.0, m.1, O), false, NegInf, PosInf);
  }

  /**
    The scan keeps the first move of highest score: once at least one move
    has been scored and the running best is moves[bi], the result is some
    moves[idx] scoring at least every move, and strictly more than every
    move before it.
   */
  lemma {:induction false} BestFromFirstArgmax(moves: seq<Move>, scores: seq<int>, k: nat, bi: nat) returns (idx: nat)
    requires |scores| == |moves| && 0 < k <= |moves| && bi < k
    requires forall l :: 0 <= l < k ==> scores[l] <= scores[bi]
    requires forall l :: 0 <= l < bi ==> scores[l] < scores[bi]
    ensures idx < |moves| && BestFrom(moves, scores, k, moves[bi], scores[bi]) == (moves[idx], scores[idx])
    ensures forall l :: 0 <= l < |moves| ==> scores[l] <= scores[idx]
    ensures forall l :: 0 <= l < idx ==> scores[l] < scores[idx]
    decreases |moves| - k
  {
    if k == |moves| {
      idx := bi;
    } else if scores[k] > scores[bi] {
      idx := BestFromFirstArgmax(moves, scores, k + 1, k);
    } else {
      idx := BestFromFirstArgmax(moves, scores, k + 1, bi);
    }
  }

  /** From the start, with -infinity below every score, the scan ends on the first highest score. */
  lemma BestFromStart(moves: seq<Move>, scores: seq<int>) returns (idx: nat)
    requires |scores| == |moves| > 0
    requires forall l :: 0 <= l < |scores| ==> scores[l] > NegInf
    ensures idx < |moves| && BestFrom(moves, scores, 0, moves[0], NegInf).0 == moves[idx]
    ensures forall l :: 0 <= l < |moves| ==> scores[l] <= scores[idx]
    ensures forall l :: 0 <= l < idx ==> scores[l] < scores[idx]
  {
    assert BestFrom(moves, scores, 0, moves[0], NegInf) == BestFrom(moves, scores, 1, moves[0], scores[0]);
    idx := BestFromFirstArgmax(moves, scores, 1, 0);
  }

  /**
    The best move is the first of the moves of highest score: it scores at
    least as much as every move in the list and strictly more than every
    move listed before it.
   */
  lemma OptimalMoveIsFirstBest(b: Board, moves: seq<Move>) returns (idx: nat)
    requires |moves| > 0 && AllInRange(moves)
    ensures idx < |moves| && OptimalMove(b, moves) == moves[idx]
    ensures forall l :: 0 <= l < |moves| ==> Score(b, moves[l]) <= Score(b, moves[idx])
    ensures forall l :: 0 <= l < idx ==> Score(b, moves[l]) < Score(b, moves[idx])
  {
    var scores := Scores(b, moves);
    forall l | 0 <= l < |scores| ensures scores[l] > NegInf {
      assert moves[l] in moves;
      ScoreRange(b, moves[l]);
    }
    idx := BestFromStart(moves, scores);
    forall l | 0 <= l < |moves|
      ensures Score(b, moves[l]) <= Score(b, moves[idx])
      ensures l < idx ==> Score(b, moves[l]) < Score(b, moves[idx])
    {
      assert scores[l] == Score(b, moves[l]) && scores[idx] == Score(b, moves[idx]);
    }
  }

  /** get_ai_move returns None exactly when the board is full, and otherwise a move onto a "-" cell. */
  lemma AiMoveLegal(b: Board, difficulty: string, pick: nat, coin: bool)
    ensures AiMoveChoice(b, difficulty, pick, coin).None? <==> IsBoardFull(b)
    ensures AiMoveChoice(b, difficulty, pick, coin).Some? ==>
              var m := AiMoveChoice(b, difficulty, pick, coin).value;
              InRange(m.0, m.1) && At(b, m.0, m.1) == Empty
  {
    AvailableMovesCorrect(b);
    FullIffNoMoves(b);
    var moves := AvailableMoves(b);
    if moves != [] {
      var idx := OptimalMoveIsFirstBest(b, moves);
      assert moves[pick % |moves|] in moves;
      assert moves[idx] in moves;
    }
  }

  /** In a row-major list a smaller key sits at a smaller index. */
  lemma RowMajorIndexOrder(moves: seq<Move>, p: nat, q: nat)
    requires RowMajor(moves) && p < |moves| && q < |moves|
    requires Key(moves[p]) < Key(moves[q])
    ensures p < q
  {
  }

  /**
    Any difficulty other than "easy", and "medium" when the coin says so,
    plays a best move: no "-" cell scores higher, and every "-" cell before
    it in row-major order scores strictly lower.
   */
  lemma AiMoveIsBest(b: Board, difficulty: string, pick: nat, coin: bool)
    requires !IsBoardFull(b)
    requires difficulty != "easy" && (difficulty == "medium" ==> coin)
    ensures AiMoveChoice(b, difficulty, pick, coin).Some?
    ensures var m := AiMoveChoice(b, difficulty, pick, coin).value;
            InRange(m.0, m.1) && At(b, m.0, m.1) == Empty &&
            (forall r, c :: InRange(r, c) && At(b, r, c) == Empty ==> Score(b, (r, c)) <= Score(b, m)) &&
            (forall r, c :: InRange(r, c) && At(b, r, c) == Empty && Key((r, c)) < Key(m) ==> Score(b, (r, c)) < Score(b, m))
  {
    AvailableMovesCorrect(b);
    FullIffNoMoves(b);
    var moves := AvailableMoves(b);
    var idx := OptimalMoveIsFirstBest(b, moves);
    assert moves[idx] in moves;
    var m := moves[idx];
    forall r, c | InRange(r, c) && At(b, r, c) == Empty
      ensures Score(b, (r, c)) <= Score(b, m)
      ensures Key((r, c)) < Key(m) ==> Score(b, (r, c)) < Score(b, m)
    {
      assert (r, c) in moves;
      var l :| 0 <= l < |moves| && moves[l] == (r, c);
      if Key((r, c)) < Key(m) {
        RowMajorIndexOrder(moves, l, idx);
      }
    }
  }

  /**
    When some "-" cell completes a line for "O", the best move completes a
    line for "O" too: such a move scores 10, and every other move at most 9.
   */
  lemma BestMoveTakesWin(b: Board, difficulty: string, pick: nat, coin: bool, row: int, col: int)
    requires InRange(row, col) && At(b, row, col) == Empty
    requires CheckWinner(Place(b, row, col, O)) == Some(O)
    requires difficulty != "easy" && (difficulty == "medium" ==> coin)
    ensures AiMoveChoice(b, difficulty, pick, coin).Some?
    ensures var m := AiMoveChoice(b, difficulty, pick, coin).value;
            InRange(m.0, m.1) && CheckWinner(Place(b, m.0, m.1, O)) == Some(O)
  {
    assert !IsBoardFull(b) by { assert b[3 * row + col] == Empty; }
    AiMoveIsBest(b, difficulty, pick, coin);
    var m := AiMoveChoice(b, difficulty, pick, coin).value;
    assert Score(b, (row, col)) == 10;
    TopScoreIsWin(b, m);
  }

  /** Only a move that completes a line for "O" scores 10: without a winner the score is at most 9, after an "X" line it is -10. */
  lemma TopScoreIsWin(b: Board, m: Move)
    requires InRange(m.0, m.1) && Score(b, m) >= 10
    ensures CheckWinner(Place(b, m.0, m.1, O)) == Some(O)
  {
    var after := Place(b, m.0, m.1, O);
    MinimaxBounds(after, 0, false, NegInf, PosInf);
    assert CheckWinner(after) != Some(X);
  }


  /** "X" holds (0, 0) and (0, 1), "O" holds (1, 0); "O" is to move. */
  const ThreatBoard: Board := [X, X, Empty, O, Empty, Empty, Empty, Empty, Empty]

  /**
    With "X" on (0, 0) and (0, 1), (0, 2) free and no line yet, "X" to
    move completes the top row on the first cell its scan tries, so the
    position scores at most -9.
   */
  lemma ThreatCompletes(b: Board)
    requires b[0] == X && b[1] == X && b[2] == Empty
    requires !HasLine(b, X) && !HasLine(b, O)
    ensures MinimaxValue(b, 0, false, NegInf, PosInf) <= -9
  {
    assert CheckWinner(b).None? && !IsBoardFull(b);
    var reply := Place(b, 0, 2, X);
    assert RowWinner(reply, 0) == Some(X);
    assert MinimaxValue(reply, 1, true, NegInf, PosInf) == -9;
    calc {
      MinimaxValue(b, 0, false, NegInf, PosInf);
      MinScan(b, 0, 0, 0, PosInf, NegInf, PosInf);
      MinScan(b, 0, 0, 1, PosInf, NegInf, PosInf);
      MinScan(b, 0, 0, 2, PosInf, NegInf, PosInf);
      MinScan(b, 0, 0, 3, -9, NegInf, -9);
    }
    MinScanAtMost(b, 0, 0, 3, -9, NegInf, -9);
  }

  /** On ThreatBoard, any "O" move other than (0, 2) lets "X" complete the top row at once: it scores at most -9. */
  lemma UnblockedThreatLoses(row: int, col: int)
    requires InRange(row, col) && At(ThreatBoard, row, col) == Empty && (row, col) != (0, 2)
    ensures Score(ThreatBoard, (row, col)) <= -9
  {
    var after := Place(ThreatBoard, row, col, O);
    assert after[0] == X && after[1] == X && after[2] == Empty && after[3] == O;
    assert !HasLine(after, X) && !HasLine(after, O);
    ThreatCompletes(after);
  }

  /** On ThreatBoard the best move blocks the top row at (0, 2), whatever the random inputs. */
  lemma BestMoveBlocksThreat(pick: nat, coin: bool)
    ensures AiMoveChoice(ThreatBoard, "hard", pick, coin) == Some((0, 2))
    ensures coin ==> AiMoveChoice(ThreatBoard, "medium", pick, coin) == Some((0, 2))
  {
    var b := ThreatBoard;
    BlockScoresAtLeast();
    forall r, c | InRange(r, c) && At(b, r, c) == Empty && (r, c) != (0, 2)
      ensures Score(b, (r, c)) <= -9
    {
      UnblockedThreatLoses(r, c);
    }
    BlockIsChosen(b, "hard", pick, coin);
    if coin {
      BlockIsChosen(b, "medium", pick, coin);
    }
  }

  /** Blocking at (0, 2) leaves no line, so that move scores at least -9. */
  lemma BlockScoresAtLeast()
    ensures Score(ThreatBoard, (0, 2)) >= -9
  {
    var block := Place(ThreatBoard, 0, 2, O);
    assert block == [X, X, O, O, Empty, Empty, Empty, Empty, Empty];
    assert !HasLine(block, X) && !HasLine(block, O);
    MinimaxBounds(block, 0, false, NegInf, PosInf);
  }

  /**
    When (0, 2) is the first "-" cell, scores at least -9, and every other
    "-" cell scores at most -9, the best move is (0, 2).
   */
  lemma BlockIsChosen(b: Board, difficulty: string, pick: nat, coin: bool)
    requires b[0] != Empty && b[1] != Empty && b[2] == Empty
    requires Score(b, (0, 2)) >= -9
    requires forall r, c :: InRange(r, c) && At(b, r, c) == Empty && (r, c) != (0, 2) ==> Score(b, (r, c)) <= -9
    requires difficulty != "easy" && (difficulty == "medium" ==> coin)
    ensures AiMoveChoice(b, difficulty, pick, coin) == Some((0, 2))
  {
    assert !IsBoardFull(b);
    AiMoveIsBest(b, difficulty, pick, coin);
    var m := AiMoveChoice(b, difficulty, pick, coin).value;
    if m != (0, 2) {
      assert false;
    }
  }

  /**
    The scoring loop of get_ai_move over `moves`, trying each with TryCell;
    the board is restored and the first best move returned.
   */
  method SearchBestMove(board: array<Cell>, moves: seq<Move>) returns (bestMove: Move)
    requires board.Length == 9
    requires |moves| > 0 && AllLegal(board[..], moves)
    modifies board
    ensures board[..] == old(board[..])
    ensures bestMove == OptimalMove(old(board[..]), moves)
  {
    ghost var b: Board := board[..];
    ghost var scores := Scores(b, moves);
    var bestScore := NegInf;
    bestMove := moves[0];
    for k := 0 to |moves|
      invariant board[..] == b
      invariant BestFrom(moves, scores, k, bestMove, bestScore) == BestFrom(moves, scores, 0, moves[0], NegInf)
    {
      var m := moves[k];
      assert m in moves;
      assert board[3 * m.0 + m.1] == At(b, m.0, m.1);
      var score := TryCell(board, m.0, m.1, O, 0, false, NegInf, PosInf);
      assert score == scores[k];
      if score > bestScore {
        bestScore := score;
        bestMove := m;
      }
    }
  }

  /** `get_ai_move`, with `random.choice` as index `pick` and `random.random() < 0.7` as `coin`. */
  method GetAiMove(board: array<Cell>, difficulty: string, pick: nat, coin: bool) returns (move: Option<Move>)
    requires board.Length == 9
    modifies board
    ensures board[..] == old(board[..])
    ensures move == AiMoveChoice(old(board[..]), difficulty, pick, coin)
  {
    var moves := GetAvailableMoves(board);
    if moves == [] {
      return None;
    }
    if difficulty == "easy" || (difficulty == "medium" && !coin) {
      return Some(moves[pick % |moves|]);
    }
    var best := SearchBestMove(board, moves);
    return Some(best);
  }

  /** The reply of the `/api/ai-move` endpoint. */
  datatype AiReply = MoveAt(row: int, col: int) | NoMovesAvailable

  /** `make_ai_move`: the chosen move as row and column, or the "No moves available" error. */
  function AiReplyFor(b: Board, difficulty: string, pick: nat, coin: bool): (reply: AiReply)
    ensures reply.NoMovesAvailable? <==> IsBoardFull(b)
    ensures reply.MoveAt? ==> InRange(reply.row, reply.col) && At(b, reply.row, reply.col) == Empty
  {
    AiMoveLegal(b, difficulty, pick, coin);
    match AiMoveChoice(b, difficulty, pick, coin)
    case Some(m) => MoveAt(m.0, m.1)
    case None => NoMovesAvailable
  }
}
