/**
  The single-player component of the web client
  (frontend/src/components/SinglePlayerGame.js): its own `checkWinner` and
  `isBoardFull`, and the state machine that `makeMove`, the AI reply,
  `resetGame` and `resetScore` drive over the component's fields. The
  request to the server is an output of MakeMove and the server's reply an
  input of ReceiveAiMove.
 */
module SinglePlayer {
  import opened Board
  import Server

  /** The `for (let row of board)` loop of checkWinner, from row r on; it tests the first cell against '-'. */
  function RowWinner(b: Board, r: nat): (w: Option<Cell>)
    requires r <= 3
    ensures w.Some? ==> w.value != Empty && HasLine(b, w.value)
    ensures w.None? && r == 0 ==> forall c :: c != Empty ==> !Line(b, 0, 1, 2, c) && !Line(b, 3, 4, 5, c) && !Line(b, 6, 7, 8, c)
    decreases 3 - r
  {
    if r == 3 then None
    else if At(b, r, 0) == At(b, r, 1) && At(b, r, 1) == At(b, r, 2) && At(b, r, 0) != Empty then Some(At(b, r, 0))
    else RowWinner(b, r + 1)
  }

  /** The column loop of checkWinner, from column c on. */
  function ColWinner(b: Board, c: nat): (w: Option<Cell>)
    requires c <= 3
    ensures w.Some? ==> w.value != Empty && HasLine(b, w.value)
    ensures w.None? && c == 0 ==> forall s :: s != Empty ==> !Line(b, 0, 3, 6, s) && !Line(b, 1, 4, 7, s) && !Line(b, 2, 5, 8, s)
    decreases 3 - c
  {
    if c == 3 then None
    else if At(b, 0, c) == At(b, 1, c) && At(b, 1, c) == At(b, 2, c) && At(b, 0, c) != Empty then Some(At(b, 0, c))
    else ColWinner(b, c + 1)
  }

  /** `checkWinner`: rows, columns, then the diagonals; the symbol of the first full line, null otherwise. */
  function CheckWinner(b: Board): (w: Option<Cell>)
    ensures w.Some? ==> w.value != Empty && HasLine(b, w.value)
    ensures w.None? <==> !HasLine(b, X) && !HasLine(b, O)
  {
    var rows := RowWinner(b, 0);
    if rows.Some? then rows
    else
      var cols := ColWinner(b, 0);
      if cols.Some? then cols
      else if At(b, 0, 0) == At(b, 1, 1) && At(b, 1, 1) == At(b, 2, 2) && At(b, 0, 0) != Empty then Some(At(b, 0, 0))
      else if At(b, 0, 2) == At(b, 1, 1) && At(b, 1, 1) == At(b, 2, 0) && At(b, 0, 2) != Empty then Some(At(b, 0, 2))
      else None
  }

  /** The client and the server name the same winner on every board. */
  lemma CheckWinnerAgreesWithServer(b: Board)
    ensures CheckWinner(b) == Server.CheckWinner(b)
  {
    assert RowWinner(b, 0) == Server.RowWinner(b, 0) by {
      assert RowWinner(b, 2) == Server.RowWinner(b, 2);
      assert RowWinner(b, 1) == Server.RowWinner(b, 1);
    }
    assert ColWinner(b, 0) == Server.ColWinner(b, 0) by {
      assert ColWinner(b, 2) == Server.ColWinner(b, 2);
      assert ColWinner(b, 1) == Server.ColWinner(b, 1);
    }
  }

  /** The `row.includes('-')` loop of isBoardFull, from row r on. */
  function RowsFull(b: Board, r: nat): (full: bool)
    requires r <= 3
    ensures full <==> Empty !in b[3 * r..]
    decreases 3 - r
  {
    if r == 3 then true
    else if Empty in b[3 * r..3 * r + 3] then false
    else
      assert b[3 * r..] == b[3 * r..3 * r + 3] + b[3 * (r + 1)..];
      RowsFull(b, r + 1)
  }

  /** `isBoardFull`: no row contains '-'. */
  function IsBoardFull(b: Board): (full: bool)
    ensures full <==> Empty !in b
  {
    assert b[3 * 0..] == b;
    RowsFull(b, 0)
  }

  /** The client and the server agree on whether a board is full. */
  lemma IsBoardFullAgreesWithServer(b: Board)
    ensures IsBoardFull(b) == Server.IsBoardFull(b)
  {
  }

  /** The `score` object: games won by the player, by the AI, and drawn. */
  datatype Score = Score(player: nat, ai: nat, draws: nat)

  function Total(s: Score): nat {
    s.player + s.ai + s.draws
  }

  /** The component's state: the values of its state hooks. */
  datatype GameView = GameView(
    board: Board, currentPlayer: Cell, gameOver: bool, winner: Option<Cell>,
    isDraw: bool, isAIThinking: bool, score: Score)

  /** The state the hooks start from: empty board, 'X' to move, no games counted. */
  const InitialView: GameView := GameView(EmptyBoard, X, false, None, false, false, Score(0, 0, 0))

  /** The score after a game won by `w`: the player's counter for 'X', the AI's otherwise. */
  function Credit(s: Score, w: Cell): (r: Score)
    ensures Total(r) == Total(s) + 1 && r.draws == s.draws
    ensures w == X ==> r.player == s.player + 1 && r.ai == s.ai
    ensures w != X ==> r.ai == s.ai + 1 && r.player == s.player
  {
    if w == X then s.(player := s.player + 1) else s.(ai := s.ai + 1)
  }

  /** How a board stands for the component: a win (checked first), a draw, or a game still on. */
  datatype Outcome = Won(symbol: Cell) | Drawn | Ongoing

  function OutcomeOf(b: Board): (o: Outcome)
    ensures o.Won? <==> HasLine(b, X) || HasLine(b, O)
    ensures o.Won? ==> o.symbol != Empty && HasLine(b, o.symbol)
    ensures o.Drawn? <==> !HasLine(b, X) && !HasLine(b, O) && Empty !in b
  {
    var w := CheckWinner(b);
    if w.Some? then Won(w.value) else if IsBoardFull(b) then Drawn else Ongoing
  }

  /** The hooks set when board `b` ends the game: the winner or the draw, game over, one counter up. */
  function Finish(v: GameView, b: Board, o: Outcome): GameView
    requires !o.Ongoing?
  {
    match o
    case Won(w) => v.(board := b, winner := Some(w), gameOver := true, score := Credit(v.score, w))
    case Drawn => v.(board := b, isDraw := true, gameOver := true, score := v.score.(draws := v.score.draws + 1))
  }

  /** Whether makeMove takes a click: the cell is '-', the game is on, it is not 'O''s turn and the AI is idle. */
  predicate Accepts(v: GameView, row: int, col: int)
    requires InRange(row, col)
  {
    At(v.board, row, col) == Empty && !v.gameOver && v.currentPlayer != O && !v.isAIThinking
  }

  /**
    `makeMove(row, col)`: 'X' is written into a copy of the board; a win or
    a full board ends the game, otherwise 'O' is to move, the AI is
    thinking, and the new board is the request sent to the server.
   */
  function HumanMove(v: GameView, row: int, col: int): (r: (GameView, Option<Board>))
    requires InRange(row, col)
    ensures !Accepts(v, row, col) ==> r == (v, None)
    ensures Accepts(v, row, col) ==> r.0.board == Place(v.board, row, col, X)
    ensures r.1.Some? <==> Accepts(v, row, col) && OutcomeOf(Place(v.board, row, col, X)).Ongoing?
    ensures r.1.Some? ==> r.1.value == r.0.board && r.0.isAIThinking && r.0.currentPlayer == O
    ensures r.1.Some? ==>
              r.0.winner == v.winner && r.0.gameOver == v.gameOver && r.0.isDraw == v.isDraw && r.0.score == v.score
    ensures Accepts(v, row, col) && !OutcomeOf(Place(v.board, row, col, X)).Ongoing? ==>
              r.0.currentPlayer == v.currentPlayer && r.0.isAIThinking == v.isAIThinking &&
              (OutcomeOf(Place(v.board, row, col, X)).Won? ==> r.0.isDraw == v.isDraw)
  {
    if !Accepts(v, row, col) then (v, None)
    else
      var newBoard := Place(v.board, row, col, X);
      var o := OutcomeOf(newBoard);
      if o.Ongoing? then (v.(board := newBoard, currentPlayer := O, isAIThinking := true), Some(newBoard))
      else (Finish(v, newBoard, o), None)
  }

  /**
    The reply callback: with a cell from the server, 'O' is written into a
    copy of the board that was sent (not the current one) and the result
    settled, 'X' moving next if the game goes on; without one, only the
    thinking flag drops. The flag drops in every case.
   */
  function AiReply(v: GameView, sent: Board, reply: Option<Move>): (r: GameView)
    requires reply.Some? ==> InRange(reply.value.0, reply.value.1)
    ensures !r.isAIThinking
    ensures reply.None? ==> r == v.(isAIThinking := false)
    ensures reply.Some? ==> r.board == Place(sent, reply.value.0, reply.value.1, O)
    ensures r.currentPlayer ==
            (if reply.Some? && OutcomeOf(Place(sent, reply.value.0, reply.value.1, O)).Ongoing? then X else v.currentPlayer)
    ensures reply.Some? ==>
              var o := OutcomeOf(Place(sent, reply.value.0, reply.value.1, O));
              (o.Won? ==> r.gameOver && r.winner == Some(o.symbol) && r.isDraw == v.isDraw &&
                          r.score == Credit(v.score, o.symbol)) &&
              (o.Drawn? ==> r.gameOver && r.isDraw && r.winner == v.winner &&
                            r.score == v.score.(draws := v.score.draws + 1)) &&
              (o.Ongoing? ==> r.winner == v.winner && r.gameOver == v.gameOver && r.isDraw == v.isDraw &&
                              r.score == v.score)
  {
    match reply
    case None => v.(isAIThinking := false)
    case Some(m) =>
      var aiBoard := Place(sent, m.0, m.1, O);
      var o := OutcomeOf(aiBoard);
      if o.Ongoing? then v.(board := aiBoard, currentPlayer := X, isAIThinking := false)
      else Finish(v, aiBoard, o).(isAIThinking := false)
  }

  /** `resetGame`: empty board, 'X' to move, nothing decided, the AI idle; the score is kept. */
  function Reset(v: GameView): (r: GameView)
    ensures r == InitialView.(score := v.score)
  {
    v.(board := EmptyBoard, currentPlayer := X, gameOver := false, winner := None, isDraw := false, isAIThinking := false)
  }

  /** `resetScore`: all three counters to 0, then resetGame. */
  function ResetScores(v: GameView): (r: GameView)
    ensures r == InitialView
  {
    Reset(v.(score := Score(0, 0, 0)))
  }

  /**
    What holds of the component's state between events: someone is to
    move; the game is over exactly when it has a winner or is drawn; the AI
    thinks only on 'O''s turn of a game in progress.
   */
  predicate ViewValid(v: GameView) {
    v.currentPlayer != Empty &&
    (v.gameOver <==> v.winner.Some? || v.isDraw) &&
    (v.winner.Some? ==> v.winner.value != Empty) &&
    (v.isAIThinking ==> v.currentPlayer == O && !v.gameOver)
  }

  lemma InitialValid()
    ensures ViewValid(InitialView)
  {
  }

  /** Every event keeps the component's state valid. */
  lemma HumanMoveKeepsValid(v: GameView, row: int, col: int)
    requires InRange(row, col) && ViewValid(v)
    ensures ViewValid(HumanMove(v, row, col).0)
  {
  }

  lemma AiReplyKeepsValid(v: GameView, sent: Board, reply: Option<Move>)
    requires reply.Some? ==> InRange(reply.value.0, reply.value.1)
    requires ViewValid(v)
    ensures ViewValid(AiReply(v, sent, reply))
  {
  }

  lemma ResetKeepsValid(v: GameView)
    ensures ViewValid(Reset(v)) && ViewValid(ResetScores(v))
  {
  }

  /**
    A click that ends the game raises exactly one counter — the player's
    for an 'X' line, the draws for a full board — and consults no AI; any
    other click leaves the score alone.
   */
  lemma HumanMoveScores(v: GameView, row: int, col: int)
    requires InRange(row, col)
    ensures var r := HumanMove(v, row, col).0;
            Total(r.score) == Total(v.score) + (if r.gameOver && !v.gameOver then 1 else 0) &&
            r.score.player >= v.score.player && r.score.ai >= v.score.ai && r.score.draws >= v.score.draws
    ensures HumanMove(v, row, col).0.gameOver && !v.gameOver ==> HumanMove(v, row, col).1.None?
    ensures Accepts(v, row, col) && !OutcomeOf(Place(v.board, row, col, X)).Ongoing? ==>
              var r := HumanMove(v, row, col);
              var o := OutcomeOf(Place(v.board, row, col, X));
              r.0.gameOver && r.1.None? &&
              (o.Won? ==> r.0.winner == Some(o.symbol) && r.0.score == Credit(v.score, o.symbol)) &&
              (o.Drawn? ==> r.0.isDraw && r.0.winner == v.winner &&
                            r.0.score == v.score.(draws := v.score.draws + 1))
  {
  }

  /** A reply that ends the game raises exactly one counter; any other reply leaves the score alone. */
  lemma AiReplyScores(v: GameView, sent: Board, reply: Option<Move>)
    requires reply.Some? ==> InRange(reply.value.0, reply.value.1)
    ensures var r := AiReply(v, sent, reply);
            var ends := reply.Some? && !OutcomeOf(Place(sent, reply.value.0, reply.value.1, O)).Ongoing?;
            Total(r.score) == Total(v.score) + (if ends then 1 else 0) &&
            r.score.player >= v.score.player && r.score.ai >= v.score.ai && r.score.draws >= v.score.draws
  {
  }

  /**
    A win is checked before a draw: when the player's ninth mark completes
    a line on a board where 'O' has none, the player wins, the game is not
    a draw, and the player's counter goes up.
   */
  lemma WinBeatsDraw(v: GameView, row: int, col: int)
    requires InRange(row, col) && ViewValid(v) && Accepts(v, row, col)
    requires !HasLine(v.board, O)
    requires HasLine(Place(v.board, row, col, X), X)
    ensures var r := HumanMove(v, row, col).0;
            r.gameOver && r.winner == Some(X) && !r.isDraw && r.score.player == v.score.player + 1
  {
    var b := Place(v.board, row, col, X);
    PlaceKeepsOtherLines(v.board, row, col, X, O);
    assert CheckWinner(b) == Some(X);
  }

  /** HumanMove on an accepted click, written as the settings makeMove makes on each of its three paths. */
  lemma HumanMoveSteps(v: GameView, row: int, col: int)
    requires InRange(row, col) && Accepts(v, row, col)
    ensures var nb := Place(v.board, row, col, X);
            CheckWinner(nb).Some? ==>
              HumanMove(v, row, col) ==
              (v.(board := nb, winner := CheckWinner(nb), gameOver := true, score := Credit(v.score, CheckWinner(nb).value)), None)
    ensures var nb := Place(v.board, row, col, X);
            CheckWinner(nb).None? && IsBoardFull(nb) ==>
              HumanMove(v, row, col) ==
              (v.(board := nb, isDraw := true, gameOver := true, score := v.score.(draws := v.score.draws + 1)), None)
    ensures var nb := Place(v.board, row, col, X);
            CheckWinner(nb).None? && !IsBoardFull(nb) ==>
              HumanMove(v, row, col) == (v.(board := nb, currentPlayer := O, isAIThinking := true), Some(nb))
  {
  }

  /**
    The component's state hooks. A setter call is an assignment to a
    field; the board is never changed in place, only replaced by a copy.
   */
  class SinglePlayerGame {
    var board: Board
    var currentPlayer: Cell
    var gameOver: bool
    var winner: Option<Cell>
    var isDraw: bool
    var isAIThinking: bool
    var score: Score

    function View(): GameView
      reads this
    {
      GameView(board, currentPlayer, gameOver, winner, isDraw, isAIThinking, score)
    }

    /** The initial values of the `useState` hooks. */
    constructor ()
      ensures View() == InitialView
    {
      board := EmptyBoard;
      currentPlayer := X;
      gameOver := false;
      winner := None;
      isDraw := false;
      isAIThinking := false;
      score := Score(0, 0, 0);
    }

    /** `makeMove(row, col)`; the board it returns is the one posted to the AI endpoint. */
    method MakeMove(row: int, col: int) returns (request: Option<Board>)
      requires InRange(row, col)
      modifies this
      ensures View() == HumanMove(old(View()), row, col).0
      ensures request == HumanMove(old(View()), row, col).1
    {
      ghost var v := View();
      if At(board, row, col) != Empty || gameOver || currentPlayer == O || isAIThinking {
        return None;
      }
      var newBoard := Place(board, row, col, X);
      board := newBoard;
      var w := CheckWinner(newBoard);
      var boardFull := IsBoardFull(newBoard);
      HumanMoveSteps(v, row, col);
      if w.Some? {
        winner := w;
        gameOver := true;
        score := Credit(score, w.value);
        return None;
      }
      if boardFull {
        isDraw := true;
        gameOver := true;
        score := score.(draws := score.draws + 1);
        return None;
      }
      currentPlayer := O;
      isAIThinking := true;
      return Some(newBoard);
    }

    /** The callback run when the AI endpoint answers the request `sent` with `reply`. */
    method ReceiveAiMove(sent: Board, reply: Option<Move>)
      requires reply.Some? ==> InRange(reply.value.0, reply.value.1)
      modifies this
      ensures View() == AiReply(old(View()), sent, reply)
    {
      if reply.Some? {
        var aiBoard := Place(sent, reply.value.0, reply.value.1, O);
        board := aiBoard;
        var aiWinner := CheckWinner(aiBoard);
        var aiBoardFull := IsBoardFull(aiBoard);
        if aiWinner.Some? {
          winner := aiWinner;
          gameOver := true;
          score := Credit(score, aiWinner.value);
        } else if aiBoardFull {
          isDraw := true;
          gameOver := true;
          score := score.(draws := score.draws + 1);
        } else {
          currentPlayer := X;
        }
      }
      isAIThinking := false;
    }

    /** `resetGame`. */
    method ResetGame()
      modifies this
      ensures View() == Reset(old(View()))
    {
      board := EmptyBoard;
      currentPlayer := X;
      gameOver := false;
      winner := None;
      isDraw := false;
      isAIThinking := false;
    }

    /** `resetScore`. */
    method ResetScore()
      modifies this
      ensures View() == ResetScores(old(View()))
    {
      score := Score(0, 0, 0);
      ResetGame();
    }
  }
}
