/**
  The single-page version of the game (script.js): the module-level
  `gameStatus` array, the `turn` flag and the `counter` of marks, updated
  by the click handler `placeCellValue` and cleared by `resetGame`. A click
  is given as the (row, col) of the cell clicked, and the alert it raises
  as an outcome. A cell shows no text exactly when its `gameStatus` entry
  is "-".
 */
module Legacy {
  import opened Board

  /** The page's state as a value: the board, whose turn (`true` for "O"), and the marks counted. */
  datatype PageState = PageState(gameStatus: Board, turn: bool, counter: int)

  /** What a click leads to: nothing, a mark, a win alert, or the "Cat's Game" alert. */
  datatype ClickOutcome = Ignored | Placed | Won(symbol: Cell) | CatsGame

  /** The state resetGame leaves: nine "-" cells, "X" to move, no marks. */
  const Cleared: PageState := PageState(EmptyBoard, false, 0)

  /** The symbol the next click writes: "O" when `turn` holds, "X" otherwise. */
  function Mark(turn: bool): (v: Cell)
    ensures v != Empty
  {
    if turn then O else X
  }

  /**
    `placeCellValue` on cell (row, col): a filled cell is ignored; otherwise
    the mark is written, the turn flips and the counter goes up; a line of
    that mark, and failing that a ninth mark, resets the page.
   */
  function Click(ps: PageState, row: int, col: int): (r: (PageState, ClickOutcome))
    requires InRange(row, col)
    ensures r.1 == Ignored <==> At(ps.gameStatus, row, col) != Empty
    ensures r.1 == Ignored ==> r.0 == ps
    ensures r.1.Won? ==> r.1.symbol == Mark(ps.turn) && HasLine(Place(ps.gameStatus, row, col, Mark(ps.turn)), r.1.symbol)
    ensures r.1.Won? || r.1 == CatsGame ==> r.0 == Cleared
    ensures r.1 == Placed ==>
              r.0 == PageState(Place(ps.gameStatus, row, col, Mark(ps.turn)), !ps.turn, ps.counter + 1)
    ensures At(ps.gameStatus, row, col) == Empty ==>
              (r.1.Won? <==> HasLine(Place(ps.gameStatus, row, col, Mark(ps.turn)), Mark(ps.turn)))
    ensures r.1 == CatsGame <==>
              At(ps.gameStatus, row, col) == Empty &&
              !HasLine(Place(ps.gameStatus, row, col, Mark(ps.turn)), Mark(ps.turn)) && ps.counter + 1 == 9
    ensures r.1 == Placed <==>
              At(ps.gameStatus, row, col) == Empty &&
              !HasLine(Place(ps.gameStatus, row, col, Mark(ps.turn)), Mark(ps.turn)) && ps.counter + 1 != 9
  {
    if At(ps.gameStatus, row, col) != Empty then (ps, Ignored)
    else
      var value := Mark(ps.turn);
      var placed := Place(ps.gameStatus, row, col, value);
      if HasLine(placed, value) then (Cleared, Won(value))
      else if ps.counter + 1 == 9 then (Cleared, CatsGame)
      else (PageState(placed, !ps.turn, ps.counter + 1), Placed)
  }

  /**
    What holds between clicks: the counter is the number of marks since the
    last reset and stays below 9; "X" and "O" have alternated starting with
    "X", so `turn` says whether the count is odd; nobody has a line.
   */
  predicate PageValid(ps: PageState) {
    0 <= ps.counter < 9 &&
    Count(ps.gameStatus, X) == (ps.counter + 1) / 2 &&
    Count(ps.gameStatus, O) == ps.counter / 2 &&
    ps.turn == (ps.counter % 2 == 1) &&
    !HasLine(ps.gameStatus, X) && !HasLine(ps.gameStatus, O)
  }

  lemma ClearedValid()
    ensures PageValid(Cleared)
  {
    assert Count(EmptyBoard, X) == 0 && Count(EmptyBoard, O) == 0;
  }

  /** Every click keeps the page valid: a kept mark is counted, and only the mark just written can make a line. */
  lemma ClickKeepsValid(ps: PageState, row: int, col: int)
    requires InRange(row, col) && PageValid(ps)
    ensures PageValid(Click(ps, row, col).0)
  {
    if At(ps.gameStatus, row, col) == Empty {
      var value := Mark(ps.turn);
      var placed := Place(ps.gameStatus, row, col, value);
      if HasLine(placed, value) || ps.counter + 1 == 9 {
        ClearedValid();
      } else {
        assert Click(ps, row, col).0 == PageState(placed, !ps.turn, ps.counter + 1);
        PlacedCounts(ps.gameStatus, row, col, ps.turn, ps.counter);
        assert !HasLine(placed, X) && !HasLine(placed, O) by {
          PlaceKeepsOtherLines(ps.gameStatus, row, col, value, Other(value));
          assert value == X || value == O;
        }
      }
    }
  }

  /** Writing the mark for `turn` into an empty cell adds one to that mark's count and leaves the other's alone. */
  lemma PlacedCounts(b: Board, row: int, col: int, turn: bool, c: int)
    requires InRange(row, col) && At(b, row, col) == Empty && 0 <= c
    requires Count(b, X) == (c + 1) / 2 && Count(b, O) == c / 2 && turn == (c % 2 == 1)
    ensures Count(Place(b, row, col, Mark(turn)), X) == (c + 2) / 2
    ensures Count(Place(b, row, col, Mark(turn)), O) == (c + 1) / 2
    ensures !turn == ((c + 1) % 2 == 1)
  {
    CountUpdate(b, 3 * row + col, Mark(turn), X);
    CountUpdate(b, 3 * row + col, Mark(turn), O);
  }

  /** The counter is the number of marks on the board, and the board is never full between clicks. */
  lemma CounterCountsMarks(ps: PageState)
    requires PageValid(ps)
    ensures ps.counter == Count(ps.gameStatus, X) + Count(ps.gameStatus, O)
    ensures Empty in ps.gameStatus
  {
    CountPartition(ps.gameStatus);
  }

  /** Every cell is "-", "X" or "O", so the three counts add up to the length. */
  lemma {:induction false} CountPartition(s: seq<Cell>)
    ensures Count(s, Empty) + Count(s, X) + Count(s, O) == |s|
  {
    if s != [] {
      CountPartition(s[1..]);
    }
  }

  /** Marks alternate starting with "X": a click on a valid page writes "X" after an even number of marks. */
  lemma MarksAlternate(ps: PageState, row: int, col: int)
    requires InRange(row, col) && PageValid(ps) && At(ps.gameStatus, row, col) == Empty
    ensures Mark(ps.turn) == (if ps.counter % 2 == 0 then X else O)
    ensures Click(ps, row, col).1 == Placed ==> Click(ps, row, col).0.gameStatus[3 * row + col] == Mark(ps.turn)
  {
  }

  /** A ninth mark that completes a line is reported as a win, not as a Cat's Game. */
  lemma NinthMarkWinIsWin(ps: PageState, row: int, col: int)
    requires InRange(row, col) && PageValid(ps) && ps.counter == 8 && At(ps.gameStatus, row, col) == Empty
    requires HasLine(Place(ps.gameStatus, row, col, X), X)
    ensures Click(ps, row, col).1 == Won(X)
  {
  }

  /** The ninth mark always resets the page: it ends in a win or a Cat's Game. */
  lemma NinthMarkResets(ps: PageState, row: int, col: int)
    requires InRange(row, col) && PageValid(ps) && ps.counter == 8 && At(ps.gameStatus, row, col) == Empty
    ensures Click(ps, row, col).0 == Cleared
    ensures Click(ps, row, col).1 != Placed && Click(ps, row, col).1 != Ignored
  {
  }

  /** The page: the `gameStatus` array (a constant binding, its cells mutable), `turn` and `counter`. */
  class LegacyPage {
    const gameStatus: array<Cell>
    var turn: bool
    var counter: int

    function State(): PageState
      reads this, gameStatus
      requires gameStatus.Length == 9
    {
      PageState(gameStatus[..], turn, counter)
    }

    ghost predicate Valid()
      reads this, gameStatus
    {
      gameStatus.Length == 9 && PageValid(State())
    }

    /** The module-level initial values: nine "-" cells, "X" to move, no marks. */
    constructor ()
      ensures Valid() && State() == Cleared && fresh(gameStatus)
    {
      gameStatus := new Cell[9](_ => Empty);
      turn := false;
      counter := 0;
      new;
      assert gameStatus[..] == EmptyBoard;
      ClearedValid();
    }

    /** `resetGame`: the three cells of each row set to "-", then `turn` and `counter` cleared. */
    method ResetGame()
      requires gameStatus.Length == 9
      modifies this, gameStatus
      ensures Valid() && State() == Cleared
    {
      var i := 0;
      while i < 3
        invariant 0 <= i <= 3
        invariant forall k :: 0 <= k < 3 * i ==> gameStatus[k] == Empty
      {
        gameStatus[3 * i] := Empty;
        gameStatus[3 * i + 1] := Empty;
        gameStatus[3 * i + 2] := Empty;
        i := i + 1;
      }
      turn := false;
      counter := 0;
      assert gameStatus[..] == EmptyBoard;
      ClearedValid();
    }

    /** `checkWinner(currentValue)`: the columns, the rows, then the two diagonals, each tested for three `v`. */
    function CheckWinner(v: Cell): (won: bool)
      reads this, gameStatus
      requires gameStatus.Length == 9
      ensures won <==> HasLine(gameStatus[..], v)
    {
      if gameStatus[0] == v && gameStatus[3] == v && gameStatus[6] == v then true
      else if gameStatus[1] == v && gameStatus[4] == v && gameStatus[7] == v then true
      else if gameStatus[2] == v && gameStatus[5] == v && gameStatus[8] == v then true
      else if gameStatus[0] == v && gameStatus[1] == v && gameStatus[2] == v then true
      else if gameStatus[3] == v && gameStatus[4] == v && gameStatus[5] == v then true
      else if gameStatus[6] == v && gameStatus[7] == v && gameStatus[8] == v then true
      else if gameStatus[0] == v && gameStatus[4] == v && gameStatus[8] == v then true
      else if gameStatus[6] == v && gameStatus[4] == v && gameStatus[2] == v then true
      else false
    }

    /** `placeCellValue` for a click on cell (row, col). */
    method PlaceCellValue(row: int, col: int) returns (outcome: ClickOutcome)
      requires Valid() && InRange(row, col)
      modifies this, gameStatus
      ensures Valid()
      ensures (State(), outcome) == Click(old(State()), row, col)
    {
      ghost var before := State();
      if gameStatus[3 * row + col] != Empty {
        return Ignored;
      }
      var value := if turn then O else X;
      gameStatus[3 * row + col] := value;
      ghost var placed := Place(before.gameStatus, row, col, value);
      assert gameStatus[..] == placed;
      turn := !turn;
      counter := counter + 1;
      if CheckWinner(value) {
        assert Click(before, row, col) == (Cleared, Won(value));
        ResetGame();
        return Won(value);
      }
      if counter == 9 {
        assert Click(before, row, col) == (Cleared, CatsGame);
        ResetGame();
        return CatsGame;
      }
      assert Click(before, row, col) == (PageState(placed, turn, counter), Placed);
      ClickKeepsValid(before, row, col);
      return Placed;
    }
  }
}
