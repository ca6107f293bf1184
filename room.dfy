/**
  The multiplayer rooms of the server (backend/server.py): the game state
  stored with each room, `create_room`, and the three message handlers of
  the websocket endpoint — `join_room`, `make_move` and `reset_game`. The
  room collection is a map from room id to room document; a handler gives
  the new collection and the message it broadcasts to the room, if any.
 */
module Room {
  import opened Board
  import opened Server

  /** The `GameState` record: board, player to move, and the outcome so far. */
  datatype GameState = GameState(board: Board, currentPlayer: Cell, gameOver: bool, winner: Option<Cell>, isDraw: bool)

  /** A room document: the listed player names and the game state. */
  datatype Room = Room(players: seq<string>, gameState: GameState)

  /** The state `create_room` stores and `reset_game` writes back: empty board, "X" to move. */
  const InitialGameState: GameState := GameState(EmptyBoard, X, false, None, false)

  /** The websocket messages, by their "type" field; any other type is ignored. */
  datatype Command = JoinRoom(playerName: string) | MakeMove(row: int, col: int) | ResetGame | Unrecognized

  /** The messages broadcast to the room. */
  datatype Event = PlayerJoined(player: string) | GameUpdate(state: GameState) | GameReset(state: GameState)

  /** The room collection after a message, and the broadcast it caused. */
  datatype Step = Step(rooms: map<string, Room>, broadcast: Option<Event>)

  /**
    `create_room`: a room with no players and the initial game state under
    `roomId` (the generated id is an input). A lookup by id finds the
    document stored first, so an id already in use keeps its room.
   */
  function CreateRoom(rooms: map<string, Room>, roomId: string): (r: map<string, Room>)
    ensures roomId in r && r.Keys == rooms.Keys + {roomId}
    ensures roomId !in rooms ==> r[roomId] == Room([], InitialGameState)
    ensures forall id :: id in rooms ==> r[id] == rooms[id]
  {
    if roomId in rooms then rooms else rooms[roomId := Room([], InitialGameState)]
  }

  /**
    The `make_move` update of a game state: when the cell is "-" and the
    game is not over, the player to move takes the cell, the winner and the
    draw are recomputed and the turn passes; otherwise nothing happens.
   */
  function ApplyMove(gs: GameState, row: int, col: int): (r: GameState)
    requires InRange(row, col)
    ensures At(gs.board, row, col) != Empty || gs.gameOver ==> r == gs
    ensures At(gs.board, row, col) == Empty && !gs.gameOver ==>
              r.board == Place(gs.board, row, col, gs.currentPlayer) &&
              r.currentPlayer == (if gs.currentPlayer == X then O else X) &&
              r.winner == CheckWinner(r.board) &&
              (r.isDraw <==> Empty !in r.board && r.winner.None?) &&
              (r.gameOver <==> r.winner.Some? || r.isDraw)
  {
    if At(gs.board, row, col) == Empty && !gs.gameOver then
      var board := Place(gs.board, row, col, gs.currentPlayer);
      var winner := CheckWinner(board);
      var isDraw := IsBoardFull(board) && winner.None?;
      GameState(board, Other(gs.currentPlayer), winner.Some? || isDraw, winner, isDraw)
    else
      gs
  }

  /** Whether ApplyMove takes the move: the cell is "-" and the game is not over. */
  predicate Accepts(gs: GameState, row: int, col: int)
    requires InRange(row, col)
  {
    At(gs.board, row, col) == Empty && !gs.gameOver
  }

  /**
    The invariant of every stored game state: "X" and "O" have alternated
    starting with "X"; the outcome fields agree with the board; at most one
    symbol has a line, and a winner is the symbol that moved last.
   */
  predicate Consistent(gs: GameState) {
    gs.currentPlayer != Empty &&
    Count(gs.board, X) == Count(gs.board, O) + (if gs.currentPlayer == O then 1 else 0) &&
    gs.winner == CheckWinner(gs.board) &&
    (gs.isDraw <==> Empty !in gs.board && gs.winner.None?) &&
    (gs.gameOver <==> gs.winner.Some? || gs.isDraw) &&
    !(HasLine(gs.board, X) && HasLine(gs.board, O)) &&
    (gs.winner.Some? ==> gs.winner.value == Other(gs.currentPlayer))
  }

  lemma InitialConsistent()
    ensures Consistent(InitialGameState)
  {
    assert Count(EmptyBoard, X) == 0 && Count(EmptyBoard, O) == 0;
  }

  /**
    make_move keeps the invariant: an accepted move adds one mark of the
    player to move (so marks alternate), and a line completed by it belongs
    to that player.
   */
  lemma ApplyMovePreservesConsistent(gs: GameState, row: int, col: int)
    requires InRange(row, col) && Consistent(gs)
    ensures Consistent(ApplyMove(gs, row, col))
  {
    if Accepts(gs, row, col) {
      var p := gs.currentPlayer;
      var r := ApplyMove(gs, row, col);
      CountUpdate(gs.board, 3 * row + col, p, X);
      CountUpdate(gs.board, 3 * row + col, p, O);
      assert !HasLine(gs.board, X) && !HasLine(gs.board, O);
      PlaceKeepsOtherLines(gs.board, row, col, p, Other(p));
      assert !HasLine(r.board, Other(p));
    }
  }

  /** Whose turn it is flips on an accepted move and on nothing else. */
  lemma TurnAlternates(gs: GameState, row: int, col: int)
    requires InRange(row, col) && Consistent(gs)
    ensures ApplyMove(gs, row, col).currentPlayer ==
            (if Accepts(gs, row, col) then Other(gs.currentPlayer) else gs.currentPlayer)
    ensures ApplyMove(gs, row, col).currentPlayer != Empty
  {
  }

  /** A finished game accepts no further move. */
  lemma OverIsFinal(gs: GameState, row: int, col: int)
    requires InRange(row, col) && gs.gameOver
    ensures ApplyMove(gs, row, col) == gs
  {
  }

  /** `join_room`'s update: a name is added to the set of players only while fewer than two are listed. */
  function AddPlayer(players: seq<string>, name: string): (r: seq<string>)
    ensures |players| >= 2 ==> r == players
    ensures |players| < 2 ==> name in r && (forall n :: n in r <==> n in players || n == name)
    ensures |players| < 2 && name !in players ==> r == players + [name]
  {
    if |players| < 2 then (if name in players then players else players + [name]) else players
  }

  /** No name is listed twice. */
  predicate NoDuplicates(players: seq<string>) {
    forall p, q :: 0 <= p < q < |players| ==> players[p] != players[q]
  }

  /** Joining never lists more than two players and never lists a name twice. */
  lemma AddPlayerKeepsRoster(players: seq<string>, name: string)
    requires |players| <= 2 && NoDuplicates(players)
    ensures |AddPlayer(players, name)| <= 2 && NoDuplicates(AddPlayer(players, name))
  {
    var r := AddPlayer(players, name);
    if |players| < 2 && name !in players {
      forall p, q | 0 <= p < q < |r| ensures r[p] != r[q] {
        if q == |players| {
          assert r[p] == players[p] && players[p] in players;
        }
      }
    }
  }

  /** What every room in the collection satisfies. */
  predicate RoomValid(room: Room) {
    |room.players| <= 2 && NoDuplicates(room.players) && Consistent(room.gameState)
  }

  predicate AllValid(rooms: map<string, Room>) {
    forall id :: id in rooms ==> RoomValid(rooms[id])
  }

  /** A command the handlers can process: make_move indexes the board without a range check. */
  predicate WellFormed(cmd: Command) {
    cmd.MakeMove? ==> InRange(cmd.row, cmd.col)
  }

  /**
    One message on the websocket of room `roomId`. join_room needs the room
    and fewer than two players, and broadcasts the joining name even when it
    was listed already; make_move needs the room and an accepted move and
    broadcasts the new state; reset_game writes the initial state (the write
    does nothing for an unknown room) and always broadcasts it; any other
    type does nothing. Only room `roomId` can change.
   */
  function Handle(rooms: map<string, Room>, roomId: string, cmd: Command): (s: Step)
    requires WellFormed(cmd)
    ensures s.rooms.Keys == rooms.Keys
    ensures forall id :: id in rooms && id != roomId ==> s.rooms[id] == rooms[id]
    ensures roomId !in rooms ==> s.rooms == rooms
    ensures cmd.ResetGame? ==> s.broadcast == Some(GameReset(InitialGameState))
    ensures cmd.ResetGame? && roomId in rooms ==>
              s.rooms[roomId] == Room(rooms[roomId].players, InitialGameState)
    ensures cmd.Unrecognized? ==> s == Step(rooms, None)
    ensures cmd.JoinRoom? ==>
              (s.broadcast.Some? <==> roomId in rooms && |rooms[roomId].players| < 2) &&
              (s.broadcast.Some? ==>
                 s.broadcast.value == PlayerJoined(cmd.playerName) && cmd.playerName in s.rooms[roomId].players) &&
              (roomId in rooms ==> s.rooms[roomId].gameState == rooms[roomId].gameState) &&
              (roomId in rooms ==>
                 s.rooms[roomId] == rooms[roomId].(players := AddPlayer(rooms[roomId].players, cmd.playerName)))
    ensures cmd.MakeMove? ==>
              (s.broadcast.Some? <==> roomId in rooms && Accepts(rooms[roomId].gameState, cmd.row, cmd.col)) &&
              (s.broadcast.None? ==> s.rooms == rooms) &&
              (s.broadcast.Some? ==>
                 s.broadcast.value == GameUpdate(s.rooms[roomId].gameState) &&
                 s.rooms[roomId] == Room(rooms[roomId].players, ApplyMove(rooms[roomId].gameState, cmd.row, cmd.col)))
  {
    match cmd
    case JoinRoom(name) =>
      if roomId in rooms && |rooms[roomId].players| < 2 then
        var room := rooms[roomId];
        Step(rooms[roomId := room.(players := AddPlayer(room.players, name))], Some(PlayerJoined(name)))
      else
        Step(rooms, None)
    case MakeMove(row, col) =>
      if roomId in rooms && Accepts(rooms[roomId].gameState, row, col) then
        var room := rooms[roomId];
        var updated := ApplyMove(room.gameState, row, col);
        Step(rooms[roomId := room.(gameState := updated)], Some(GameUpdate(updated)))
      else
        Step(rooms, None)
    case ResetGame =>
      var written := if roomId in rooms then rooms[roomId := rooms[roomId].(gameState := InitialGameState)] else rooms;
      Step(written, Some(GameReset(InitialGameState)))
    case Unrecognized =>
      Step(rooms, None)
  }

  /** Creating rooms and handling any message keep every room valid. */
  lemma CreateRoomKeepsValid(rooms: map<string, Room>, roomId: string)
    requires AllValid(rooms)
    ensures AllValid(CreateRoom(rooms, roomId))
  {
    InitialConsistent();
  }

  lemma HandleKeepsValid(rooms: map<string, Room>, roomId: string, cmd: Command)
    requires WellFormed(cmd) && AllValid(rooms)
    ensures AllValid(Handle(rooms, roomId, cmd).rooms)
  {
    if roomId in rooms {
      var room := rooms[roomId];
      match cmd
      case JoinRoom(name) =>
        AddPlayerKeepsRoster(room.players, name);
      case MakeMove(row, col) =>
        ApplyMovePreservesConsistent(room.gameState, row, col);
      case ResetGame =>
        InitialConsistent();
      case Unrecognized =>
    }
  }

  /**
    A fresh room, "Alice" and "Bob" join, then "X" plays (0, 0): the update
    broadcast shows "X" at (0, 0) and "O" to move.
   */
  lemma FirstMoveScenario(roomId: string)
    ensures var r0 := CreateRoom(map[], roomId);
            var s1 := Handle(r0, roomId, JoinRoom("Alice"));
            var s2 := Handle(s1.rooms, roomId, JoinRoom("Bob"));
            var s3 := Handle(s2.rooms, roomId, MakeMove(0, 0));
            s2.rooms[roomId].players == ["Alice", "Bob"] &&
            s3.broadcast.Some? && s3.broadcast.value.GameUpdate? &&
            At(s3.broadcast.value.state.board, 0, 0) == X &&
            s3.broadcast.value.state.currentPlayer == O &&
            !s3.broadcast.value.state.gameOver
  {
    var r0 := CreateRoom(map[], roomId);
    var s1 := Handle(r0, roomId, JoinRoom("Alice"));
    assert s1.rooms[roomId].players == ["Alice"];
    var s2 := Handle(s1.rooms, roomId, JoinRoom("Bob"));
    assert "Bob" != "Alice";
    assert s2.rooms[roomId].players == ["Alice", "Bob"];
    var b := Place(EmptyBoard, 0, 0, X);
    assert !HasLine(b, X) && !HasLine(b, O);
    assert b[1] == Empty;
  }

  /** One player joins a fresh room and plays (0, 0): the update shows "X" there and "O" to move. */
  lemma SingleJoinMoveScenario(roomId: string)
    ensures var r0 := CreateRoom(map[], roomId);
            var s1 := Handle(r0, roomId, JoinRoom("TestPlayer1"));
            var s2 := Handle(s1.rooms, roomId, MakeMove(0, 0));
            s1.broadcast == Some(PlayerJoined("TestPlayer1")) &&
            s1.rooms[roomId].players == ["TestPlayer1"] &&
            s2.broadcast.Some? && s2.broadcast.value.GameUpdate? &&
            At(s2.broadcast.value.state.board, 0, 0) == X &&
            s2.broadcast.value.state.currentPlayer == O
  {
    var r0 := CreateRoom(map[], roomId);
    var s1 := Handle(r0, roomId, JoinRoom("TestPlayer1"));
    assert s1.rooms[roomId].players == ["TestPlayer1"];
    var b := Place(EmptyBoard, 0, 0, X);
    assert !HasLine(b, X) && !HasLine(b, O);
    assert b[1] == Empty;
  }
}
