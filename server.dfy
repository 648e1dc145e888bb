/**
 * The HTTP side of the server: `start_game`, the decision part of the
 * `/make_move` handler, and the AI turn loop `ai_move`. The global table
 * `games` is passed in and returned as a map from game id to `GameState`.
 * `AiRun` is the turn loop as a recursive function on game values; the
 * method `AiMove` runs it on the game object, recursing as the source does.
 */
module Server {
  import opened Wrappers
  import opened Board
  import opened AiPlayer
  import opened Game

  /** The body of `/start_game`. */
  datatype GameConfig = GameConfig(
    playerType: string,
    blackUrl: Option<string>,
    blackName: Option<string>,
    whiteUrl: Option<string>,
    whiteName: Option<string>,
    firstPlayer: int)

  /**
   * `start_game(config)` with the fresh id `id`: the new game is stored
   * under its id and the AI's first move is scheduled exactly when the game
   * is an AI game and the side to move has an AI.
   */
  method StartGame(games: map<string, GameState>, config: GameConfig, id: string)
    returns (next: map<string, GameState>, aiScheduled: bool)
    requires config.firstPlayer == 1 || config.firstPlayer == 2
    ensures id in next && next == games[id := next[id]] && fresh(next[id]) && fresh(next[id].board)
    ensures next[id].Valid() && next[id].Value() == Initial(config.firstPlayer)
    ensures next[id].blackAi == AgentFrom(config.blackUrl, config.blackName)
    ensures next[id].whiteAi == AgentFrom(config.whiteUrl, config.whiteName)
    ensures aiScheduled <==> config.playerType == "ai" && AgentFor(next[id].blackAi, next[id].whiteAi, config.firstPlayer).Some?
  {
    var game := new GameState(config.blackUrl, config.blackName, config.whiteUrl, config.whiteName, config.firstPlayer, id);
    next := games[id := game];
    aiScheduled := config.playerType == "ai" &&
      ((game.currentPlayer == 1 && game.blackAi.Some?) || (game.currentPlayer == 2 && game.whiteAi.Some?));
  }

  /** The objects a request about `gameId` may change: that game and its board. */
  function GameFrame(games: map<string, GameState>, gameId: Option<string>): set<object> {
    if gameId.Some? && gameId.value in games then {games[gameId.value], games[gameId.value].board} else {}
  }

  /** How `/make_move` answers. */
  datatype MoveReply =
    | NotFound              // 404: no such game
    | AiTriggered           // the (-1, -1) request: the AI's move is scheduled
    | Rejected              // 400: invalid move
    | Moved(aiNext: bool)   // the move is made; `aiNext` says whether the AI's reply is scheduled

  /** A request names a stored game: the id is present, non-empty and known. */
  predicate Known(games: map<string, GameState>, gameId: Option<string>) {
    gameId.Some? && gameId.value != "" && gameId.value in games
  }

  /**
   * The decision of `/make_move`: an unknown or missing id is not found;
   * `(-1, -1)` schedules the AI and changes nothing; any other move is the
   * game's `make_move`, rejected with no change when invalid, and after an
   * accepted move the AI is scheduled exactly when the new side has one.
   */
  method HandleMakeMove(games: map<string, GameState>, gameId: Option<string>, x: int, y: int)
    returns (reply: MoveReply)
    requires Known(games, gameId) ==> games[gameId.value].Valid()
    modifies GameFrame(games, gameId)
    ensures reply == NotFound <==> !Known(games, gameId)
    ensures Known(games, gameId) ==>
      var g := games[gameId.value];
      && g.Valid()
      && (reply == AiTriggered <==> x == -1 && y == -1)
      && (reply.Moved? <==> !(x == -1 && y == -1) && old(IsOpen(g.GetBoardState(), x, y)))
      && (reply.Moved? ==> g.Value() == Play(old(g.Value()), x, y))
      && (reply.Moved? ==> reply.aiNext == AgentFor(g.blackAi, g.whiteAi, g.currentPlayer).Some?)
    ensures !reply.Moved? ==> forall o :: o in GameFrame(games, gameId) ==> unchanged(o)
  {
    if gameId.None? || gameId.value == "" || gameId.value !in games {
      return NotFound;
    }
    var game := games[gameId.value];
    if x == -1 && y == -1 {
      return AiTriggered;
    }
    var ok := game.MakeMove(x, y);
    if !ok {
      return Rejected;
    }
    var nextAi := if game.currentPlayer == 1 then game.blackAi else game.whiteAi;
    return Moved(nextAi.Some?);
  }

  /**
   * Where the turn loop gets its moves: the call number, the agent of the
   * side to move and the game go in, an answer comes out.
   */
  type Ask = (nat, Agent, GameValue) -> Answer

  /** `get_move` of the given agent on the game's board, side, history and chat. */
  function GetMoveOf(oracle: Oracle): Ask {
    (round: nat, agent: Agent, v: GameValue) =>
      if IsGrid(v.board) then GetMove(agent, oracle, round, v.board, v.current, v.moves, v.chat)
      else Answer(None, NoRoomReason)
  }

  /**
   * The promise `get_move` keeps: it only returns open cells, and returns no
   * cell exactly when the board is full. The loop's properties below are
   * proved for every source of moves that keeps it.
   */
  ghost predicate KeepsPromise(ask: Ask) {
    forall round: nat, agent: Agent, v: GameValue :: IsGrid(v.board) ==>
      && (ask(round, agent, v).cell.Some? ==> IsOpen(v.board, ask(round, agent, v).cell.value.0, ask(round, agent, v).cell.value.1))
      && (ask(round, agent, v).cell.None? <==> Full(v.board))
  }

  lemma GetMoveKeepsPromise(oracle: Oracle)
    ensures KeepsPromise(GetMoveOf(oracle))
  {
    var ask := GetMoveOf(oracle);
    forall round: nat, agent: Agent, v: GameValue | IsGrid(v.board)
      ensures ask(round, agent, v) == GetMove(agent, oracle, round, v.board, v.current, v.moves, v.chat)
    {
    }
  }

  /**
   * One turn of `ai_move` on a game value: the side to move asks its AI and
   * the answer is taken. `None` when that side has no AI.
   */
  function AiTurn(v: GameValue, black: Option<Agent>, white: Option<Agent>, ask: Ask, round: nat): (r: Option<GameValue>)
    requires IsGrid(v.board)
    ensures AgentFor(black, white, v.current).None? ==> r.None?
    ensures AgentFor(black, white, v.current).Some? ==> r == Take(v, ask(round, AgentFor(black, white, v.current).value, v))
  {
    match AgentFor(black, white, v.current)
    case None => None
    case Some(agent) => Take(v, ask(round, agent, v))
  }

  /**
   * Taking an answer: a returned cell is played, recorded as the last move
   * and as the thinking, and its reasoning is added to the chat under the
   * mover's number. A cell `make_move` refuses is recorded all the same,
   * but the board, the side to move and the move history stay as they
   * were. `None` when the answer has no cell.
   */
  function Take(v: GameValue, a: Answer): (r: Option<GameValue>)
    requires IsGrid(v.board)
    ensures r.Some? <==> a.cell.Some?
    ensures r.Some? ==>
      var x, y := a.cell.value.0, a.cell.value.1;
      && r.value.chat == v.chat + [Chat(v.current, a.reasoning)]
      && r.value.lastMove == Some(LastMove(x, y, a.reasoning))
      && r.value.thinking == a.reasoning
      && (IsOpen(v.board, x, y) <==> |r.value.moves| == |v.moves| + 1)
    ensures r.Some? && !IsOpen(v.board, a.cell.value.0, a.cell.value.1) ==>
      r.value.board == v.board && r.value.current == v.current && r.value.moves == v.moves
  {
    if a.cell.None? then None
    else
      var x, y := a.cell.value.0, a.cell.value.1;
      Some(Play(v, x, y).(
        lastMove := Some(LastMove(x, y, a.reasoning)),
        thinking := a.reasoning,
        chat := v.chat + [Chat(v.current, a.reasoning)]))
  }

  /**
   * `w` is `v` after the open cell of answer `a` was played by the side to
   * move: the stone is on that cell, the move is recorded, the turn passes,
   * and the answer's reasoning is the last move's, the thinking and a new
   * chat record under the mover's number.
   */
  predicate Answered(v: GameValue, a: Answer, w: GameValue)
    requires IsGrid(v.board)
  {
    a.cell.Some? &&
    var x, y := a.cell.value.0, a.cell.value.1;
    && IsOpen(v.board, x, y)
    && w.board == Place(v.board, x, y, v.current)
    && w.moves == v.moves + [Move(x, y, v.current)]
    && w.current == 3 - v.current
    && w.chat == v.chat + [Chat(v.current, a.reasoning)]
    && w.lastMove == Some(LastMove(x, y, a.reasoning))
    && w.thinking == a.reasoning
  }

  /**
   * Taking an open cell plays it and records the answer's reasoning (see
   * `Answered`): one move by the side to move and one chat record under the
   * same number are added, the turn passes, the game stays sound and the
   * earlier records are left alone. An answer without a cell is not taken.
   */
  lemma TakeSpec(v: GameValue, a: Answer)
    requires Sound(v)
    requires a.cell.Some? ==> IsOpen(v.board, a.cell.value.0, a.cell.value.1)
    ensures Take(v, a).Some? <==> a.cell.Some?
    ensures Take(v, a).Some? ==> Answered(v, a, Take(v, a).value)
    ensures var r := Take(v, a);
      r.Some? ==>
        && Sound(r.value)
        && |v.moves| < |r.value.moves| && r.value.moves == v.moves + [r.value.moves[|v.moves|]]
        && |v.chat| < |r.value.chat| && r.value.chat == v.chat + [r.value.chat[|v.chat|]]
        && r.value.chat[|v.chat|] == Chat(v.current, r.value.thinking)
        && r.value.moves[|v.moves|].player == v.current
        && r.value.current == 3 - v.current
  {
    if a.cell.Some? {
      var x, y := a.cell.value.0, a.cell.value.1;
      PlayKeepsSound(v, x, y);
      assert Play(v, x, y).moves == v.moves + [Move(x, y, v.current)];
    }
  }

  /**
   * A turn of a sound game plays an open cell: it keeps the game sound, adds
   * one move by the side to move and one chat record under the same number,
   * and leaves the earlier records alone. The cell played and the reasoning
   * recorded are those the AI of the side to move answered. There is no
   * turn exactly when the side to move has no AI or the board is full.
   */
  lemma AiTurnSpec(v: GameValue, black: Option<Agent>, white: Option<Agent>, ask: Ask, round: nat)
    requires Sound(v) && KeepsPromise(ask)
    ensures AiTurn(v, black, white, ask, round).Some? ==>
      && AgentFor(black, white, v.current).Some?
      && Answered(v, ask(round, AgentFor(black, white, v.current).value, v), AiTurn(v, black, white, ask, round).value)
    ensures var r := AiTurn(v, black, white, ask, round);
      r.Some? ==>
        && Sound(r.value)
        && |v.moves| < |r.value.moves| && r.value.moves == v.moves + [r.value.moves[|v.moves|]]
        && |v.chat| < |r.value.chat| && r.value.chat == v.chat + [r.value.chat[|v.chat|]]
        && r.value.chat[|v.chat|] == Chat(v.current, r.value.thinking)
        && r.value.moves[|v.moves|].player == v.current
        && r.value.current == 3 - v.current
    ensures AiTurn(v, black, white, ask, round).None? <==>
      AgentFor(black, white, v.current).None? || Full(v.board)
  {
    match AgentFor(black, white, v.current)
    case None =>
    case Some(agent) =>
      TakeSpec(v, ask(round, agent, v));
  }

  /**
   * `ai_move(game_id)` on a game value, starting with call number `round`:
   * turns are taken while the side to move has an AI and the AI returns a
   * cell. Every turn adds a stone, so the recursion ends.
   */
  function AiRun(v: GameValue, black: Option<Agent>, white: Option<Agent>, ask: Ask, round: nat): (r: GameValue)
    requires Sound(v) && KeepsPromise(ask)
    decreases Size * Size - |v.moves|
    ensures Sound(r)
  {
    AiTurnSpec(v, black, white, ask, round);
    match AiTurn(v, black, white, ask, round)
    case None => v
    case Some(w) =>
      HistoryBound(w.board, w.moves);
      if AgentFor(black, white, w.current).None? then w
      else AiRun(w, black, white, ask, round + 1)
  }

  /** One step of `AiRun`: no turn ends the run; otherwise the run goes on from the new game, or stops there. */
  lemma AiRunUnfold(v: GameValue, black: Option<Agent>, white: Option<Agent>, ask: Ask, round: nat)
    requires Sound(v) && KeepsPromise(ask)
    ensures AiTurn(v, black, white, ask, round).None? ==> AiRun(v, black, white, ask, round) == v
    ensures AiTurn(v, black, white, ask, round).Some? ==>
      var w := AiTurn(v, black, white, ask, round).value;
      && Sound(w) && |v.moves| < |w.moves| <= Size * Size
      && AiRun(v, black, white, ask, round) ==
         (if AgentFor(black, white, w.current).None? then w else AiRun(w, black, white, ask, round + 1))
  {
    AiTurnSpec(v, black, white, ask, round);
    if AiTurn(v, black, white, ask, round).Some? {
      var w := AiTurn(v, black, white, ask, round).value;
      HistoryBound(w.board, w.moves);
    }
  }

  /** Each move has its chat record, at the same position and under the same number. */
  predicate Paired(moves: seq<Move>, chat: seq<Chat>) {
    |moves| == |chat| && forall k :: 0 <= k < |moves| ==> chat[k].player == moves[k].player
  }

  /**
   * `r` continues the records of `v`: the old history and chat are kept as
   * prefixes, and the moves and chat records added after them pair up one
   * to one under the same number.
   */
  predicate Extends(v: GameValue, r: GameValue) {
    && |v.moves| <= |r.moves| && r.moves[..|v.moves|] == v.moves
    && |v.chat| <= |r.chat| && r.chat[..|v.chat|] == v.chat
    && Paired(r.moves[|v.moves|..], r.chat[|v.chat|..])
  }

  /** One turn's records: one move and one chat record, both under the number of the side that moved. */
  predicate OneTurn(v: GameValue, w: GameValue) {
    && |v.moves| < |w.moves| && w.moves == v.moves + [w.moves[|v.moves|]]
    && |v.chat| < |w.chat| && w.chat == v.chat + [w.chat[|v.chat|]]
    && w.chat[|v.chat|].player == w.moves[|v.moves|].player
  }

  /**
   * What the loop adds to the records: the old history and chat are kept as
   * prefixes, every turn adds exactly one move and one chat record (so no
   * move of the loop is ever rejected), and the chat record of each turn
   * carries the number of the side that made that turn's move.
   */
  lemma {:induction false} AiRunRecords(v: GameValue, black: Option<Agent>, white: Option<Agent>, ask: Ask, round: nat)
    requires Sound(v) && KeepsPromise(ask)
    decreases Size * Size - |v.moves|
    ensures Extends(v, AiRun(v, black, white, ask, round))
  {
    AiRunUnfold(v, black, white, ask, round);
    AiTurnSpec(v, black, white, ask, round);
    var r := AiRun(v, black, white, ask, round);
    match AiTurn(v, black, white, ask, round)
    case None =>
      ExtendsItself(v);
    case Some(w) =>
      assert OneTurn(v, w);
      if AgentFor(black, white, w.current).Some? {
        AiRunRecords(w, black, white, ask, round + 1);
      } else {
        ExtendsItself(w);
      }
      RecordsStep(v, w, r);
  }

  lemma ExtendsItself(v: GameValue)
    ensures Extends(v, v)
  {
    assert v.moves[..|v.moves|] == v.moves && v.chat[..|v.chat|] == v.chat;
    assert v.moves[|v.moves|..] == [] && v.chat[|v.chat|..] == [];
  }

  /** One turn's move and chat record in front of what the later turns added. */
  lemma RecordsStep(v: GameValue, w: GameValue, r: GameValue)
    requires OneTurn(v, w) && Extends(w, r)
    ensures Extends(v, r)
  {
    PrefixStep(v.moves, w.moves, r.moves, w.moves[|v.moves|]);
    PrefixStep(v.chat, w.chat, r.chat, w.chat[|v.chat|]);
    PairedCons(w.moves[|v.moves|], w.chat[|v.chat|], r.moves[|w.moves|..], r.chat[|w.chat|..]);
  }

  /** A prefix of a prefix: what lies after `a` is `x` followed by what lies after `b`. */
  lemma PrefixStep<T>(a: seq<T>, b: seq<T>, c: seq<T>, x: T)
    requires b == a + [x] && |b| <= |c| && c[..|b|] == b
    ensures |a| <= |c| && c[..|a|] == a
    ensures c[|a|..] == [x] + c[|b|..]
  {
    assert c[..|a|] == c[..|b|][..|a|];
    assert c[|a|..] == c[|a|..|b|] + c[|b|..];
    assert c[|a|..|b|] == c[..|b|][|a|..];
  }

  lemma PairedCons(m: Move, c: Chat, moves: seq<Move>, chat: seq<Chat>)
    requires c.player == m.player && Paired(moves, chat)
    ensures Paired([m] + moves, [c] + chat)
  {
    assert forall k :: 0 < k <= |moves| ==> ([m] + moves)[k] == moves[k - 1] && ([c] + chat)[k] == chat[k - 1];
  }

  /**
   * The loop stops only when it must: when it ends, the board is full or the
   * side to move has no AI.
   */
  lemma {:induction false} AiRunEnds(v: GameValue, black: Option<Agent>, white: Option<Agent>, ask: Ask, round: nat)
    requires Sound(v) && KeepsPromise(ask)
    decreases Size * Size - |v.moves|
    ensures var r := AiRun(v, black, white, ask, round);
      Full(r.board) || AgentFor(black, white, r.current).None?
  {
    AiRunUnfold(v, black, white, ask, round);
    AiTurnSpec(v, black, white, ask, round);
    match AiTurn(v, black, white, ask, round)
    case None =>
    case Some(w) =>
      if AgentFor(black, white, w.current).Some? {
        AiRunEnds(w, black, white, ask, round + 1);
      }
  }

  /** A game between two AIs, once started, is played until the board is full. */
  lemma BothAisFillBoard(v: GameValue, black: Agent, white: Agent, ask: Ask, round: nat)
    requires Sound(v) && KeepsPromise(ask)
    ensures Full(AiRun(v, Some(black), Some(white), ask, round).board)
  {
    AiRunEnds(v, Some(black), Some(white), ask, round);
  }

  /**
   * Against a human, the AI makes exactly one move per call (unless the
   * board is full): it plays the cell its AI answered and records that
   * answer's reasoning, the turn passes to the side without an AI and the
   * loop stops there.
   */
  lemma OneAiMovesOnce(v: GameValue, black: Option<Agent>, white: Option<Agent>, ask: Ask, round: nat)
    requires Sound(v) && KeepsPromise(ask) && !Full(v.board)
    requires AgentFor(black, white, v.current).Some? && AgentFor(black, white, 3 - v.current).None?
    ensures var r := AiRun(v, black, white, ask, round);
      |r.moves| == |v.moves| + 1 && r.current == 3 - v.current
    ensures Answered(v, ask(round, AgentFor(black, white, v.current).value, v), AiRun(v, black, white, ask, round))
  {
    AiRunUnfold(v, black, white, ask, round);
    AiTurnSpec(v, black, white, ask, round);
  }

  /** Without an AI for the side to move, `ai_move` returns at once and changes nothing. */
  lemma NoAiNoChange(v: GameValue, black: Option<Agent>, white: Option<Agent>, ask: Ask, round: nat)
    requires Sound(v) && KeepsPromise(ask) && AgentFor(black, white, v.current).None?
    ensures AiRun(v, black, white, ask, round) == v
  {
    AiRunUnfold(v, black, white, ask, round);
  }

  /**
   * `ai_move(game_id)`: a missing game changes nothing, otherwise the game
   * ends as `AiRun` of where it started, with `get_move` as the source of
   * moves. The result of `make_move` is ignored as in the source; it never
   * fails here because `get_move` only returns open cells.
   */
  method AiMove(games: map<string, GameState>, gameId: string, oracle: Oracle, round: nat)
    requires gameId in games ==> games[gameId].Valid()
    modifies GameFrame(games, Some(gameId))
    ensures gameId in games ==>
      var g := games[gameId];
      g.Valid() && (GetMoveKeepsPromise(oracle); g.Value() == AiRun(old(g.Value()), g.blackAi, g.whiteAi, GetMoveOf(oracle), round))
  {
    if gameId !in games {
      return;
    }
    RunAi(games[gameId], oracle, round);
  }

  /**
   * The turns of `ai_move` on a game that exists, starting with call number
   * `round`: one turn, and the recursive call when a move was made and the
   * new side to move has an AI.
   */
  method RunAi(game: GameState, oracle: Oracle, round: nat)
    requires game.Valid()
    modifies game, game.board
    decreases Size * Size - |game.movesHistory|
    ensures game.Valid()
    ensures (GetMoveKeepsPromise(oracle); game.Value() == AiRun(old(game.Value()), game.blackAi, game.whiteAi, GetMoveOf(oracle), round))
  {
    ghost var v := game.Value();
    GetMoveKeepsPromise(oracle);
    HistoryBound(v.board, v.moves);
    var moved := TakeTurn(game, oracle, round);
    AiRunAfter(v, game.blackAi, game.whiteAi, GetMoveOf(oracle), round, if moved then Some(game.Value()) else None, game.Value());
    if !moved {
      return;
    }
    var nextAi := if game.currentPlayer == 1 then game.blackAi else game.whiteAi;
    if nextAi.Some? {
      RunAi(game, oracle, round + 1);
    }
  }


  /**
   * Where the run stands after one turn `t` of `v` that left the game at
   * `now`: the run goes on from `now` when there was a turn and the new
   * side has an AI, and has reached its end otherwise.
   */
  lemma AiRunAfter(v: GameValue, black: Option<Agent>, white: Option<Agent>, ask: Ask, round: nat, t: Option<GameValue>, now: GameValue)
    requires Sound(v) && KeepsPromise(ask)
    requires AiTurn(v, black, white, ask, round) == t
    requires t.None? ==> now == v
    requires t.Some? ==> now == t.value
    ensures Sound(now)
    ensures t.Some? && AgentFor(black, white, now.current).Some? ==>
      |v.moves| < |now.moves| && AiRun(now, black, white, ask, round + 1) == AiRun(v, black, white, ask, round)
    ensures !(t.Some? && AgentFor(black, white, now.current).Some?) ==> now == AiRun(v, black, white, ask, round)
  {
    AiRunUnfold(v, black, white, ask, round);
  }

  /**
   * One pass of the loop of `ai_move`: the side to move asks its AI for a
   * move, makes it, and records it as the last move, the thinking and a chat
   * message. Nothing changes when that side has no AI or the answer has no
   * cell.
   */
  method TakeTurn(game: GameState, oracle: Oracle, round: nat) returns (moved: bool)
    requires game.Valid()
    modifies game, game.board
    ensures game.Valid()
    ensures AiTurn(old(game.Value()), game.blackAi, game.whiteAi, GetMoveOf(oracle), round) ==
      (if moved then Some(game.Value()) else None)
    ensures !moved ==> game.Value() == old(game.Value())
  {
    var current := game.currentPlayer;
    var agent := if current == 1 then game.blackAi else game.whiteAi;
    if agent.None? {
      return false;
    }
    ghost var v := game.Value();
    var a := GetMove(agent.value, oracle, round, game.GetBoardState(), game.GetCurrentPlayer(), game.movesHistory, game.chatHistory);
    assert a == GetMoveOf(oracle)(round, agent.value, v);
    if a.cell.None? {
      return false;
    }
    var x, y := a.cell.value.0, a.cell.value.1;
    var _ := game.MakeMove(x, y);
    game.RecordAiMove(x, y, a.reasoning, current);
    return true;
  }
}
