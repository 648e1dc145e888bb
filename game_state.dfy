/**
 * `GameState`: one game of Go between two sides, each optionally played by
 * an AI. The board is a 19x19 array indexed `[y, x]`; `Value()` reads the
 * whole object as a `GameValue`, and each member is proved against a
 * function on that value: the constructor against `Initial`, `IsValidMove`
 * against `IsOpen`, `MakeMove` against the pure `Play`, and `RecordAiMove`
 * against a record update of the old `Value()`.
 */
module Game {
  import opened Wrappers
  import opened Board
  import opened AiPlayer

  /** `last_move`: the cell of the latest AI move and the reasoning given for it. */
  datatype LastMove = LastMove(x: int, y: int, reasoning: string)

  /** Everything a game records, as a value. */
  datatype GameValue = GameValue(
    board: Grid,
    current: int,
    moves: seq<Move>,
    chat: seq<Chat>,
    lastMove: Option<LastMove>,
    thinking: string)

  /**
   * The invariant of a game: the board is what the move history built from
   * the empty board, the side to move is black or white, the sides alternate
   * in the history, and the side to move is not the side that moved last.
   */
  ghost predicate Sound(v: GameValue) {
    SoundPlay(v.board, v.current, v.moves)
  }

  /** `Sound` on the three parts it constrains; the chat, last move and thinking are free. */
  ghost predicate SoundPlay(board: Grid, current: int, moves: seq<Move>) {
    && Consistent(board, moves)
    && (current == 1 || current == 2)
    && Alternates(moves, current)
  }

  /** The sides alternate along the history, and `current` is not the side that moved last. */
  predicate Alternates(moves: seq<Move>, current: int) {
    && (forall i :: 0 < i < |moves| ==> moves[i].player == 3 - moves[i - 1].player)
    && (moves != [] ==> current == 3 - moves[|moves| - 1].player)
  }

  /** Recording a move of the side to move and passing the turn keeps the alternation. */
  lemma AlternatesStep(moves: seq<Move>, current: int, x: int, y: int)
    requires Alternates(moves, current)
    ensures Alternates(moves + [Move(x, y, current)], 3 - current)
  {
    var ms := moves + [Move(x, y, current)];
    forall i | 0 < i < |ms| ensures ms[i].player == 3 - ms[i - 1].player {
      if i < |moves| {
        assert ms[i] == moves[i] && ms[i - 1] == moves[i - 1];
      }
    }
  }

  /** A new game: empty board, no history, no last move, no thinking. */
  function Initial(first: int): GameValue {
    GameValue(EmptyGrid(), first, [], [], None, "")
  }

  lemma InitialSound(first: int)
    requires first == 1 || first == 2
    ensures Sound(Initial(first))
  {
    EmptyConsistent();
  }

  /**
   * `make_move(x, y)` on a game value: on an open cell the mover's stone is
   * placed, the move recorded, the side flipped and the thinking cleared;
   * otherwise nothing changes.
   */
  function Play(v: GameValue, x: int, y: int): (r: GameValue)
    requires IsGrid(v.board)
    ensures IsGrid(r.board)
    ensures r.chat == v.chat && r.lastMove == v.lastMove
  {
    if IsOpen(v.board, x, y) then
      v.(board := Place(v.board, x, y, v.current),
         current := 3 - v.current,
         moves := v.moves + [Move(x, y, v.current)],
         thinking := "")
    else
      v
  }

  /** Every move, accepted or not, keeps the invariant. */
  lemma PlayKeepsSound(v: GameValue, x: int, y: int)
    requires Sound(v)
    ensures Sound(Play(v, x, y))
  {
    if IsOpen(v.board, x, y) {
      PlaceKeepsConsistent(v.board, v.moves, x, y, v.current);
      AlternatesStep(v.moves, v.current, x, y);
    }
  }

  /**
   * Playing the same cell twice in a row: the second call is always
   * rejected and changes nothing, the board and the side to move included.
   */
  lemma PlayTwiceRejects(v: GameValue, x: int, y: int)
    requires Sound(v)
    ensures !IsOpen(Play(v, x, y).board, x, y)
    ensures Play(Play(v, x, y), x, y) == Play(v, x, y)
  {
  }

  /** Python truthiness of the model URL: an AI player exists exactly for a non-empty URL. */
  function AgentFrom(url: Option<string>, name: Option<string>): (r: Option<Agent>)
    ensures r.Some? <==> url.Some? && url.value != ""
    ensures r.Some? ==> r.value == Agent(url.value, name)
  {
    if url.Some? && url.value != "" then Some(Agent(url.value, name)) else None
  }

  /** `black_ai if current_player == 1 else white_ai` */
  function AgentFor(black: Option<Agent>, white: Option<Agent>, side: int): (r: Option<Agent>)
    ensures side == 1 ==> r == black
    ensures side != 1 ==> r == white
  {
    if side == 1 then black else white
  }

  class GameState {
    const board: array2<int>
    var currentPlayer: int
    const gameId: string
    var movesHistory: seq<Move>
    var chatHistory: seq<Chat>
    const blackModelUrl: Option<string>
    const whiteModelUrl: Option<string>
    const blackAi: Option<Agent>
    const whiteAi: Option<Agent>
    var lastMove: Option<LastMove>
    var currentThinking: string

    /** The board array is 19 by 19. */
    predicate Shaped()
    {
      board.Length0 == Size && board.Length1 == Size
    }

    /** `get_board_state()`: the board as rows of cells. */
    function GetBoardState(): (g: Grid)
      reads board
      requires Shaped()
      ensures IsGrid(g)
      ensures forall y, x :: 0 <= y < Size && 0 <= x < Size ==> g[y][x] == board[y, x]
    {
      seq(Size, y requires 0 <= y < Size reads board =>
        seq(Size, x requires 0 <= x < Size reads board => board[y, x]))
    }

    /** The whole game as a value. */
    ghost function Value(): GameValue
      reads this, board
      requires Shaped()
    {
      GameValue(GetBoardState(), currentPlayer, movesHistory, chatHistory, lastMove, currentThinking)
    }

    ghost predicate Valid()
      reads this, board
    {
      Shaped() && Sound(Value())
    }

    /**
     * `GameState(...)`: an empty board with `first_player` to move, and an
     * AI player for each side whose model URL is given.
     */
    constructor(blackUrl: Option<string>, blackName: Option<string>,
                whiteUrl: Option<string>, whiteName: Option<string>,
                firstPlayer: int, id: string)
      requires firstPlayer == 1 || firstPlayer == 2
      ensures Valid() && fresh(board)
      ensures Value() == Initial(firstPlayer)
      ensures gameId == id && blackModelUrl == blackUrl && whiteModelUrl == whiteUrl
      ensures blackAi == AgentFrom(blackUrl, blackName) && whiteAi == AgentFrom(whiteUrl, whiteName)
    {
      board := new int[Size, Size]((y, x) => 0);
      currentPlayer := firstPlayer;
      gameId := id;
      movesHistory := [];
      chatHistory := [];
      blackModelUrl := blackUrl;
      whiteModelUrl := whiteUrl;
      blackAi := AgentFrom(blackUrl, blackName);
      whiteAi := AgentFrom(whiteUrl, whiteName);
      lastMove := None;
      currentThinking := "";
      new;
      GridEq(GetBoardState(), EmptyGrid());
      assert Value() == Initial(firstPlayer);
      InitialSound(firstPlayer);
    }

    /** `is_valid_move(x, y)`: on the board and the cell empty. */
    function IsValidMove(x: int, y: int): (r: bool)
      reads board
      requires Shaped()
      ensures r <==> IsOpen(GetBoardState(), x, y)
    {
      0 <= x < Size && 0 <= y < Size && board[y, x] == 0
    }

    /**
     * `make_move(x, y)`: an invalid move is refused and changes nothing; a
     * valid one writes exactly one cell, records the move, passes the turn
     * and clears the thinking. Either way the game is `Play` of the old one.
     */
    method MakeMove(x: int, y: int) returns (ok: bool)
      requires Valid()
      modifies this, board
      ensures Valid()
      ensures ok <==> old(IsOpen(GetBoardState(), x, y))
      ensures Value() == Play(old(Value()), x, y)
      ensures !ok ==> unchanged(this) && unchanged(board)
      ensures ok ==> board[y, x] == old(currentPlayer) && currentPlayer == 3 - old(currentPlayer)
      ensures ok ==> movesHistory == old(movesHistory) + [Move(x, y, old(currentPlayer))] && currentThinking == ""
      ensures ok ==> forall y', x' :: 0 <= y' < Size && 0 <= x' < Size && (x' != x || y' != y) ==> board[y', x'] == old(board[y', x'])
      ensures chatHistory == old(chatHistory) && lastMove == old(lastMove)
    {
      if !IsValidMove(x, y) {
        return false;
      }
      ghost var v := Value();
      board[y, x] := currentPlayer;
      movesHistory := movesHistory + [Move(x, y, currentPlayer)];
      currentPlayer := 3 - currentPlayer;
      currentThinking := "";
      GridEq(GetBoardState(), Place(v.board, x, y, v.current));
      assert Value() == Play(v, x, y);
      PlayKeepsSound(v, x, y);
      return true;
    }

    /**
     * What `ai_move` writes after its move: the cell and reasoning as the
     * last move, the reasoning as the thinking and as a chat message under
     * `player`. The board, the side to move and the history stay as they are.
     */
    method RecordAiMove(x: int, y: int, reasoning: string, player: int)
      requires Valid()
      modifies this
      ensures Valid()
      ensures Value() == old(Value()).(
        lastMove := Some(LastMove(x, y, reasoning)),
        thinking := reasoning,
        chat := old(chatHistory) + [Chat(player, reasoning)])
    {
      ghost var v := Value();
      lastMove := Some(LastMove(x, y, reasoning));
      currentThinking := reasoning;
      chatHistory := chatHistory + [Chat(player, reasoning)];
      assert GetBoardState() == v.board;
    }

    /** `get_current_player()`: always black or white. */
    function GetCurrentPlayer(): (p: int)
      reads this, board
      requires Valid()
      ensures p == 1 || p == 2
    {
      currentPlayer
    }
  }
}
