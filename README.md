# Go game server with AI players — a Dafny model

The system is a small web server for Go on a 19×19 board. Each game is a
`GameState`. It holds:

- a board written `board[y][x]` (0 empty, 1 black, 2 white);
- the side to move;
- an append-only move history;
- a chat history;
- the last AI move and the current AI "thinking" text.

Either side may be played by an AI player. The AI is a chat-completion
model that gets a prompt describing the board, the moves and the chat. It
answers with a JSON move, usually inside a Markdown fenced block. The
server does the following:

- stores games by id;
- accepts human moves through `/make_move`;
- runs the AI turn loop `ai_move`, which goes on while the next side also
  has an AI;
- keeps a per-game registry of websocket connections. Each connection gets
  a side number, and chat messages from a connection are attributed to that
  number.

The model is organised as follows:

- `wrappers.dfy` holds `Option`.
- `text.dfy` holds the Python string primitives the formatters use:
  `str.strip()` with Python's whitespace set, `str(int)`, `f"{i:2d}"` and
  `sep.join`.
- `board.dfy` is the board as a value. Its invariant is that the board is
  exactly what the history built from the empty board: stones equal history
  length, each entry's cell holds its player, and no cell is played twice.
- `game_state.dfy` is the `GameState` class over an `array2<int>`.
  `Value()` reads the whole object as a `GameValue`, and each member is
  proved against a function on that value:
  - the constructor against `Initial`;
  - `IsValidMove` against `IsOpen` on the board;
  - `MakeMove` against the pure `Play`;
  - `RecordAiMove` against a record update of the old `Value()`.
- `markdown.dfy` is `extract_json_from_markdown`, with the regular
  expression written out as its match semantics.
- `formatting.dfy` holds the module-level formatters. Each is a loop method
  proved equal to a specification function.
- `ai_player.dfy` holds `AIPlayer._format_board`, `_format_chat_history`,
  the side word of `_create_prompt`, and `get_move`'s validation and
  empty-cell fallback.
- `server.dfy` holds `start_game`, the decision of `/make_move`, and the
  turn loop `ai_move`. The loop is the method `AiMove`, proved equal to the
  recursive function `AiRun` on game values.
- `connections.dfy` is the websocket registry as a class over a map.

Nondeterminism is made explicit as parameters.

- `get_move` takes an `Oracle`, which has three parts:
  - the model's reply for a call number, agent and prompt;
  - `json.loads` followed by `move_data['move']` and `.get('reasoning')`, as
    a partial decoder;
  - a draw for `random.choice`.
- The turn loop in `server.dfy` takes its moves from an abstract `Ask`. The
  lemma `GetMoveKeepsPromise` shows that `get_move` satisfies the one
  promise the loop relies on. That promise is: a returned cell is open, and
  no cell is returned exactly when the board is full.

## Model

| member | source | states |
|---|---|---|
| Text.StripStart | ai_player.py:17-18 | `lstrip`: the result is a suffix, everything cut is whitespace, and it does not start with whitespace |
| Text.StripEnd | ai_player.py:17-18 | `rstrip`: the result is a prefix, everything cut is whitespace, and it does not end with whitespace |
| Text.Strip | ai_player.py:17-18 | `strip()` is the part of the text after the `lstrip` cut with only whitespace around it, neither starts nor ends with whitespace, and is empty exactly for all-whitespace text |
| Text.NatToString | ai_player.py:41 | `str(n)` is all decimal digits, one digit exactly below ten, and starts with "0" only for zero |
| Text.NatToStringReadsBack | ai_player.py:41 | the digits of `str(n)` read back as `n` |
| Text.ConcatAppend | ai_player.py:39-41 | the lines of a loop over `a + b` are the lines for `a` followed by the lines for `b`, so order is kept |
| Markdown.OpeningAt | ai_player.py:13 | the opening fence at a position is "```json\n" or "```\n"; when one applies its body start is unique, and otherwise no opening exists there |
| Markdown.FirstClose | ai_player.py:13 | the lazy body ends at the first "\n```" at or after the body start, and None means there is none |
| Markdown.FindBlock | ai_player.py:13-14 | returns the leftmost match of the pattern at or after a position; None means no match exists there |
| Markdown.BlockUnique | ai_player.py:13 | a match starting at a given position has exactly one body |
| Markdown.ExtractJson | ai_player.py:10-18 | `extract_json_from_markdown`: the result is stripped, no longer than the reply, and, without a fenced block, empty exactly when the reply is all whitespace |
| Markdown.Unfenced | ai_player.py:13-18 | the text taken for the JSON, the first block's body or else the whole reply, is never longer than the reply |
| Markdown.ExtractWithoutBlock | ai_player.py:16-18 | with no fenced block the result is the whole text stripped |
| Markdown.ExtractFirstBlock | ai_player.py:13-17 | with a fenced block the result is the stripped body of the first one |
| Formatting.CellsAt | ai_player.py:26-29 | the joined cells have length 2n-1, with cell j's symbol at 2j separated by single spaces |
| Formatting.RowLineLayout | ai_player.py:25-30 | a row line is its two-wide label, a space, then cell j's symbol at column 3+2j, and it ends with a newline |
| Formatting.FormatBoardState | ai_player.py:20-31 | the `+=` loop builds exactly the header, the column labels and one labelled line per row, with 1 as "●", 2 as "○" and anything else as "·" |
| Formatting.ColorWord | ai_player.py:40 | the colour word is "黑棋" exactly when the player is 1 |
| Formatting.MovesTextEmpty | ai_player.py:35-36 | the history text is "暂无历史移动" exactly when there are no moves |
| Formatting.FormatMovesHistory | ai_player.py:33-42 | the loop builds the header plus one line per move, in order |
| Formatting.SpeakerWord | ai_player.py:51 | the speaker is "黑方" exactly when the player is 1 |
| Formatting.FirstShown | ai_player.py:50 | `chat_history[:5]`: a prefix of at most five messages; all of them when there are at most five, and exactly the first five otherwise |
| Formatting.ChatText | ai_player.py:46-47 | the chat text is "" exactly for None or an empty history |
| Formatting.ChatTextIgnoresLater | ai_player.py:50 | once five messages exist, later messages do not change the text |
| Formatting.FormatChatHistory | ai_player.py:44-53 | the loop builds exactly the chat text of the first five messages |
| AiPlayer.Symbol | ai_player.py:66 | the symbol table has an entry exactly for 0, 1 and 2 |
| AiPlayer.AgentBoardText | ai_player.py:64-74 | the drawing exists exactly when every cell is 0, 1 or 2; otherwise the source raises `KeyError` |
| AiPlayer.DrawingsAgree | ai_player.py:66-73 | both board drawings give a row line the same layout; they differ only on empty cells, "." against "·" |
| AiPlayer.FormatBoard | ai_player.py:64-74 | the loop builds exactly `AgentBoardText` |
| AiPlayer.AgentChatText | ai_player.py:78-79 | the text is "" exactly for None or an empty history |
| AiPlayer.AgentChatKeepsAll | ai_player.py:82-84 | unlike `format_chat_history`, every message is shown: later messages add their lines at the end |
| AiPlayer.FormatChat | ai_player.py:76-85 | the loop builds exactly `AgentChatText` |
| AiPlayer.SideWord | ai_player.py:93 | the side word is "黑" exactly for player 1, and "白" otherwise |
| AiPlayer.CreatePrompt | ai_player.py:87-97 | `prompt`, not `prompt2`, is built: its side word is "黑" iff player 1, its move text is the no-moves text iff there are no moves, and its chat text is empty iff there is no chat |
| AiPlayer.PromptShowsFirstFive | ai_player.py:87-97 | once five chat messages exist, later ones do not change the prompt |
| AiPlayer.EmptyInColumnSpec | ai_player.py:227-230 | the comprehension's inner loop lists exactly the empty cells of a column from a row on, in order |
| AiPlayer.EmptyFromColumnSpec | ai_player.py:227-230 | the comprehension lists exactly the empty cells from a column on, column-major |
| AiPlayer.EmptyPositions | ai_player.py:227-230 | `empty_positions` holds exactly the open cells, in x-then-y order, and is empty iff the board is full |
| AiPlayer.NoneListedIffFull | ai_player.py:231-235 | a list holding exactly the empty cells is empty iff the board is full |
| AiPlayer.Choice | ai_player.py:232 | `random.choice` returns an element of the list |
| AiPlayer.ChoiceReaches | ai_player.py:232 | every element of the list can be chosen by some draw |
| AiPlayer.Fallback | ai_player.py:223-235 | the fallback returns an open cell with the apology text when one exists; it returns no cell, with the no-room text, exactly when the board is full |
| AiPlayer.DecodeReply | ai_player.py:196-204 | a failed request decodes to nothing; a successful one is decoded, by `json.loads` and the `move` unpacking, from the text `extract_json_from_markdown` returns |
| AiPlayer.Validate | ai_player.py:199-221 | a decoded move in bounds on an empty cell is returned with its reasoning, or "无解释" when none is given; anything else falls back |
| AiPlayer.GetMove | ai_player.py:151-235 | a decoded reply that names an empty on-board cell is returned with its reasoning or "无解释"; any other reply, a failed request or a decoding error gives the random fallback; so only open cells are returned, and no cell (with the no-room text) exactly when the board is full |
| Board.EmptyGrid | main.py:23 | the new board is 19×19 with every cell 0 |
| Board.Place | main.py:48 | writing a cell sets that cell to the player and no other |
| Board.EmptyConsistent | main.py:23-26 | the empty board and the empty history agree |
| Board.StonesPlace | main.py:48 | writing an empty cell adds exactly one stone |
| Board.PlaceKeepsConsistent | main.py:48-49 | placing on an open cell and appending the move keeps the invariant: stones equal history length, each entry's cell holds its player, and no cell repeats |
| Board.HistoryBound | main.py:48-49 | a consistent history has at most 361 moves, and exactly 361 iff the board is full |
| Game.AlternatesStep | main.py:49-51 | recording the mover and flipping with `3 - p` keeps the sides alternating |
| Game.InitialSound | main.py:22-33 | a new game with first player 1 or 2 satisfies the game invariant |
| Game.Play | main.py:43-53 | a move keeps the grid shape and never touches the chat or the last move |
| Game.PlayKeepsSound | main.py:43-53 | every move, accepted or not, keeps the game invariant |
| Game.PlayTwiceRejects | main.py:39-48 | after a move the cell is taken, so the same move again changes nothing, the board and side included |
| Game.AgentFrom | main.py:30-31 | an AI player exists exactly for a non-empty model URL, built from that URL and name |
| Game.AgentFor | main.py:122 | black's AI is consulted when `current_player == 1`, white's otherwise |
| Game.GameState.GetBoardState | main.py:55-56 | the board as rows equals the array, cell by cell |
| Game.GameState.constructor | main.py:22-33 | the new game has an empty board, the given first player, empty histories, no last move and no thinking, and an AI per non-empty URL |
| Game.GameState.IsValidMove | main.py:36-41 | true exactly for 0 ≤ x,y < 19 with `board[y][x] == 0` |
| Game.GameState.MakeMove | main.py:43-53 | a rejected move returns false and changes nothing; an accepted one writes only `board[y][x]`, appends the move, sets the side to `3 - mover` and clears the thinking; either way the game is `Play` of the old one and stays sound |
| Game.GameState.RecordAiMove | main.py:150-162 | after the AI's move, sets the last move and thinking to the reasoning and appends a chat record under the given player, changing nothing else |
| Game.GameState.GetCurrentPlayer | main.py:58-59 | the side to move is always 1 or 2 |
| Server.StartGame | main.py:85-105 | stores a fresh, sound game with its own fresh board under its id; the first AI move is scheduled iff the game is an AI game and the first side has an AI |
| Server.HandleMakeMove | main.py:187-222 | a missing or unknown id is not found; `(-1,-1)` triggers the AI and changes nothing; otherwise the move is `make_move`, a rejection changes nothing, and after an accepted move the AI is scheduled iff the new side has one |
| Server.GetMoveKeepsPromise | main.py:141-146 | `get_move`, used as the loop's move source, returns only open cells, and none exactly on a full board |
| Server.AiTurn | main.py:122-162 | with no AI for the side to move there is no turn; otherwise the turn takes that AI's answer |
| Server.Take | main.py:148-162 | an answer is taken exactly when it has a cell; the last move, thinking and new chat record carry the answer's reasoning even when `make_move` refuses the cell, and a move is added exactly when the cell was open; a refused cell leaves the board, the side to move and the move history as they were |
| Server.TakeSpec | main.py:148-162 | taking an open cell places the mover's stone on it, appends that move and a chat record of the answer's reasoning under the mover's number from before the move, sets the last move and thinking to that reasoning, flips the side and keeps the game sound |
| Server.AiTurnSpec | main.py:122-162 | a turn happens unless the side to move has no AI or the board is full; when it happens it plays the cell that side's AI answered and records that answer's reasoning, as `TakeSpec` states |
| Server.AiRun | main.py:115-180 | the turn loop ends and its result is sound |
| Server.AiRunUnfold | main.py:176-180 | one step of the loop: no turn ends it; otherwise it stops after the turn when the next side has no AI, and recurses when it has one |
| Server.AiRunRecords | main.py:148-162 | over a whole run the old histories are kept as prefixes, and the new moves and chat records pair up one to one under the same player |
| Server.AiRunEnds | main.py:176-180 | the loop stops only on a full board or at a side without an AI |
| Server.BothAisFillBoard | main.py:176-180 | a game between two AIs runs until the board is full |
| Server.OneAiMovesOnce | main.py:148-180 | against a human, the AI makes exactly one move, at the cell it answered and with its reasoning recorded, and passes the turn |
| Server.NoAiNoChange | main.py:122-125 | with no AI for the side to move the loop changes nothing |
| Server.AiMove | main.py:115-180 | `ai_move` leaves a stored game sound and equal to `AiRun` of where it started, with `get_move` as the source |
| Server.RunAi | main.py:122-180 | the recursion of `ai_move` on an existing game ends in `AiRun` of its start |
| Server.AiRunAfter | main.py:148-180 | after one turn, the rest of the loop is `AiRun` of the new game, or the turn's result is the end of the run |
| Server.TakeTurn | main.py:122-162 | one turn on the game object is `AiTurn` on its value; when no turn is taken nothing changes |
| Connections.Joined | main.py:276-281 | joining registers the connection under the game, creating the entry when missing, and drops no game |
| Connections.JoinedSpec | main.py:276-281 | the first connection of a game gets 1 and every later one 2; the game's earlier connections stay with their numbers, other games are untouched and the registry keeps its shape |
| Connections.JoinedNumber | main.py:279-280 | the number given is 2 when the game already has an entry and 1 otherwise |
| Connections.JoinedEntry | main.py:281 | the game's entry gains exactly the new connection, and every other connection keeps its number |
| Connections.JoinedOthers | main.py:276-281 | joining one game leaves every other game's entry as it was |
| Connections.JoinedWellFormed | main.py:276-281 | joining keeps the registry's shape |
| Connections.Left | main.py:317-320 | leaving removes the connection from the game's entry and adds no game |
| Connections.LeftSpec | main.py:317-320 | the connection is removed; the entry is deleted exactly when it was the last one; the others and other games are kept |
| Connections.LeftUndoesJoined | main.py:276-320 | a new connection that joins and then fails inside the receive loop leaves the registry as it was |
| Connections.Registry.constructor | main.py:256 | the registry starts empty |
| Connections.Registry.Join | main.py:276-281 | the registry becomes `Joined` of the old one, and the number returned is 1 iff the game had no entry |
| Connections.Registry.ReceiveChat | main.py:299-314 | a "chat" message is attributed to its connection's number and appended to the game's chat when the game exists; other messages are ignored; nothing else changes |
| Connections.Registry.Leave | main.py:315-320 | the registry becomes `Left` of the old one and keeps its shape |

## Left out

- Sending over websockets (`broadcast_message`, the init data sent on join) is I/O and is not modelled. In the source a failed send is only logged, and the connection stays registered.
- `Connections.LeftUndoesJoined` covers only failures inside the receive loop (main.py:297-320). The init data is sent at main.py:295, before the `try`. If that send fails, the handler ends without removing the connection. The game's entry then never empties, and every later connection to that game gets 2.
- FastAPI routing, Pydantic validation, static files, `uvicorn`, and the JSON or text bodies of HTTP responses are web plumbing, so they are not modelled. `HandleMakeMove` returns only which answer is given. The text response format is not modelled.
- `BackgroundTasks`, `asyncio.sleep` and concurrency between requests and AI runs are left out; the model is sequential.
- `AiMove`: the source looks up `games[game_id]` again at every recursive call. The model looks the game up once. The two agree because nothing removes games.
- The `aiohttp` request and the shape of its response are not modelled; the model's reply is a parameter of the `Oracle`.
- `json.loads` is an abstract partial decoder in the `Oracle`. This covers RFC 8259 parsing, `move_data['move']` unpacking and `.get('reasoning')`. The decoder gives no move for non-integer coordinates, such as `[3.0, 4.0]` or `["3", "4"]`. Those pass the unpacking, but the bounds check or the board lookup then raises `TypeError` (ai_player.py:206-210), and the source falls back. `Decoded.reasoning` is a string, so a non-string `reasoning`, such as a number, cannot be expressed. The source stores such a value as it is in `last_move`.
- `AiPlayer.Validate`: the decoded reasoning is an optional string, so `"reasoning": null` cannot be expressed. In the source, `.get('reasoning', '无解释')` then returns `None`, not the default. The last move and the thinking then hold `None`, and the chat message is the text "None".
- `random.choice` is modelled by `Choice`, which picks by a draw from the `Oracle`. Every element can be drawn (`ChoiceReaches`); the probability distribution is not modelled.
- `uuid.uuid4` is not modelled; the new game's id is a parameter of `StartGame`.
- Logging (`logger_config.py`) is I/O and is not modelled.
- `static/js/game.js` is browser UI and is not part of this model.
- The prose of the prompt and the unused `prompt2` are not modelled. `Prompt` keeps only the parts computed from the game.
- `get_game_state` is a read-only endpoint and is not modelled.
- `Game.GameState.constructor` and `Server.StartGame` require `first_player` to be 1 or 2. The source never checks this: `GameConfig.first_player` is an `Optional[int]`. The flip `3 - p` keeps the side in {1, 2} only if it starts there.
- `Game.GameState.GetBoardState` returns the board as a value. The source returns the list itself, an alias; its callers only read it.
- `Server.AiRun` requires its move source to keep `get_move`'s promise: open cells only, and none exactly on a full board. An arbitrary source could make `ai_move` recurse forever. `get_move` keeps the promise (`Server.GetMoveKeepsPromise`).
- `Connections.Registry.ReceiveChat` takes the message's type and text as given. In the source, a message without `"type"` or `"message"` raises `KeyError`. That ends the receive loop, which is then the `Leave` path.
- `Formatting.FormatChatHistory` shows the first five messages (`chat_history[:5]`), as the code does, although the comment beside it speaks of the most recent five.
- `AIPlayer._format_board` and `AIPlayer._format_chat_history` are modelled, but the source never calls them; the prompt uses the module-level formatters.
