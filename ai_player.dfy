/**
 * The AI player: its own board and chat drawings, the prompt it sends, and
 * the move it returns. The exchange with the model is not modelled as I/O:
 * an `Oracle` supplies the reply of the chat endpoint, the decoding of the
 * extracted JSON text and the random draw, so `GetMove` is a function of its
 * inputs and of these choices.
 */
module AiPlayer {
  import opened Wrappers
  import opened Text
  import opened Board
  import opened Formatting
  import opened Markdown

  /** An `AIPlayer`: the endpoint it posts to and the model name it asks for. */
  datatype Agent = Agent(apiUrl: string, modelName: Option<string>)

  // ------------------------------------------------------- _format_board

  /** The table `symbols = {0: ".", 1: "●", 2: "○"}`; other values have no entry. */
  function Symbol(v: int): (r: Option<char>)
    ensures r.Some? <==> 0 <= v <= 2
  {
    if v == 0 then Some('.') else if v == 1 then Some('●') else if v == 2 then Some('○') else None
  }

  /** The table's symbol for a value it has, a dot otherwise (never used then). */
  function AgentSymbol(v: int): char {
    Symbol(v).GetOr('.')
  }

  /** Every cell of the row has an entry in the table. */
  predicate Drawable(row: seq<int>) {
    forall j :: 0 <= j < |row| ==> Symbol(row[j]).Some?
  }

  /** The first `n` rows are drawable. */
  predicate RowsDrawable(b: seq<seq<int>>, n: int)
    requires n <= |b|
  {
    forall k :: 0 <= k < n ==> Drawable(b[k])
  }

  lemma RowsDrawableStep(b: seq<seq<int>>, n: int)
    requires 0 <= n < |b| && RowsDrawable(b, n) && Drawable(b[n])
    ensures RowsDrawable(b, n + 1)
  {
  }

  const AgentBoardTitle := "当前棋盘状态：\n"

  /**
   * The text `_format_board(board)` returns, or `None` when a cell has no
   * symbol and the lookup raises `KeyError`.
   */
  function AgentBoardText(b: seq<seq<int>>): (r: Option<string>)
    ensures r.Some? <==> forall i :: 0 <= i < |b| ==> Drawable(b[i])
  {
    if RowsDrawable(b, |b|) then
      Some(AgentBoardTitle + ColumnHeader() + BoardRows(b, |b|, AgentSymbol))
    else
      None
  }

  /**
   * The two board drawings differ only in the title and in the empty-cell
   * symbol: row `i` of either has cell `j` at the same column, and it is the
   * same symbol unless the cell is empty.
   */
  lemma DrawingsAgree(i: int, row: seq<int>, j: int)
    requires 0 <= i < 100 && 0 <= j < |row| && Drawable(row)
    ensures |RowLine(i, row, AgentSymbol)| == |RowLine(i, row, CellSymbol)| == 2 * |row| + 3
    ensures RowLine(i, row, AgentSymbol)[3 + 2 * j] == Symbol(row[j]).value
    ensures row[j] != 0 <==> RowLine(i, row, AgentSymbol)[3 + 2 * j] == RowLine(i, row, CellSymbol)[3 + 2 * j]
  {
    RowLineLayout(i, row, AgentSymbol, j);
    RowLineLayout(i, row, CellSymbol, j);
  }

  /** `self._format_board(board)`, built line by line; `None` where it raises. */
  method FormatBoard(board: seq<seq<int>>) returns (r: Option<string>)
    ensures r == AgentBoardText(board)
  {
    var s := AgentBoardTitle;
    s := s + ColumnHeader();
    ghost var head := s;
    var i := 0;
    while i < |board|
      invariant 0 <= i <= |board|
      invariant RowsDrawable(board, i)
      invariant s == head + BoardRows(board, i, AgentSymbol)
    {
      if !Drawable(board[i]) {
        return None;
      }
      var prefix, cells := Width2(i) + " ", Cells(board[i], AgentSymbol);
      BoardRowsStep(board, i, AgentSymbol, head, prefix, cells);
      s := s + prefix;
      s := s + cells + "\n";
      RowsDrawableStep(board, i);
      i := i + 1;
    }
    return Some(s);
  }

  // ----------------------------------------------- _format_chat_history

  /** `f"{player}: {msg['message']}\n"` */
  function AgentChatLine(c: Chat): string {
    SpeakerWord(c.player) + ": " + c.message + "\n"
  }

  const AgentChatTitle := "\n最近的对话：\n"

  /**
   * The text `_format_chat_history(chat_history)` returns: empty for no
   * history, otherwise the title and one line for every message.
   */
  function AgentChatText(chat: Option<seq<Chat>>): (r: string)
    ensures r == "" <==> chat.None? || chat.value == []
  {
    if chat.None? || chat.value == [] then ""
    else AgentChatTitle + Concat(chat.value, AgentChatLine)
  }

  /** Unlike the module-level formatter, every later message adds its line. */
  lemma AgentChatKeepsAll(cs: seq<Chat>, later: seq<Chat>)
    requires cs != []
    ensures AgentChatText(Some(cs + later)) == AgentChatText(Some(cs)) + Concat(later, AgentChatLine)
  {
    ConcatAppend(cs, later, AgentChatLine);
  }

  /** `self._format_chat_history(chat_history)`, built line by line. */
  method FormatChat(chat: Option<seq<Chat>>) returns (r: string)
    ensures r == AgentChatText(chat)
  {
    if chat.None? || |chat.value| == 0 {
      return "";
    }
    var cs := chat.value;
    r := AgentChatTitle;
    var i := 0;
    while i < |cs|
      invariant 0 <= i <= |cs|
      invariant r == AgentChatTitle + Concat(cs[..i], AgentChatLine)
    {
      ConcatSnoc(cs, i, AgentChatLine);
      r := r + AgentChatLine(cs[i]);
      i := i + 1;
    }
    assert cs[..i] == cs;
  }

  // ----------------------------------------------------- _create_prompt

  /**
   * The prompt `_create_prompt` returns (the first of the two it writes), as
   * the parts that vary; the fixed prose around them is not modelled.
   */
  datatype Prompt = Prompt(board: string, side: string, moves: string, chat: string)

  /** `'黑' if current_player == 1 else '白'` */
  function SideWord(player: int): (w: string)
    ensures w == "黑" <==> player == 1
    ensures w == "白" <==> player != 1
  {
    if player == 1 then "黑" else "白"
  }

  /** The prompt embeds the module-level drawings, not the player's own. */
  function CreatePrompt(b: seq<seq<int>>, player: int, moves: seq<Move>, chat: Option<seq<Chat>>): (r: Prompt)
    ensures r.side == "黑" <==> player == 1
    ensures r.moves == NoMovesText <==> moves == []
    ensures r.chat == "" <==> chat.None? || chat.value == []
  {
    MovesTextEmpty(moves);
    Prompt(BoardText(b), SideWord(player), MovesText(moves), ChatText(chat))
  }

  /** The prompt names the side, and no message past the fifth reaches it. */
  lemma PromptShowsFirstFive(b: seq<seq<int>>, player: int, moves: seq<Move>, cs: seq<Chat>, later: seq<Chat>)
    requires |cs| >= ChatShown
    ensures CreatePrompt(b, player, moves, Some(cs + later)) == CreatePrompt(b, player, moves, Some(cs))
  {
    ChatTextIgnoresLater(cs, later);
  }

  // ----------------------------------------------------------- get_move

  /** What `json.loads` and `move_data['move']` give: the two coordinates and the optional reasoning. */
  datatype Decoded = Decoded(x: int, y: int, reasoning: Option<string>)

  /**
   * The choices outside the model, indexed by the number of the call:
   * `reply` is the reply text of the chat endpoint (`None` for a failed
   * request or a reply without `choices[0].message.content`), `decode` is
   * `json.loads` followed by the unpacking of `move` (`None` where either
   * raises, and also where a coordinate is not an integer, since the bounds
   * check or the board lookup then raises `TypeError`), and `draw` is the index `random.choice` picks, taken modulo the
   * number of candidates.
   */
  datatype Oracle = Oracle(
    reply: (nat, Agent, Prompt) -> Option<string>,
    decode: string -> Option<Decoded>,
    draw: nat -> nat)

  /** What `get_move` returns: the cell (`None, None` when there is none) and the reasoning. */
  datatype Answer = Answer(cell: Option<(int, int)>, reasoning: string)

  const DefaultReason := "无解释"
  const RandomReason := "抱歉，我遇到了一些问题，所以这一手我选择了一个随机的位置"
  const NoRoomReason := "我发现已经没有可以落子的位置了"

  /** The empty cells of column `x` from row `y` down, in row order. */
  function EmptyInColumn(b: Grid, x: int, y: int): seq<(int, int)>
    requires IsGrid(b) && 0 <= x < Size && 0 <= y <= Size
    decreases Size - y
  {
    if y == Size then []
    else (if b[y][x] == 0 then [(x, y)] else []) + EmptyInColumn(b, x, y + 1)
  }

  /** The empty cells of the columns from `x` on, column by column. */
  function EmptyFromColumn(b: Grid, x: int): seq<(int, int)>
    requires IsGrid(b) && 0 <= x <= Size
    decreases Size - x
  {
    if x == Size then [] else EmptyInColumn(b, x, 0) + EmptyFromColumn(b, x + 1)
  }

  /** `(x, y)` comes before `(x', y')` in the order of the comprehension: x first, then y. */
  predicate Before(c: (int, int), d: (int, int)) {
    c.0 < d.0 || (c.0 == d.0 && c.1 < d.1)
  }

  /** The cells listed in the order of the comprehension, so none twice. */
  predicate Ordered(r: seq<(int, int)>) {
    forall i, j :: 0 <= i < j < |r| ==> Before(r[i], r[j])
  }

  lemma {:induction false} EmptyInColumnSpec(b: Grid, x: int, y: int)
    requires IsGrid(b) && 0 <= x < Size && 0 <= y <= Size
    decreases Size - y
    ensures forall c :: c in EmptyInColumn(b, x, y) <==> c.0 == x && y <= c.1 < Size && b[c.1][c.0] == 0
    ensures Ordered(EmptyInColumn(b, x, y))
  {
    if y < Size {
      EmptyInColumnSpec(b, x, y + 1);
      var t := EmptyInColumn(b, x, y + 1);
      if b[y][x] == 0 {
        var r := [(x, y)] + t;
        forall i, j | 0 <= i < j < |r| ensures Before(r[i], r[j]) {
          if i > 0 {
            assert r[i] == t[i - 1] && r[j] == t[j - 1];
          } else {
            assert r[j] == t[j - 1] && t[j - 1] in t;
          }
        }
      } else {
        assert EmptyInColumn(b, x, y) == t;
      }
    }
  }

  lemma {:induction false} EmptyFromColumnSpec(b: Grid, x: int)
    requires IsGrid(b) && 0 <= x <= Size
    decreases Size - x
    ensures forall c :: c in EmptyFromColumn(b, x) <==> x <= c.0 < Size && 0 <= c.1 < Size && b[c.1][c.0] == 0
    ensures Ordered(EmptyFromColumn(b, x))
  {
    if x < Size {
      EmptyInColumnSpec(b, x, 0);
      EmptyFromColumnSpec(b, x + 1);
      var col, rest := EmptyInColumn(b, x, 0), EmptyFromColumn(b, x + 1);
      var r := col + rest;
      forall i, j | 0 <= i < j < |r| ensures Before(r[i], r[j]) {
        if j < |col| {
          assert r[i] == col[i] && r[j] == col[j];
        } else if i >= |col| {
          assert r[i] == rest[i - |col|] && r[j] == rest[j - |col|];
        } else {
          assert r[i] == col[i] && col[i] in col;
          assert r[j] == rest[j - |col|] && rest[j - |col|] in rest;
        }
      }
    }
  }

  /**
   * `empty_positions`: every empty cell exactly once, in the order
   * `for x in range(19) for y in range(19)` visits them.
   */
  function EmptyPositions(b: Grid): (r: seq<(int, int)>)
    requires IsGrid(b)
    ensures forall c :: c in r <==> IsOpen(b, c.0, c.1)
    ensures Ordered(r)
    ensures r == [] <==> Full(b)
  {
    EmptyFromColumnSpec(b, 0);
    NoneListedIffFull(b, EmptyFromColumn(b, 0));
    EmptyFromColumn(b, 0)
  }

  /** A list holding exactly the open cells is empty exactly when the board is full. */
  lemma NoneListedIffFull(b: Grid, r: seq<(int, int)>)
    requires IsGrid(b)
    requires forall c :: c in r <==> 0 <= c.0 < Size && 0 <= c.1 < Size && b[c.1][c.0] == 0
    ensures r == [] <==> Full(b)
  {
    if r != [] {
      assert r[0] in r;
    } else {
      forall y, x | 0 <= y < Size && 0 <= x < Size ensures b[y][x] != 0 {
        assert (x, y) !in r;
      }
    }
  }

  /** `random.choice(s)`: the element the draw selects, any draw being allowed. */
  function Choice<T>(s: seq<T>, draw: nat): (r: T)
    requires s != []
    ensures r in s
  {
    s[draw % |s|]
  }

  /** Every element of the list is chosen by some draw. */
  lemma ChoiceReaches<T>(s: seq<T>, v: T)
    requires v in s
    ensures exists draw: nat :: Choice(s, draw) == v
  {
    var i :| 0 <= i < |s| && s[i] == v;
    ModSmall(i, |s|);
    assert Choice(s, i) == v;
  }

  lemma ModSmall(i: nat, n: nat)
    requires i < n
    ensures i % n == i
  {
  }

  /**
   * The fallback of `get_move`: a cell of `empty_positions` chosen by the
   * draw with the apology as reasoning, or no cell when the board is full.
   */
  function Fallback(b: Grid, draw: nat): (r: Answer)
    requires IsGrid(b)
    ensures r.cell.Some? ==> IsOpen(b, r.cell.value.0, r.cell.value.1) && r.reasoning == RandomReason
    ensures r.cell.None? <==> Full(b)
    ensures r.cell.None? ==> r.reasoning == NoRoomReason
  {
    var empty := EmptyPositions(b);
    if empty == [] then Answer(None, NoRoomReason)
    else Answer(Some(Choice(empty, draw)), RandomReason)
  }

  /** The reply is usable: it decodes to a cell on the board that is empty. */
  predicate Accepts(b: Grid, d: Decoded)
    requires IsGrid(b)
  {
    0 <= d.x < Size && 0 <= d.y < Size && b[d.y][d.x] == 0
  }

  /**
   * The move the reply of call `round` decodes to: `None` when the request
   * fails, or when `json.loads` or the unpacking of `move` raises on the
   * text extracted from the reply.
   */
  function DecodeReply(oracle: Oracle, round: nat, agent: Agent, prompt: Prompt): (r: Option<Decoded>)
    ensures oracle.reply(round, agent, prompt).None? ==> r.None?
    ensures oracle.reply(round, agent, prompt).Some? ==> r == oracle.decode(ExtractJson(oracle.reply(round, agent, prompt).value))
  {
    match oracle.reply(round, agent, prompt)
    case None => None
    case Some(text) => oracle.decode(ExtractJson(text))
  }

  /**
   * The checks of `get_move` on a decoded move: the move itself when it is
   * on the board and its cell is empty, the fallback otherwise.
   */
  function Validate(b: Grid, d: Option<Decoded>, draw: nat): (r: Answer)
    requires IsGrid(b)
    ensures r.cell.Some? ==> IsOpen(b, r.cell.value.0, r.cell.value.1)
    ensures r.cell.None? <==> Full(b)
    ensures r.cell.None? ==> r.reasoning == NoRoomReason
    ensures d.Some? && Accepts(b, d.value) ==> r == Answer(Some((d.value.x, d.value.y)), d.value.reasoning.GetOr(DefaultReason))
    ensures d.None? || !Accepts(b, d.value) ==> r == Fallback(b, draw)
  {
    if d.Some? && Accepts(b, d.value) then
      assert !Full(b) by {
        assert b[d.value.y][d.value.x] == 0;
      }
      Answer(Some((d.value.x, d.value.y)), d.value.reasoning.GetOr(DefaultReason))
    else
      Fallback(b, draw)
  }

  /**
   * `get_move(board, current_player, moves_history, chat_history)` on call
   * number `round`: the decoded reply when it names an empty cell on the
   * board, the fallback otherwise. It never returns an occupied or off-board
   * cell, and it returns no cell exactly when the board is full.
   */
  function GetMove(agent: Agent, oracle: Oracle, round: nat, b: Grid, player: int, moves: seq<Move>, chat: seq<Chat>): (r: Answer)
    requires IsGrid(b)
    ensures r.cell.Some? ==> IsOpen(b, r.cell.value.0, r.cell.value.1)
    ensures r.cell.None? <==> Full(b)
    ensures r.cell.None? ==> r.reasoning == NoRoomReason
    ensures var d := DecodeReply(oracle, round, agent, CreatePrompt(b, player, moves, Some(chat)));
      d.Some? && Accepts(b, d.value) ==> r == Answer(Some((d.value.x, d.value.y)), d.value.reasoning.GetOr(DefaultReason))
    ensures var d := DecodeReply(oracle, round, agent, CreatePrompt(b, player, moves, Some(chat)));
      !(d.Some? && Accepts(b, d.value)) ==> r == Fallback(b, oracle.draw(round))
  {
    var prompt := CreatePrompt(b, player, moves, Some(chat));
    Validate(b, DecodeReply(oracle, round, agent, prompt), oracle.draw(round))
  }
}
