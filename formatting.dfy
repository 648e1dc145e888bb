/**
 * The module-level text formatters of the AI player: the board drawing, the
 * move list and the chat excerpt that go into the prompt. Each is a spec
 * function describing the text and a method that builds it the way the
 * source does, by appending to a string inside a loop.
 */
module Formatting {
  import opened Wrappers
  import opened Text
  import opened Board

  // ---------------------------------------------------------------- board

  /** The symbol drawn for a cell: black, white, anything else a dot. */
  function CellSymbol(v: int): char {
    if v == 1 then '●' else if v == 2 then '○' else '·'
  }

  /** `" ".join(sym(cell) for cell in row)`: the symbols of a row, a blank between neighbours. */
  function Cells(row: seq<int>, sym: int -> char): string {
    if |row| == 0 then ""
    else if |row| == 1 then [sym(row[0])]
    else [sym(row[0]), ' '] + Cells(row[1..], sym)
  }

  /** The column labels `0 .. 18`, each in width two, as `range(19)` gives them. */
  function ColumnLabels(): seq<string> {
    seq(Size, i => Width2(i))
  }

  /** The line of column labels above the rows. */
  function ColumnHeader(): string {
    "   " + Join(" ", ColumnLabels()) + "\n"
  }

  /** The line of row `i`: its label, a blank, its cells. */
  function RowLine(i: int, row: seq<int>, sym: int -> char): string {
    Width2(i) + " " + Cells(row, sym) + "\n"
  }

  /** The lines of the first `n` rows. */
  function BoardRows(b: seq<seq<int>>, n: nat, sym: int -> char): string
    requires n <= |b|
  {
    if n == 0 then "" else BoardRows(b, n - 1, sym) + RowLine(n - 1, b[n - 1], sym)
  }

  const BoardTitle := "当前棋盘状态：\n\n"

  /** The text `format_board_state(board)` returns. */
  function BoardText(b: seq<seq<int>>): string {
    BoardTitle + ColumnHeader() + BoardRows(b, |b|, CellSymbol)
  }

  /**
   * The drawing of a row has a symbol at every even position (the symbol of
   * the matching cell) and a blank between neighbours.
   */
  lemma {:induction false} CellsAt(row: seq<int>, sym: int -> char, j: int)
    requires 0 <= j < |row|
    ensures |Cells(row, sym)| == 2 * |row| - 1
    ensures Cells(row, sym)[2 * j] == sym(row[j])
    ensures j + 1 < |row| ==> Cells(row, sym)[2 * j + 1] == ' '
  {
    if j > 0 {
      CellsAt(row[1..], sym, j - 1);
    } else if |row| > 1 {
      CellsAt(row[1..], sym, 0);
    }
  }

  /**
   * Every row line of a board of at most 100 rows is laid out alike: a label
   * of width two, a blank, cell `j` at column `3 + 2j`, and a final newline.
   */
  lemma RowLineLayout(i: int, row: seq<int>, sym: int -> char, j: int)
    requires 0 <= i < 100 && 0 <= j < |row|
    ensures |RowLine(i, row, sym)| == 2 * |row| + 3
    ensures RowLine(i, row, sym)[3 + 2 * j] == sym(row[j])
    ensures RowLine(i, row, sym)[2] == ' ' && RowLine(i, row, sym)[|RowLine(i, row, sym)| - 1] == '\n'
  {
    CellsAt(row, sym, j);
    assert |NatToString(i)| <= 2 by {
      if i >= 10 { assert i / 10 < 10; }
    }
  }

  /** One more row adds its line, written as the label, the cells and the newline. */
  lemma BoardRowsStep(b: seq<seq<int>>, i: nat, sym: int -> char, head: string, prefix: string, cells: string)
    requires i < |b| && prefix == Width2(i) + " " && cells == Cells(b[i], sym)
    ensures head + BoardRows(b, i + 1, sym) == head + BoardRows(b, i, sym) + prefix + cells + "\n"
  {
    assert RowLine(i, b[i], sym) == prefix + cells + "\n";
    AppendThree(head, BoardRows(b, i, sym), prefix, cells, "\n");
  }

  lemma AppendThree(head: string, rows: string, a: string, b: string, c: string)
    ensures head + (rows + (a + b + c)) == head + rows + a + b + c
  {
  }

  /** `format_board_state(board)`, built line by line. */
  method FormatBoardState(board: seq<seq<int>>) returns (formatted: string)
    ensures formatted == BoardText(board)
  {
    formatted := BoardTitle;
    formatted := formatted + ColumnHeader();
    ghost var head := formatted;
    var i := 0;
    while i < |board|
      invariant 0 <= i <= |board|
      invariant formatted == head + BoardRows(board, i, CellSymbol)
    {
      var prefix, cells := Width2(i) + " ", Cells(board[i], CellSymbol);
      BoardRowsStep(board, i, CellSymbol, head, prefix, cells);
      formatted := formatted + prefix;
      formatted := formatted + cells;
      formatted := formatted + "\n";
      i := i + 1;
    }
  }

  // ---------------------------------------------------------------- moves

  /** The colour word of a move: black exactly for player 1. */
  function ColorWord(player: int): (w: string)
    ensures w == "黑棋" <==> player == 1
  {
    if player == 1 then "黑棋" else "白棋"
  }

  /** `f"- {color}：({x}, {y})\n"` */
  function MoveLine(m: Move): string {
    "- " + ColorWord(m.player) + "：(" + IntToString(m.x) + ", " + IntToString(m.y) + ")\n"
  }

  const NoMovesText := "暂无历史移动"
  const MovesTitle := "历史移动记录：\n"

  /**
   * The text `format_moves_history(moves)` returns: a fixed sentence for no
   * moves, otherwise the title followed by one line per move in order.
   */
  function MovesText(moves: seq<Move>): string {
    if moves == [] then NoMovesText else MovesTitle + Concat(moves, MoveLine)
  }

  /** The fixed sentence is never the text of a non-empty history. */
  lemma MovesTextEmpty(moves: seq<Move>)
    ensures MovesText(moves) == NoMovesText <==> moves == []
  {
    if moves != [] {
      assert MovesText(moves)[0] != NoMovesText[0];
    }
  }

  /** `format_moves_history(moves)`, built line by line. */
  method FormatMovesHistory(moves: seq<Move>) returns (formatted: string)
    ensures formatted == MovesText(moves)
  {
    if |moves| == 0 {
      return NoMovesText;
    }
    formatted := MovesTitle;
    var i := 0;
    while i < |moves|
      invariant 0 <= i <= |moves|
      invariant formatted == MovesTitle + Concat(moves[..i], MoveLine)
    {
      ConcatSnoc(moves, i, MoveLine);
      formatted := formatted + MoveLine(moves[i]);
      i := i + 1;
    }
    assert moves[..i] == moves;
  }

  // ----------------------------------------------------------------- chat

  /** The speaker word of a chat record: black exactly for player 1. */
  function SpeakerWord(player: int): (w: string)
    ensures w == "黑方" <==> player == 1
  {
    if player == 1 then "黑方" else "白方"
  }

  /** `f"- {player}：{msg['message']}\n"` */
  function ChatLine(c: Chat): string {
    "- " + SpeakerWord(c.player) + "：" + c.message + "\n"
  }

  /** How many messages the prompt shows. */
  const ChatShown := 5

  /** `chat_history[:5]`: the first five, or all of them when there are fewer. */
  function FirstShown(cs: seq<Chat>): (r: seq<Chat>)
    ensures |r| <= ChatShown && r <= cs
    ensures |cs| <= ChatShown ==> r == cs
    ensures |cs| > ChatShown ==> r == cs[..ChatShown]
  {
    if |cs| <= ChatShown then cs else cs[..ChatShown]
  }

  const ChatTitle := "\n最近对话记录：\n"

  /**
   * The text `format_chat_history(chat_history)` returns: empty for no
   * history (None or an empty list), otherwise the title and one line for
   * each of the first five messages.
   */
  function ChatText(chat: Option<seq<Chat>>): (r: string)
    ensures r == "" <==> chat.None? || chat.value == []
  {
    if chat.None? || chat.value == [] then ""
    else ChatTitle + Concat(FirstShown(chat.value), ChatLine)
  }

  /** Messages after the fifth never reach the text. */
  lemma ChatTextIgnoresLater(cs: seq<Chat>, later: seq<Chat>)
    requires |cs| >= ChatShown
    ensures ChatText(Some(cs + later)) == ChatText(Some(cs))
  {
    assert FirstShown(cs + later) == cs[..ChatShown] == FirstShown(cs);
  }

  /** `format_chat_history(chat_history)`, built line by line. */
  method FormatChatHistory(chat: Option<seq<Chat>>) returns (formatted: string)
    ensures formatted == ChatText(chat)
  {
    if chat.None? || |chat.value| == 0 {
      return "";
    }
    var shown := FirstShown(chat.value);
    formatted := ChatTitle;
    var i := 0;
    while i < |shown|
      invariant 0 <= i <= |shown|
      invariant formatted == ChatTitle + Concat(shown[..i], ChatLine)
    {
      ConcatSnoc(shown, i, ChatLine);
      formatted := formatted + ChatLine(shown[i]);
      i := i + 1;
    }
    assert shown[..i] == shown;
  }
}
