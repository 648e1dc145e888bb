/**
 * The board as a value: a 19x19 grid written row-major (`g[y][x]`), 0 for an
 * empty cell, 1 for black and 2 for white, together with the records the game
 * keeps about it. The invariant `Consistent` ties a grid to the history of
 * moves that produced it from the empty board.
 */
module Board {

  const Size: int := 19

  type Grid = seq<seq<int>>

  /** One entry of `moves_history`: the tuple `(x, y, player)`. */
  datatype Move = Move(x: int, y: int, player: int)

  /** One entry of `chat_history`: `{"type": "chat", "player": p, "message": m}`. */
  datatype Chat = Chat(player: int, message: string)

  predicate IsGrid(g: Grid) {
    |g| == Size && forall y :: 0 <= y < |g| ==> |g[y]| == Size
  }

  predicate InBounds(x: int, y: int) {
    0 <= x < Size && 0 <= y < Size
  }

  /** The test of `is_valid_move`: on the board and the cell still empty. */
  predicate IsOpen(g: Grid, x: int, y: int)
    requires IsGrid(g)
  {
    InBounds(x, y) && g[y][x] == 0
  }

  /** No cell of the board is empty. */
  predicate Full(g: Grid)
    requires IsGrid(g)
  {
    forall y, x :: 0 <= y < Size && 0 <= x < Size ==> g[y][x] != 0
  }

  /** `[[0 for _ in range(19)] for _ in range(19)]` */
  function EmptyGrid(): (g: Grid)
    ensures IsGrid(g)
    ensures forall y, x :: InBounds(x, y) ==> g[y][x] == 0
  {
    seq(Size, _ => seq(Size, _ => 0))
  }

  /** `board[y][x] = p`: one cell written, every other cell kept. */
  function Place(g: Grid, x: int, y: int, p: int): (r: Grid)
    requires IsGrid(g) && InBounds(x, y)
    ensures IsGrid(r)
    ensures r[y][x] == p
    ensures forall y', x' :: InBounds(x', y') && (x' != x || y' != y) ==> r[y'][x'] == g[y'][x']
  {
    g[y := g[y][x := p]]
  }

  /** The number of non-zero cells of one row. */
  function RowStones(r: seq<int>): nat {
    if r == [] then 0 else (if r[0] != 0 then 1 else 0) + RowStones(r[1..])
  }

  /** The number of non-zero cells of the grid. */
  function Stones(g: Grid): nat {
    if g == [] then 0 else RowStones(g[0]) + Stones(g[1..])
  }

  /** A history entry whose cell is on the board and holds the entry's player. */
  predicate Holds(g: Grid, m: Move)
    requires IsGrid(g)
  {
    InBounds(m.x, m.y) && (m.player == 1 || m.player == 2) && g[m.y][m.x] == m.player
  }

  /**
   * The grid is what the history built from the empty board: one stone per
   * entry, every entry's cell holds its player, no two entries share a cell,
   * and every occupied cell is the cell of some entry.
   */
  ghost predicate Consistent(g: Grid, h: seq<Move>) {
    && IsGrid(g)
    && Stones(g) == |h|
    && (forall i :: 0 <= i < |h| ==> Holds(g, h[i]))
    && (forall i, j :: 0 <= i < j < |h| ==> h[i].x != h[j].x || h[i].y != h[j].y)
    && (forall y, x :: InBounds(x, y) && g[y][x] != 0 ==> exists i :: 0 <= i < |h| && h[i].x == x && h[i].y == y)
  }

  lemma {:induction false} RowStonesEmpty(r: seq<int>)
    requires forall x :: 0 <= x < |r| ==> r[x] == 0
    ensures RowStones(r) == 0
  {
    if r != [] {
      RowStonesEmpty(r[1..]);
    }
  }

  /** The empty board holds no stone, so it is consistent with the empty history. */
  lemma {:induction false} EmptyConsistent()
    ensures Consistent(EmptyGrid(), [])
  {
    var g := EmptyGrid();
    var k := |g|;
    while k > 0
      invariant 0 <= k <= |g|
      invariant Stones(g[k..]) == 0
    {
      k := k - 1;
      RowStonesEmpty(g[k]);
      assert g[k..][1..] == g[k + 1..];
    }
    assert g[0..] == g;
  }

  /** Writing a non-zero value over a zero cell adds one stone to the row. */
  lemma {:induction false} RowStonesPlace(r: seq<int>, x: int, p: int)
    requires 0 <= x < |r| && r[x] == 0 && p != 0
    ensures RowStones(r[x := p]) == RowStones(r) + 1
  {
    if x > 0 {
      assert r[x := p][1..] == r[1..][x - 1 := p];
      RowStonesPlace(r[1..], x - 1, p);
    }
  }

  /** Replacing one row changes the count by the difference of the two rows. */
  lemma {:induction false} StonesReplaceRow(g: Grid, y: int, r: seq<int>)
    requires 0 <= y < |g|
    ensures Stones(g[y := r]) == Stones(g) - RowStones(g[y]) + RowStones(r)
  {
    if y > 0 {
      assert g[y := r][1..] == g[1..][y - 1 := r];
      StonesReplaceRow(g[1..], y - 1, r);
    }
  }

  /** A stone placed on an empty cell raises the stone count by exactly one. */
  lemma StonesPlace(g: Grid, x: int, y: int, p: int)
    requires IsGrid(g) && IsOpen(g, x, y) && p != 0
    ensures Stones(Place(g, x, y, p)) == Stones(g) + 1
  {
    RowStonesPlace(g[y], x, p);
    StonesReplaceRow(g, y, g[y][x := p]);
  }

  /**
   * `make_move`'s write keeps the board consistent with the history: placing
   * the mover's stone on an open cell and appending `(x, y, player)`.
   */
  lemma PlaceKeepsConsistent(g: Grid, h: seq<Move>, x: int, y: int, p: int)
    requires Consistent(g, h) && IsOpen(g, x, y) && (p == 1 || p == 2)
    ensures Consistent(Place(g, x, y, p), h + [Move(x, y, p)])
  {
    var g', h' := Place(g, x, y, p), h + [Move(x, y, p)];
    StonesPlace(g, x, y, p);
    forall i | 0 <= i < |h'| ensures Holds(g', h'[i]) {
      if i < |h| {
        assert Holds(g, h[i]);
      }
    }
    forall y', x' | InBounds(x', y') && g'[y'][x'] != 0
      ensures exists i :: 0 <= i < |h'| && h'[i].x == x' && h'[i].y == y'
    {
      if x' == x && y' == y {
        assert h'[|h|].x == x' && h'[|h|].y == y';
      } else {
        var i :| 0 <= i < |h| && h[i].x == x' && h[i].y == y';
        assert h'[i] == h[i];
      }
    }
    forall i, j | 0 <= i < j < |h'| ensures h'[i].x != h'[j].x || h'[i].y != h'[j].y {
      if j == |h| {
        assert Holds(g, h[i]);
      }
    }
  }

  lemma {:induction false} RowStonesBound(r: seq<int>)
    ensures RowStones(r) <= |r|
    ensures RowStones(r) == |r| <==> forall x :: 0 <= x < |r| ==> r[x] != 0
  {
    if r != [] {
      RowStonesBound(r[1..]);
      assert forall x :: 0 < x < |r| ==> r[x] == r[1..][x - 1];
    }
  }

  lemma {:induction false} StonesBound(g: Grid)
    requires forall y :: 0 <= y < |g| ==> |g[y]| == Size
    ensures Stones(g) <= Size * |g|
    ensures Stones(g) == Size * |g| <==> forall y, x :: 0 <= y < |g| && 0 <= x < Size ==> g[y][x] != 0
  {
    if g != [] {
      RowStonesBound(g[0]);
      StonesBound(g[1..]);
      assert forall y :: 0 < y < |g| ==> g[y] == g[1..][y - 1];
    }
  }

  /**
   * A history consistent with the board has at most 361 moves, and the board
   * is full exactly when it has 361.
   */
  lemma HistoryBound(g: Grid, h: seq<Move>)
    requires Consistent(g, h)
    ensures |h| <= Size * Size
    ensures Full(g) <==> |h| == Size * Size
  {
    StonesBound(g);
  }

  /** Two grids that agree on every cell are the same grid. */
  lemma GridEq(g: Grid, h: Grid)
    requires IsGrid(g) && IsGrid(h)
    requires forall y, x :: 0 <= y < Size && 0 <= x < Size ==> g[y][x] == h[y][x]
    ensures g == h
  {
    forall y | 0 <= y < Size ensures g[y] == h[y] {
      assert forall x :: 0 <= x < Size ==> g[y][x] == h[y][x];
    }
  }
}
