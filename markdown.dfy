/**
 * `extract_json_from_markdown`: the reply of the model is searched for the
 * first fenced block matching the regular expression
 * "```(?:json)?\n([\s\S]*?)\n```"; its body, stripped, is the JSON text.
 * Without such a block the whole reply, stripped, is used.
 *
 * The regular expression is written out as its match semantics: the search
 * tries every start position from the left; at one position the optional
 * `json` is tried first, and since `j` is not a newline at most one opening
 * form can succeed there; the lazy body ends at the first "\n```" after it.
 */
module Markdown {
  import opened Wrappers
  import opened Text

  /** The opening fence "```json\n" or "```\n" starts at `i` and the body starts at `s`. */
  predicate Opens(t: string, i: int, s: int) {
    0 <= i && s <= |t| &&
    ((s == i + 8 && t[i..s] == "```json\n") || (s == i + 4 && t[i..s] == "```\n"))
  }

  /** The closing "\n```" starts at `k`. */
  predicate ClosesAt(t: string, k: int) {
    0 <= k && k + 4 <= |t| && t[k..k + 4] == "\n```"
  }

  /** A match of the pattern starts at `i`, with body `t[s..k]`. */
  ghost predicate BlockAt(t: string, i: int, s: int, k: int) {
    Opens(t, i, s) && s <= k && ClosesAt(t, k) && forall m :: s <= m < k ==> !ClosesAt(t, m)
  }

  /** No match of the pattern starts at or after `from`. */
  ghost predicate NoBlockFrom(t: string, from: int) {
    forall i, s, k :: from <= i && BlockAt(t, i, s, k) ==> false
  }

  /** No match of the pattern starts before `i`. */
  ghost predicate NoBlockBefore(t: string, i: int) {
    forall j, s, k :: j < i && BlockAt(t, j, s, k) ==> false
  }

  /** The body start of the opening fence at `i`, trying the `json` form first. */
  function OpeningAt(t: string, i: nat): (r: Option<nat>)
    ensures r.Some? ==> Opens(t, i, r.value)
    ensures r.Some? ==> forall s :: Opens(t, i, s) ==> s == r.value
    ensures r.None? ==> forall s :: !Opens(t, i, s)
  {
    if i + 8 <= |t| && t[i..i + 8] == "```json\n" then
      assert forall s :: Opens(t, i, s) && s == i + 4 ==> t[i + 3] == t[i..s][3] == '\n';
      Some(i + 8)
    else if i + 4 <= |t| && t[i..i + 4] == "```\n" then Some(i + 4)
    else None
  }

  /** The first closing fence at or after `k`: the lazy body stops there. */
  function FirstClose(t: string, k: nat): (r: Option<nat>)
    decreases |t| - k
    ensures r.Some? ==> k <= r.value && ClosesAt(t, r.value)
    ensures r.Some? ==> forall m :: k <= m < r.value ==> !ClosesAt(t, m)
    ensures r.None? ==> forall m :: k <= m ==> !ClosesAt(t, m)
  {
    if k + 4 > |t| then None
    else if t[k..k + 4] == "\n```" then Some(k)
    else FirstClose(t, k + 1)
  }

  /** The first match starting at or after `i`, as (start, body start, body end). */
  function FindBlock(t: string, i: nat): (r: Option<(nat, nat, nat)>)
    decreases |t| - i
    ensures r.Some? ==> i <= r.value.0 && BlockAt(t, r.value.0, r.value.1, r.value.2)
    ensures r.Some? ==> forall j, s, k :: i <= j < r.value.0 && BlockAt(t, j, s, k) ==> false
    ensures r.None? ==> NoBlockFrom(t, i)
  {
    if i + 4 > |t| then
      assert forall j, s :: i <= j ==> !Opens(t, j, s);
      None
    else
      match OpeningAt(t, i)
      case Some(s) =>
        (match FirstClose(t, s)
         case Some(k) => Some((i, s, k))
         case None => FindBlock(t, i + 1))
      case None => FindBlock(t, i + 1)
  }

  /**
   * `extract_json_from_markdown(text)`: stripped, never longer than the
   * reply, and, when the reply has no fenced block, empty exactly when the
   * reply is all whitespace.
   */
  function ExtractJson(t: string): (r: string)
    ensures |r| <= |t|
    ensures r == [] || (!IsSpace(r[0]) && !IsSpace(r[|r| - 1]))
    ensures NoBlockFrom(t, 0) ==> (r == [] <==> AllSpace(t))
  {
    Strip(Unfenced(t))
  }

  /** The text the JSON is taken from: the body of the first fenced block, or the whole reply. */
  function Unfenced(t: string): (b: string)
    ensures |b| <= |t|
    ensures NoBlockFrom(t, 0) ==> b == t
  {
    match FindBlock(t, 0)
    case Some((_, s, k)) =>
      assert s <= k && k + 4 <= |t|;
      t[s..k]
    case None => t
  }

  /** At one start position the body is determined: its start and its end. */
  lemma BlockUnique(t: string, i: int, s: int, k: int, s': int, k': int)
    requires BlockAt(t, i, s, k) && BlockAt(t, i, s', k')
    ensures s == s' && k == k'
  {
    assert OpeningAt(t, i).Some?;
  }

  /** With no fenced block in the reply, the whole reply is stripped. */
  lemma ExtractWithoutBlock(t: string)
    requires NoBlockFrom(t, 0)
    ensures ExtractJson(t) == Strip(t)
  {
    if FindBlock(t, 0).Some? {
      assert false;
    }
  }

  /** With a fenced block, the result is the stripped body of the first one. */
  lemma ExtractFirstBlock(t: string, i: int, s: int, k: int)
    requires BlockAt(t, i, s, k) && NoBlockBefore(t, i)
    ensures ExtractJson(t) == Strip(t[s..k])
  {
    match FindBlock(t, 0)
    case None =>
      assert false;
    case Some((i', s', k')) =>
      if i' < i {
        assert false;
      } else if i < i' {
        assert false;
      } else {
        BlockUnique(t, i, s, k, s', k');
      }
  }
}
