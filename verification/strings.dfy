/**
 Substring search as Go's `strings.Index` and `strings.Contains` perform it:
 a plain scan for the first position at which the pattern occurs, with no
 knowledge of the text's structure (markdown lists, lines, code blocks).
 */
module Strings {

  /** `sub` occurs in `s` starting at position `i`. */
  predicate OccursAt<T(==)>(s: seq<T>, sub: seq<T>, i: int)
  {
    0 <= i && i + |sub| <= |s| && s[i..i + |sub|] == sub
  }

  /** Reference definition of containment: some position holds an occurrence. */
  ghost predicate Occurs<T>(s: seq<T>, sub: seq<T>)
  {
    exists i :: OccursAt(s, sub, i)
  }

  /** Dropping the first element shifts every occurrence one place to the left. */
  lemma OccursAtTail<T>(s: seq<T>, sub: seq<T>, j: int)
    requires |s| > 0 && 0 <= j
    ensures OccursAt(s, sub, j + 1) <==> OccursAt(s[1..], sub, j)
  {
  }

  /** The position of the first occurrence of `sub` in `s`, or -1 when there
      is none. Like Go's `strings.Index`, except that the position counts
      characters where Go counts UTF-8 bytes; only the sign is used, by
      `Contains`. */
  function Index<T(==)>(s: seq<T>, sub: seq<T>): (r: int)
    ensures r == -1 || OccursAt(s, sub, r)
    ensures forall j :: 0 <= j && (r == -1 || j < r) ==> !OccursAt(s, sub, j)
    decreases |s|
  {
    if |s| < |sub| then
      -1
    else if s[..|sub|] == sub then
      0
    else
      var k := Index(s[1..], sub);
      assert s[0..|sub|] == s[..|sub|];
      forall i | 1 <= i && (k == -1 || i <= k)
        ensures !OccursAt(s, sub, i)
      {
        OccursAtTail(s, sub, i - 1);
      }
      if k == -1 then
        -1
      else
        OccursAtTail(s, sub, k);
        k + 1
  }

  /** Go's `strings.Contains`: `Index(s, sub) >= 0`. */
  function Contains<T(==)>(s: seq<T>, sub: seq<T>): (r: bool)
    ensures r <==> Occurs(s, sub)
  {
    var k := Index(s, sub);
    assert k >= 0 ==> OccursAt(s, sub, k);
    k >= 0
  }

  /** The search is not structure-aware: an occurrence anywhere is found,
      whatever surrounds it. */
  lemma {:induction false} ContainsInfix<T>(pre: seq<T>, sub: seq<T>, post: seq<T>)
    ensures Contains(pre + sub + post, sub)
  {
    var s := pre + sub + post;
    assert s[|pre|..|pre| + |sub|] == sub;
    assert OccursAt(s, sub, |pre|);
  }

  /** Extending the text on either side keeps every occurrence. */
  lemma {:induction false} ContainsExtend<T>(pre: seq<T>, s: seq<T>, post: seq<T>, sub: seq<T>)
    requires Contains(s, sub)
    ensures Contains(pre + s + post, sub)
  {
    var i :| OccursAt(s, sub, i);
    var t := pre + s + post;
    assert t[|pre| + i..|pre| + i + |sub|] == s[i..i + |sub|];
    assert OccursAt(t, sub, |pre| + i);
  }
}
