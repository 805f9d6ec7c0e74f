/** Path-segment placeholders `{{name}}`: the test `indexOf('{{') !== -1` and
    the capture group of the regular expression `/{{(.*)}}/`, whose `.*` is
    greedy and, as in every JavaScript regular expression without the `s`
    flag, does not match a line terminator. */
module Placeholder {
  import opened Wrappers

  predicate OpenAt(s: string, i: int) {
    0 <= i && i + 2 <= |s| && s[i] == '{' && s[i + 1] == '{'
  }

  predicate CloseAt(s: string, j: int) {
    0 <= j && j + 2 <= |s| && s[j] == '}' && s[j + 1] == '}'
  }

  /** `s.indexOf('{{') !== -1`. */
  predicate HasOpen(s: string) {
    exists i | 0 <= i < |s| :: OpenAt(s, i)
  }

  /** The characters JavaScript's `.` refuses to match. */
  predicate IsLineTerminator(ch: char) {
    ch == '\n' || ch == '\r' || ch == '\U{2028}' || ch == '\U{2029}'
  }

  predicate NoLineTerminator(s: string) {
    forall m :: 0 <= m < |s| ==> !IsLineTerminator(s[m])
  }

  /** The first line terminator at or after `k`, or the end of `s`: how far
      `.*` can reach from `k`. */
  function LineEnd(s: string, k: nat): (e: nat)
    requires k <= |s|
    ensures k <= e <= |s|
    ensures forall m :: k <= m < e ==> !IsLineTerminator(s[m])
    ensures e < |s| ==> IsLineTerminator(s[e])
    decreases |s| - k
  {
    if k == |s| || IsLineTerminator(s[k]) then k else LineEnd(s, k + 1)
  }

  /** The last `}}` that starts at or after `lo` and ends by `hi`: the
      greedy `.*` backs off from `hi` until `}}` matches. */
  function LastClose(s: string, lo: nat, hi: nat): (r: Option<nat>)
    requires hi <= |s|
    ensures r.Some? ==> lo <= r.value && r.value + 2 <= hi && CloseAt(s, r.value)
    ensures r.Some? ==> forall k :: r.value < k && k + 2 <= hi ==> !CloseAt(s, k)
    ensures r.None? ==> forall k :: lo <= k && k + 2 <= hi ==> !CloseAt(s, k)
    decreases hi
  {
    if hi < lo + 2 then None
    else if CloseAt(s, hi - 2) then Some(hi - 2)
    else LastClose(s, lo, hi - 1)
  }

  /** The regular-expression search started at position `i`: the leftmost
      `{{` from which a `}}` is reachable on the same line wins. */
  function MatchFrom(s: string, i: nat): (r: Option<string>)
    requires i <= |s|
    decreases |s| - i
  {
    if i + 2 > |s| then None
    else if OpenAt(s, i) then
      match LastClose(s, i + 2, LineEnd(s, i + 2))
      case Some(j) => Some(s[i + 2..j])
      case None => MatchFrom(s, i + 1)
    else MatchFrom(s, i + 1)
  }

  /** `s.match(/{{(.*)}}/)[1]`, or `None` when `match` returns `null`. */
  function MatchBraces(s: string): Option<string> {
    MatchFrom(s, 0)
  }

  /** Whatever the segment, a capture is the text between some `{{` and a
      later `}}`. */
  lemma MatchBracesBetween(s: string)
    ensures MatchBraces(s).Some? ==>
      exists k, j :: k + 2 <= j && OpenAt(s, k) && CloseAt(s, j) && MatchBraces(s).value == s[k + 2..j]
  {
    if MatchBraces(s).Some? {
      var k, j := MatchFromBetween(s, 0);
    }
  }

  /** The `{{` and `}}` around what the search from `i` captures. */
  lemma {:induction false} MatchFromBetween(s: string, i: nat) returns (k: nat, j: nat)
    requires i <= |s| && MatchFrom(s, i).Some?
    ensures i <= k && k + 2 <= j && OpenAt(s, k) && CloseAt(s, j) && MatchFrom(s, i).value == s[k + 2..j]
    decreases |s| - i
  {
    if OpenAt(s, i) && LastClose(s, i + 2, LineEnd(s, i + 2)).Some? {
      k, j := i, LastClose(s, i + 2, LineEnd(s, i + 2)).value;
    } else {
      k, j := MatchFromBetween(s, i + 1);
    }
  }

  /** Without a line terminator, `.*` reaches the end of the segment. */
  lemma LineEndWithout(s: string, k: nat)
    requires k <= |s| && NoLineTerminator(s)
    ensures LineEnd(s, k) == |s|
  {
  }

  /** From any start at or before the first `{{`, the search finds that `{{`
      and pairs it with the last `}}`. */
  lemma {:induction false} MatchFromFirstOpen(s: string, p: nat, i: nat, j: nat)
    requires NoLineTerminator(s)
    requires p <= i && OpenAt(s, i) && CloseAt(s, j) && i + 2 <= j
    requires forall k :: p <= k < i ==> !OpenAt(s, k)
    requires forall k :: j < k ==> !CloseAt(s, k)
    ensures MatchFrom(s, p) == Some(s[i + 2..j])
    decreases i - p
  {
    LineEndWithout(s, p + 2);
    if p < i {
      assert !OpenAt(s, p);
      MatchFromFirstOpen(s, p + 1, i, j);
    } else {
      var r := LastClose(s, i + 2, |s|);
      assert r == Some(j);
    }
  }

  /** In a single-line segment the captured name is the text between the
      first `{{` and the last `}}` after it. */
  lemma MatchBracesGreedy(s: string, i: nat, j: nat)
    requires NoLineTerminator(s)
    requires OpenAt(s, i) && CloseAt(s, j) && i + 2 <= j
    requires forall k :: 0 <= k < i ==> !OpenAt(s, k)
    requires forall k :: j < k ==> !CloseAt(s, k)
    ensures MatchBraces(s) == Some(s[i + 2..j])
  {
    MatchFromFirstOpen(s, 0, i, j);
  }

  /** A `{{` with a `}}` after it on the same line makes the search succeed. */
  lemma {:induction false} MatchFromSome(s: string, p: nat, i: nat, j: nat)
    requires NoLineTerminator(s)
    requires p <= i && OpenAt(s, i) && CloseAt(s, j) && i + 2 <= j
    ensures MatchFrom(s, p).Some?
    decreases i - p
  {
    LineEndWithout(s, p + 2);
    if !OpenAt(s, p) || LastClose(s, p + 2, |s|).None? {
      assert p < i;
      MatchFromSome(s, p + 1, i, j);
    }
  }

  /** Without a `{{` followed by a `}}`, the search fails at every start. */
  lemma {:induction false} MatchFromNone(s: string, p: nat)
    requires NoLineTerminator(s) && p <= |s|
    requires forall i, j :: OpenAt(s, i) && CloseAt(s, j) ==> j < i + 2
    ensures MatchFrom(s, p).None?
    decreases |s| - p
  {
    if p + 2 <= |s| {
      LineEndWithout(s, p + 2);
      MatchFromNone(s, p + 1);
    }
  }

  /** In a single-line segment, `match` returns `null` exactly when no `}}`
      follows a `{{`. */
  lemma MatchBracesNone(s: string)
    requires NoLineTerminator(s)
    ensures MatchBraces(s).None? <==> forall i, j :: OpenAt(s, i) && CloseAt(s, j) ==> j < i + 2
  {
    if forall i, j :: OpenAt(s, i) && CloseAt(s, j) ==> j < i + 2 {
      MatchFromNone(s, 0);
    } else {
      var i, j :| OpenAt(s, i) && CloseAt(s, j) && !(j < i + 2);
      MatchFromSome(s, 0, i, j);
    }
  }
}
