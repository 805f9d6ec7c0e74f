/** The string operations the path assembly uses: `Array.prototype.join`,
    the global replacements `.replace(/{{/g, '{')` and `.replace(/}}/g, '}')`,
    and `toLowerCase` on HTTP method names. */
module Text {

  /** `segs.join(sep)`. */
  function Join(segs: seq<string>, sep: char): (r: string)
  {
    if |segs| == 0 then ""
    else if |segs| == 1 then segs[0]
    else segs[0] + [sep] + Join(segs[1..], sep)
  }

  /** `s.replace(/cc/g, c)`: scanning left to right, every non-overlapping
      occurrence of two `c` in a row becomes one `c`. */
  function Collapse(s: string, c: char): (r: string)
    decreases |s|
  {
    if |s| >= 2 && s[0] == c && s[1] == c then [c] + Collapse(s[2..], c)
    else if s == [] then []
    else [s[0]] + Collapse(s[1..], c)
  }

  /** A string without `c` is left as it is. */
  lemma {:induction false} CollapseWithout(s: string, c: char)
    requires c !in s
    ensures Collapse(s, c) == s
    decreases |s|
  {
    if s != [] {
      assert s[0] != c;
      CollapseWithout(s[1..], c);
    }
  }

  /** The replacement works piecewise as long as the cut does not fall
      between two `c`. */
  lemma {:induction false} CollapseAppend(a: string, b: string, c: char)
    requires a == [] || b == [] || a[|a| - 1] != c || b[0] != c
    ensures Collapse(a + b, c) == Collapse(a, c) + Collapse(b, c)
    decreases |a|, 1
  {
    if a == [] {
      assert a + b == b;
    } else if |a| >= 2 && a[0] == c && a[1] == c {
      CollapseAppendPair(a, b, c);
    } else {
      CollapseAppendOther(a, b, c);
    }
  }

  /** `CollapseAppend` when `a` starts with a pair of `c`. */
  lemma {:induction false} CollapseAppendPair(a: string, b: string, c: char)
    requires |a| >= 2 && a[0] == c && a[1] == c
    requires b == [] || a[|a| - 1] != c || b[0] != c
    ensures Collapse(a + b, c) == Collapse(a, c) + Collapse(b, c)
    decreases |a|, 0
  {
    var t := a[2..];
    assert a == [c] + ([c] + t);
    assert a + b == [c] + ([c] + (t + b));
    CollapseCons(c, [c] + t, c);
    CollapseCons(c, [c] + (t + b), c);
    assert ([c] + t)[1..] == t;
    assert ([c] + (t + b))[1..] == t + b;
    assert t == [] || t[|t| - 1] == a[|a| - 1];
    CollapseAppend(t, b, c);
    ConsConcat(c, Collapse(t, c), Collapse(b, c));
  }

  /** `CollapseAppend` when `a` starts with anything else. */
  lemma {:induction false} CollapseAppendOther(a: string, b: string, c: char)
    requires a != [] && !(|a| >= 2 && a[0] == c && a[1] == c)
    requires b == [] || a[|a| - 1] != c || b[0] != c
    ensures Collapse(a + b, c) == Collapse(a, c) + Collapse(b, c)
    decreases |a|, 0
  {
    var x, t := a[0], a[1..];
    assert a == [x] + t;
    assert a + b == [x] + (t + b);
    CollapseCons(x, t, c);
    CollapseCons(x, t + b, c);
    assert t != [] ==> (t + b)[0] == t[0];
    assert t == [] ==> t + b == b;
    assert t == [] || t[|t| - 1] == a[|a| - 1];
    CollapseAppend(t, b, c);
    ConsConcat(x, Collapse(t, c), Collapse(b, c));
  }

  /** One step of the scan at the head of a string. */
  lemma CollapseCons(x: char, s: string, c: char)
    ensures Collapse([x] + s, c)
      == if s != [] && x == c && s[0] == c then [c] + Collapse(s[1..], c) else [x] + Collapse(s, c)
  {
    var u := [x] + s;
    assert u[1..] == s;
    if s != [] {
      assert u[2..] == s[1..];
    }
  }

  /** Splitting off the head of a concatenation. */
  lemma ConsConcat(x: char, a: string, b: string)
    ensures ([x] + a) + b == [x] + (a + b)
  {
  }

  /** The replacement applied to every segment. */
  function CollapseEach(segs: seq<string>, c: char): (r: seq<string>)
    ensures |r| == |segs|
    ensures forall i :: 0 <= i < |segs| ==> r[i] == Collapse(segs[i], c)
  {
    seq(|segs|, i requires 0 <= i < |segs| => Collapse(segs[i], c))
  }

  /** Replacing around one separator that is not `c`. */
  lemma CollapseAround(x: string, sep: char, y: string, c: char)
    requires sep != c
    ensures Collapse(x + [sep] + y, c) == Collapse(x, c) + [sep] + Collapse(y, c)
  {
    CollapseAppend([sep], y, c);
    CollapseWithout([sep], c);
    CollapseAppend(x, [sep] + y, c);
    assert x + [sep] + y == x + ([sep] + y);
  }

  /** Since the separator is not `c`, replacing in the joined string is the
      same as joining the replaced segments. */
  lemma {:induction false} CollapseJoin(segs: seq<string>, sep: char, c: char)
    requires sep != c
    ensures Collapse(Join(segs, sep), c) == Join(CollapseEach(segs, c), sep)
    decreases |segs|
  {
    if |segs| >= 2 {
      CollapseAround(segs[0], sep, Join(segs[1..], sep), c);
      CollapseJoin(segs[1..], sep, c);
      assert CollapseEach(segs[1..], c) == CollapseEach(segs, c)[1..];
    }
  }

  predicate IsUpper(ch: char) {
    'A' <= ch <= 'Z'
  }

  function LowerChar(ch: char): (r: char)
    ensures !IsUpper(r)
    ensures IsUpper(ch) ==> r as int == ch as int + 32
    ensures !IsUpper(ch) ==> r == ch
  {
    if IsUpper(ch) then (ch as int + 32) as char else ch
  }

  /** `s.toLowerCase()` on the ASCII letters. */
  function AsciiLower(s: string): (r: string)
    ensures |r| == |s|
    ensures forall i :: 0 <= i < |s| ==> r[i] == LowerChar(s[i])
  {
    seq(|s|, i requires 0 <= i < |s| => LowerChar(s[i]))
  }

  /** Lowering twice is lowering once, and the result has no upper-case
      ASCII letter. */
  lemma AsciiLowerIdempotent(s: string)
    ensures AsciiLower(AsciiLower(s)) == AsciiLower(s)
    ensures forall i :: 0 <= i < |s| ==> !IsUpper(AsciiLower(s)[i])
  {
  }
}
