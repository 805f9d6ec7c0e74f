/** A JavaScript object whose property order matters, as an ordered list of
    (name, value) entries. `Put` is property assignment `obj[k] = v`. */
module Entries {
  import opened Wrappers

  function Keys<V>(l: seq<(string, V)>): (ks: seq<string>)
    ensures |ks| == |l|
    ensures forall i :: 0 <= i < |l| ==> ks[i] == l[i].0
  {
    seq(|l|, i requires 0 <= i < |l| => l[i].0)
  }

  predicate Distinct(ks: seq<string>) {
    forall i, j :: 0 <= i < j < |ks| ==> ks[i] != ks[j]
  }

  /** `obj[k]`: the value of the first entry named `k`. */
  function Lookup<V>(l: seq<(string, V)>, k: string): (r: Option<V>)
    ensures r.Some? <==> k in Keys(l)
  {
    if l == [] then None
    else if l[0].0 == k then Some(l[0].1)
    else
      assert Keys(l) == [l[0].0] + Keys(l[1..]);
      Lookup(l[1..], k)
  }

  /** `obj[k] = v`: an existing property keeps its place and takes the new
      value; a new property goes last. */
  function Put<V>(l: seq<(string, V)>, k: string, v: V): (r: seq<(string, V)>)
  {
    if l == [] then [(k, v)]
    else if l[0].0 == k then [(k, v)] + l[1..]
    else [l[0]] + Put(l[1..], k, v)
  }

  /** Assignment adds the name at the end exactly when it is new. */
  lemma {:induction false} PutKeys<V>(l: seq<(string, V)>, k: string, v: V)
    ensures Keys(Put(l, k, v)) == if k in Keys(l) then Keys(l) else Keys(l) + [k]
  {
    if l != [] && l[0].0 != k {
      PutKeys(l[1..], k, v);
      assert Keys(l) == [l[0].0] + Keys(l[1..]);
      assert Keys(Put(l, k, v)) == [l[0].0] + Keys(Put(l[1..], k, v));
    }
  }

  /** Reading back after an assignment sees the assigned value, and only
      under the assigned name. */
  lemma {:induction false} PutLookup<V>(l: seq<(string, V)>, k: string, v: V, k': string)
    ensures Lookup(Put(l, k, v), k') == if k' == k then Some(v) else Lookup(l, k')
  {
    if l != [] && l[0].0 != k {
      PutLookup(l[1..], k, v, k');
    }
  }

  /** Assignment to a new name appends one entry and changes nothing else. */
  lemma {:induction false} PutNew<V>(l: seq<(string, V)>, k: string, v: V)
    requires k !in Keys(l)
    ensures Put(l, k, v) == l + [(k, v)]
  {
    if l != [] {
      assert l[0].0 == Keys(l)[0];
      assert Keys(l[1..]) == Keys(l)[1..];
      PutNew(l[1..], k, v);
    }
  }

  /** Property names stay distinct under assignment. */
  lemma PutDistinct<V>(l: seq<(string, V)>, k: string, v: V)
    requires Distinct(Keys(l))
    ensures Distinct(Keys(Put(l, k, v)))
  {
    PutKeys(l, k, v);
  }
}
