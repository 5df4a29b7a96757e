/** Order-preserving selection from a sequence, and the position of the first match. */
module Sequences {
  import opened Base

  /** The elements of s that satisfy p, in their order in s. */
  function Filter<T>(s: seq<T>, p: T -> bool): (r: seq<T>)
    ensures |r| <= |s|
    ensures forall i :: 0 <= i < |r| ==> r[i] in s && p(r[i])
    ensures forall i :: 0 <= i < |s| && p(s[i]) ==> s[i] in r
    decreases |s|
  {
    if s == [] then [] else (if p(s[0]) then [s[0]] else []) + Filter(s[1..], p)
  }

  /** Filtering distributes over concatenation: together with the one-element case this is
      what "in the order of s" means. */
  lemma {:induction false} FilterAppend<T>(a: seq<T>, b: seq<T>, p: T -> bool)
    ensures Filter(a + b, p) == Filter(a, p) + Filter(b, p)
    decreases |a|
  {
    if a == [] {
      assert a + b == b;
    } else {
      assert (a + b)[1..] == a[1..] + b;
      FilterAppend(a[1..], b, p);
    }
  }

  /** Nothing is selected when nothing matches. */
  lemma FilterNone<T>(s: seq<T>, p: T -> bool)
    requires forall i :: 0 <= i < |s| ==> !p(s[i])
    ensures Filter(s, p) == []
  {
  }

  /** Filtering by a weaker condition first changes nothing; with q == p this is idempotence. */
  lemma {:induction false} FilterNested<T>(s: seq<T>, p: T -> bool, q: T -> bool)
    requires forall x :: q(x) ==> p(x)
    ensures Filter(Filter(s, p), q) == Filter(s, q)
    decreases |s|
  {
    if s != [] {
      var head := if p(s[0]) then [s[0]] else [];
      FilterAppend(head, Filter(s[1..], p), q);
      FilterNested(s[1..], p, q);
    }
  }

  /** When k is the first match, the selection is s[k] followed by the matches after k. */
  lemma {:induction false} FilterAtFirst<T>(s: seq<T>, p: T -> bool, k: nat)
    requires k < |s| && p(s[k])
    requires forall j :: 0 <= j < k ==> !p(s[j])
    ensures Filter(s, p) == [s[k]] + Filter(s[k + 1..], p)
  {
    assert s == s[..k] + ([s[k]] + s[k + 1..]);
    FilterAppend(s[..k], [s[k]] + s[k + 1..], p);
    FilterAppend([s[k]], s[k + 1..], p);
    FilterNone(s[..k], p);
    assert [s[k]][1..] == [];
  }

  /** Replacing an element that does not match by another that does not match leaves the
      selection as it was. */
  lemma {:induction false} FilterUpdateUnselected<T>(s: seq<T>, p: T -> bool, k: nat, v: T)
    requires k < |s| && !p(s[k]) && !p(v)
    ensures Filter(s[k := v], p) == Filter(s, p)
  {
    var t := s[k := v];
    assert s == s[..k] + ([s[k]] + s[k + 1..]);
    assert t == s[..k] + ([v] + s[k + 1..]);
    FilterAppend(s[..k], [s[k]] + s[k + 1..], p);
    FilterAppend([s[k]], s[k + 1..], p);
    FilterAppend(s[..k], [v] + s[k + 1..], p);
    FilterAppend([v], s[k + 1..], p);
    assert [s[k]][1..] == [] && [v][1..] == [];
  }

  /** k is the position of the first element of s that satisfies p. */
  predicate IsFirst<T>(s: seq<T>, p: T -> bool, k: int) {
    0 <= k < |s| && p(s[k]) && forall j :: 0 <= j < k ==> !p(s[j])
  }

  /** The position of the first element of s that satisfies p, if any. */
  function FirstIndex<T>(s: seq<T>, p: T -> bool): (r: Option<nat>)
    ensures r.Some? ==> IsFirst(s, p, r.value)
    ensures r.None? ==> forall j :: 0 <= j < |s| ==> !p(s[j])
    decreases |s|
  {
    if s == [] then None
    else if p(s[0]) then Some(0)
    else match FirstIndex(s[1..], p)
      case None => None
      case Some(k) => Some(k + 1)
  }

  /** The first match is the head of the selection, and there is one exactly when the selection
      is not empty. */
  lemma {:induction false} FirstIndexHeadsFilter<T>(s: seq<T>, p: T -> bool)
    ensures FirstIndex(s, p).Some? <==> Filter(s, p) != []
    ensures FirstIndex(s, p).Some? ==> Filter(s, p)[0] == s[FirstIndex(s, p).value]
  {
    match FirstIndex(s, p)
    case None => FilterNone(s, p);
    case Some(k) => FilterAtFirst(s, p, k);
  }
}
