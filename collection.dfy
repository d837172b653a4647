/** The two MongoDB reads the handlers use, over a collection held in storage
    order: `find(filter)` keeps every matching document, `find_one(filter)` and
    `update_one(filter, ...)` act on the first matching one. */
module Collection {
  import opened Wrappers

  /** The position of the first element that satisfies `p`. */
  function FirstMatch<T>(s: seq<T>, p: T -> bool): (r: Option<nat>)
    ensures r.Some? ==> r.value < |s| && p(s[r.value])
    ensures r.Some? ==> forall j :: 0 <= j < r.value ==> !p(s[j])
    ensures r.None? <==> forall j :: 0 <= j < |s| ==> !p(s[j])
  {
    if s == [] then None
    else if p(s[0]) then Some(0)
    else
      match FirstMatch(s[1..], p)
      case None => None
      case Some(k) => Some(k + 1)
  }

  /** When at most one element satisfies `p`, the first match is any match. */
  lemma FirstMatchIsTheMatch<T>(s: seq<T>, p: T -> bool, i: nat)
    requires forall j, k :: 0 <= j < k < |s| && p(s[j]) ==> !p(s[k])
    requires i < |s| && p(s[i])
    ensures FirstMatch(s, p) == Some(i)
  {
  }

  /** An element appended after no match is the first match. */
  lemma {:induction false} FirstMatchAppended<T>(s: seq<T>, x: T, p: T -> bool)
    requires FirstMatch(s, p).None?
    requires p(x)
    ensures FirstMatch(s + [x], p) == Some(|s|)
  {
    var t := s + [x];
    assert t[|s|] == x;
    forall j | 0 <= j < |s| ensures !p(t[j]) {
      assert t[j] == s[j];
    }
  }

  /** The elements that satisfy `p`, in their original order. */
  function Filter<T>(s: seq<T>, p: T -> bool): (r: seq<T>)
    ensures |r| <= |s|
    ensures forall i :: 0 <= i < |r| ==> p(r[i])
  {
    if s == [] then []
    else Filter(s[..|s| - 1], p) + (if p(s[|s| - 1]) then [s[|s| - 1]] else [])
  }

  /** Filtering distributes over concatenation. */
  lemma {:induction false} FilterConcat<T>(a: seq<T>, b: seq<T>, p: T -> bool)
    ensures Filter(a + b, p) == Filter(a, p) + Filter(b, p)
    decreases |b|
  {
    if b == [] {
      assert a + b == a;
    } else {
      var b' := b[..|b| - 1];
      assert (a + b)[..|a + b| - 1] == a + b';
      assert (a + b)[|a + b| - 1] == b[|b| - 1];
      FilterConcat(a, b', p);
    }
  }

  /** An element is kept exactly when it occurs in the input and satisfies `p`. */
  lemma {:induction false} FilterMembers<T>(s: seq<T>, p: T -> bool)
    ensures forall x :: x in Filter(s, p) <==> x in s && p(x)
    decreases |s|
  {
    if s != [] {
      var init := s[..|s| - 1];
      assert s == init + [s[|s| - 1]];
      FilterMembers(init, p);
    }
  }

  /** A filter that keeps nothing of the input gives the empty sequence. */
  lemma {:induction false} FilterNone<T>(s: seq<T>, p: T -> bool)
    requires forall i :: 0 <= i < |s| ==> !p(s[i])
    ensures Filter(s, p) == []
    decreases |s|
  {
    if s != [] {
      FilterNone(s[..|s| - 1], p);
    }
  }
}
