/** Generic sequence facts used by the table transforms: element-wise mapping,
    and how mapping and sorting interact with permutations. */
module Seqs {
  import opened Wrappers

  /** Applies `f` to every element, keeping the order. */
  function Map<A, B>(f: A -> B, s: seq<A>): (r: seq<B>)
    ensures |r| == |s|
    ensures forall i :: 0 <= i < |s| ==> r[i] == f(s[i])
  {
    seq(|s|, i requires 0 <= i < |s| => f(s[i]))
  }

  lemma MapAppend<A, B>(f: A -> B, a: seq<A>, b: seq<A>)
    ensures Map(f, a + b) == Map(f, a) + Map(f, b)
  {
  }

  /** Mapping a permutation gives a permutation of the mapped sequence: the
      multiset of results depends only on the multiset of inputs, never on
      their order. */
  lemma {:induction false} MapPreservesMultiset<A, B>(f: A -> B, a: seq<A>, b: seq<A>)
    requires multiset(a) == multiset(b)
    ensures multiset(Map(f, a)) == multiset(Map(f, b))
    decreases |a|
  {
    if |a| == 0 {
      assert |b| == |multiset(b)| == 0;
    } else {
      var n := |a| - 1;
      var x := a[n];
      assert x in multiset(b);
      var k :| 0 <= k < |b| && b[k] == x;
      var a' := a[..n];
      var b' := b[..k] + b[k + 1..];
      assert a == a' + [x];
      assert b == b[..k] + [x] + b[k + 1..];
      assert multiset(a) == multiset(a') + multiset{x};
      assert multiset(b) == multiset(b[..k]) + multiset{x} + multiset(b[k + 1..]);
      assert multiset(b') == multiset(b[..k]) + multiset(b[k + 1..]);
      assert multiset(a') == multiset(a) - multiset{x};
      assert multiset(b') == multiset(b) - multiset{x};
      MapPreservesMultiset(f, a', b');
      MapAppend(f, a', [x]);
      MapAppend(f, b[..k] + [x], b[k + 1..]);
      MapAppend(f, b[..k], [x]);
      MapAppend(f, b[..k], b[k + 1..]);
    }
  }

  ghost predicate Ascending(s: seq<int>) {
    forall i, j :: 0 <= i < j < |s| ==> s[i] <= s[j]
  }

  /** The head of a non-empty ascending sequence is its least element. */
  lemma HeadIsLeast(s: seq<int>, v: int)
    requires Ascending(s)
    requires v in multiset(s)
    ensures |s| > 0 && s[0] <= v
  {
  }

  /** An ascending sequence of integers is determined by its multiset: two
      ascending arrangements of the same values are the same sequence. */
  lemma {:induction false} AscendingPermutationsEqual(a: seq<int>, b: seq<int>)
    requires Ascending(a) && Ascending(b)
    requires multiset(a) == multiset(b)
    ensures a == b
    decreases |a|
  {
    if |a| == 0 {
      assert |b| == |multiset(b)| == 0;
    } else {
      HeadIsLeast(b, a[0]);
      HeadIsLeast(a, b[0]);
      assert a[0] == b[0];
      assert a == [a[0]] + a[1..];
      assert b == [b[0]] + b[1..];
      assert multiset(a) == multiset{a[0]} + multiset(a[1..]);
      assert multiset(b) == multiset{b[0]} + multiset(b[1..]);
      assert multiset(a[1..]) == multiset(a) - multiset{a[0]};
      assert multiset(b[1..]) == multiset(b) - multiset{b[0]};
      assert Ascending(a[1..]) && Ascending(b[1..]);
      AscendingPermutationsEqual(a[1..], b[1..]);
    }
  }

  /** The value an option carries, as a sequence of length at most one. */
  function Maybe<B>(o: Option<B>): seq<B> {
    match o
    case None => []
    case Some(b) => [b]
  }

  /** The values of `f` on the elements where it yields one, in order: the
      rows a loop appends when some iterations bail out. */
  function Collect<A, B>(f: A -> Option<B>, s: seq<A>): (r: seq<B>)
    ensures |r| <= |s|
  {
    if |s| == 0 then []
    else
      var n := |s| - 1;
      Collect(f, s[..n]) + Maybe(f(s[n]))
  }

  /** The positions at which `f` yields a value, in ascending order. */
  function Hits<A, B>(f: A -> Option<B>, s: seq<A>): (r: seq<nat>)
    ensures forall k :: 0 <= k < |r| ==> r[k] < |s|
    ensures forall k, l :: 0 <= k < l < |r| ==> r[k] < r[l]
    ensures forall i :: 0 <= i < |s| ==> (i in r <==> f(s[i]).Some?)
  {
    if |s| == 0 then []
    else
      var n := |s| - 1;
      var pre := Hits(f, s[..n]);
      assert forall i :: 0 <= i < n ==> s[..n][i] == s[i];
      pre + (if f(s[n]).Some? then [n] else [])
  }

  /** `Collect` keeps exactly the hits, in order: its k-th value is `f` of
      the element at the k-th hit. */
  lemma {:induction false} CollectIsHitSubsequence<A, B>(f: A -> Option<B>, s: seq<A>)
    ensures |Collect(f, s)| == |Hits(f, s)|
    ensures forall k :: 0 <= k < |Collect(f, s)| ==> Some(Collect(f, s)[k]) == f(s[Hits(f, s)[k]])
    decreases |s|
  {
    if |s| > 0 {
      var n := |s| - 1;
      var c, h := Collect(f, s), Hits(f, s);
      var cPre, hPre := Collect(f, s[..n]), Hits(f, s[..n]);
      CollectIsHitSubsequence(f, s[..n]);
      assert c == cPre + Maybe(f(s[n]));
      assert h == hPre + (if f(s[n]).Some? then [n] else []);
      forall k | 0 <= k < |c|
        ensures Some(c[k]) == f(s[h[k]])
      {
        if k < |cPre| {
          assert c[k] == cPre[k] && h[k] == hPre[k];
          assert s[..n][hPre[k]] == s[hPre[k]];
        }
      }
    }
  }

  /** `Hits` sees only whether `f` yields a value, not which value. */
  lemma {:induction false} HitsSameSupport<A, B, C>(f: A -> Option<B>, g: A -> Option<C>, s: seq<A>)
    requires forall i :: 0 <= i < |s| ==> f(s[i]).Some? == g(s[i]).Some?
    ensures Hits(f, s) == Hits(g, s)
    decreases |s|
  {
    if |s| > 0 {
      HitsSameSupport(f, g, s[..|s| - 1]);
    }
  }
}
