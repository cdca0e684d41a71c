/** Sorting spans and comparing neighbours, the overlap test that gpt.rs, flash.rs and factory.rs share. */
module Spans {

  type Span = (nat, nat)

  predicate Before(a: Span, b: Span) {
    a.0 < b.0 || (a.0 == b.0 && a.1 <= b.1)
  }

  /** Neither reaches the other. With `gap` 0 the spans name their last unit, with 1 the first one after it. */
  predicate Apart(a: Span, b: Span, gap: nat) {
    a.1 < b.0 + gap || b.1 < a.0 + gap
  }

  predicate Sorted(s: seq<Span>) {
    forall i, j :: 0 <= i < j < |s| ==> Before(s[i], s[j])
  }

  predicate AllApart(s: seq<Span>, gap: nat) {
    forall i, j :: 0 <= i < j < |s| ==> Apart(s[i], s[j], gap)
  }

  /** Every span ends before the next one starts. */
  predicate Stepped(s: seq<Span>, gap: nat) {
    forall i :: 0 <= i < |s| - 1 ==> s[i].1 < s[i + 1].0 + gap
  }

  predicate Proper(s: seq<Span>, gap: nat) {
    forall i :: 0 <= i < |s| ==> s[i].0 + gap <= s[i].1
  }

  /** Where `p` belongs in a sorted list. */
  function Position(s: seq<Span>, p: Span): (k: nat)
    requires Sorted(s)
    ensures k <= |s|
    ensures forall i :: 0 <= i < k ==> Before(s[i], p)
    ensures forall i :: k <= i < |s| ==> Before(p, s[i])
  {
    if s == [] || Before(s[|s| - 1], p) then |s|
    else Position(s[..|s| - 1], p)
  }

  /** The library's `sort_unstable`: what it returns, not how. */
  function Sort(s: seq<Span>): (r: seq<Span>)
    ensures |r| == |s| && Sorted(r)
  {
    if s == [] then [] else
      var r := Sort(s[..|s| - 1]);
      var p := s[|s| - 1];
      var k := Position(r, p);
      Inserted(r, k, p)
  }

  lemma {:induction false} SortKeepsElements(s: seq<Span>, q: Span)
    ensures q in Sort(s) <==> q in s
  {
    if s != [] {
      var r, p := Sort(s[..|s| - 1]), s[|s| - 1];
      var k := Position(r, p);
      SortKeepsElements(s[..|s| - 1], q);
      assert s == s[..|s| - 1] + [p];
      assert r == r[..k] + r[k..];
    }
  }

  function Inserted(r: seq<Span>, k: nat, p: Span): (s: seq<Span>)
    requires k <= |r|
  {
    r[..k] + [p] + r[k..]
  }

  lemma InsertedApart(r: seq<Span>, k: nat, p: Span, gap: nat)
    requires k <= |r| && AllApart(Inserted(r, k, p), gap)
    ensures AllApart(r, gap) && forall q :: q in r ==> Apart(p, q, gap)
  {
    var s := Inserted(r, k, p);
    forall i, j | 0 <= i < j < |r| ensures Apart(r[i], r[j], gap) {
      assert Apart(s[if i < k then i else i + 1], s[if j < k then j else j + 1], gap);
    }
    forall q | q in r ensures Apart(p, q, gap) {
      var i :| 0 <= i < |r| && r[i] == q;
      assert i < k ==> Apart(s[i], s[k], gap);
      assert i >= k ==> Apart(s[k], s[i + 1], gap);
    }
  }

  lemma InsertKeepsApart(r: seq<Span>, k: nat, p: Span, gap: nat)
    requires k <= |r| && AllApart(r, gap) && forall q :: q in r ==> Apart(p, q, gap)
    ensures AllApart(Inserted(r, k, p), gap)
  {
    var s := Inserted(r, k, p);
    forall i, j | 0 <= i < j < |s| ensures Apart(s[i], s[j], gap) {
      if i == k {
        assert s[j] == r[j - 1] && r[j - 1] in r;
      } else if j == k {
        assert s[i] == r[i] && r[i] in r;
      } else {
        assert Apart(r[if i < k then i else i - 1], r[if j < k then j else j - 1], gap);
      }
    }
  }

  lemma {:induction false} SortKeepsApart(s: seq<Span>, gap: nat)
    ensures AllApart(Sort(s), gap) <==> AllApart(s, gap)
  {
    if s != [] {
      var r, p := Sort(s[..|s| - 1]), s[|s| - 1];
      SortKeepsApart(s[..|s| - 1], gap);
      var front := s[..|s| - 1];
      assert Inserted(front, |s| - 1, p) == s;
      forall q ensures q in r <==> q in s[..|s| - 1] {
        SortKeepsElements(s[..|s| - 1], q);
      }
      if AllApart(s, gap) {
        InsertedApart(front, |s| - 1, p, gap);
        InsertKeepsApart(r, Position(r, p), p, gap);
      }
      if AllApart(Sort(s), gap) {
        InsertedApart(r, Position(r, p), p, gap);
        InsertKeepsApart(front, |s| - 1, p, gap);
      }
    }
  }

  /** Comparing neighbours after sorting is as good as comparing every pair. */
  lemma NeighboursSuffice(s: seq<Span>, gap: nat)
    requires Proper(s, gap)
    ensures Stepped(Sort(s), gap) <==> AllApart(s, gap)
  {
    var r := Sort(s);
    SortKeepsApart(s, gap);
    assert Proper(r, gap) by {
      forall i | 0 <= i < |r| ensures r[i].0 + gap <= r[i].1 {
        SortKeepsElements(s, r[i]);
      }
    }
    if Stepped(r, gap) {
      Chained(r, gap);
    }
    if AllApart(r, gap) {
      forall i | 0 <= i < |s| - 1 ensures r[i].1 < r[i + 1].0 + gap {
        assert Before(r[i], r[i + 1]) && Apart(r[i], r[i + 1], gap);
      }
    }
  }

  lemma {:induction false} Chained(r: seq<Span>, gap: nat)
    requires Proper(r, gap) && Stepped(r, gap)
    ensures AllApart(r, gap)
  {
    if r != [] {
      Chained(r[..|r| - 1], gap);
      forall i | 0 <= i < |r| - 1 ensures r[i].1 < r[|r| - 1].0 + gap {
        if i < |r| - 2 {
          assert Apart(r[..|r| - 1][i], r[..|r| - 1][|r| - 2], gap);
          ChainedForward(r, i, |r| - 2, gap);
        }
      }
      forall i, j | 0 <= i < j < |r| ensures Apart(r[i], r[j], gap) {
        if j < |r| - 1 {
          assert Apart(r[..|r| - 1][i], r[..|r| - 1][j], gap);
        }
      }
    }
  }

  lemma {:induction false} ChainedForward(r: seq<Span>, i: nat, j: nat, gap: nat)
    requires Proper(r, gap) && Stepped(r, gap)
    requires i < j < |r|
    ensures r[i].1 < r[j].0 + gap
    decreases j
  {
    if i < j - 1 {
      ChainedForward(r, i, j - 1, gap);
    }
  }

  /** The `windows(2)` test on a sorted list. */
  method NeighboursOverlap(s: seq<Span>, gap: nat) returns (overlap: bool)
    ensures overlap <==> !Stepped(s, gap)
  {
    var i := 0;
    while i + 1 < |s|
      invariant 0 <= i <= |s|
      invariant forall k :: 0 <= k < i && k < |s| - 1 ==> s[k].1 < s[k + 1].0 + gap
    {
      if s[i].1 >= s[i + 1].0 + gap { return true; }
      i := i + 1;
    }
    return false;
  }
}
