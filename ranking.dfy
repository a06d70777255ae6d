/**
 * Ranking of the eligible clips: a stable sort by view count, most viewed
 * first. Python's `list.sort(key=..., reverse=True)` keeps equal keys in
 * their original order; `SortByViews` is that ordering as a function, and
 * `SortByViewsInPlace` sorts an array into it.
 */
module Ranking {
  import opened Clips

  predicate SortedByViews(s: seq<Clip>) {
    forall i, j :: 0 <= i < j < |s| ==> s[i].viewerCount >= s[j].viewerCount
  }

  /** No two clips of `s` share an id. */
  predicate DistinctIds(s: seq<Clip>) {
    forall i, j :: 0 <= i < j < |s| ==> s[i].id != s[j].id
  }

  /** `p` with `x` placed after every trailing clip that has at least as many views as `x`. */
  function InsertByViews(p: seq<Clip>, x: Clip): seq<Clip>
    decreases |p|
  {
    if p == [] || p[|p| - 1].viewerCount >= x.viewerCount then p + [x]
    else InsertByViews(p[..|p| - 1], x) + [p[|p| - 1]]
  }

  /** The clips of `s`, most viewed first; clips with equal views keep their order in `s`. */
  function SortByViews(s: seq<Clip>): seq<Clip>
    decreases |s|
  {
    if s == [] then []
    else InsertByViews(SortByViews(s[..|s| - 1]), s[|s| - 1])
  }

  // ------------------------------------------------------------- permutation

  lemma {:induction false} InsertByViewsPermutes(p: seq<Clip>, x: Clip)
    ensures multiset(InsertByViews(p, x)) == multiset(p) + multiset{x}
    decreases |p|
  {
    if !(p == [] || p[|p| - 1].viewerCount >= x.viewerCount) {
      assert p == p[..|p| - 1] + [p[|p| - 1]];
      InsertByViewsPermutes(p[..|p| - 1], x);
    }
  }

  /** Ranking neither adds nor drops clips: the result is a permutation of its input. */
  lemma {:induction false} SortByViewsPermutes(s: seq<Clip>)
    ensures multiset(SortByViews(s)) == multiset(s)
    decreases |s|
  {
    if s != [] {
      assert s == s[..|s| - 1] + [s[|s| - 1]];
      SortByViewsPermutes(s[..|s| - 1]);
      InsertByViewsPermutes(SortByViews(s[..|s| - 1]), s[|s| - 1]);
    }
  }

  // --------------------------------------------------------------- sortedness

  /** Inserting brings in `x` and nothing else. */
  lemma {:induction false} InsertByViewsMembers(p: seq<Clip>, x: Clip)
    ensures forall y :: y in InsertByViews(p, x) ==> y in p || y == x
    decreases |p|
  {
    if !(p == [] || p[|p| - 1].viewerCount >= x.viewerCount) {
      InsertByViewsMembers(p[..|p| - 1], x);
      assert forall y :: y in p[..|p| - 1] ==> y in p;
    }
  }

  lemma {:induction false} InsertByViewsSorted(p: seq<Clip>, x: Clip)
    requires SortedByViews(p)
    ensures SortedByViews(InsertByViews(p, x))
    decreases |p|
  {
    if !(p == [] || p[|p| - 1].viewerCount >= x.viewerCount) {
      var init, last := p[..|p| - 1], p[|p| - 1];
      InsertByViewsSorted(init, x);
      InsertByViewsMembers(init, x);
      var q := InsertByViews(init, x);
      assert InsertByViews(p, x) == q + [last];
      forall y | y in q ensures y.viewerCount >= last.viewerCount {
        if y in init {
          var k :| 0 <= k < |init| && init[k] == y;
          assert p[k] == y;
        }
      }
    }
  }

  /** The ranking is ordered by view count, most viewed first. */
  lemma {:induction false} SortByViewsSorted(s: seq<Clip>)
    ensures SortedByViews(SortByViews(s))
    decreases |s|
  {
    if s != [] {
      SortByViewsSorted(s[..|s| - 1]);
      InsertByViewsSorted(SortByViews(s[..|s| - 1]), s[|s| - 1]);
    }
  }

  // --------------------------------------------------------------- stability

  /** The clips of `s` that have exactly `v` views, in order. */
  function WithViews(s: seq<Clip>, v: int): seq<Clip>
    decreases |s|
  {
    if s == [] then []
    else WithViews(s[..|s| - 1], v) + (if s[|s| - 1].viewerCount == v then [s[|s| - 1]] else [])
  }

  lemma {:induction false} InsertByViewsStable(p: seq<Clip>, x: Clip, v: int)
    ensures WithViews(InsertByViews(p, x), v) == WithViews(p, v) + (if x.viewerCount == v then [x] else [])
    decreases |p|
  {
    if p == [] || p[|p| - 1].viewerCount >= x.viewerCount {
      var r := p + [x];
      assert r[..|r| - 1] == p && r[|r| - 1] == x;
    } else {
      var init, last := p[..|p| - 1], p[|p| - 1];
      InsertByViewsStable(init, x, v);
      var q := InsertByViews(init, x);
      var r := q + [last];
      assert InsertByViews(p, x) == r;
      assert r[..|r| - 1] == q && r[|r| - 1] == last;
      assert WithViews(r, v) == WithViews(q, v) + (if last.viewerCount == v then [last] else []);
      assert WithViews(p, v) == WithViews(init, v) + (if last.viewerCount == v then [last] else []);
      if x.viewerCount == v {
        assert last.viewerCount != v;
      }
    }
  }

  /**
   * Stability: for every view count, the clips having it appear in the
   * ranking in the same order as in the input.
   */
  lemma {:induction false} SortByViewsStable(s: seq<Clip>, v: int)
    ensures WithViews(SortByViews(s), v) == WithViews(s, v)
    decreases |s|
  {
    if s != [] {
      SortByViewsStable(s[..|s| - 1], v);
      InsertByViewsStable(SortByViews(s[..|s| - 1]), s[|s| - 1], v);
    }
  }

  // ------------------------------------------------------------ distinct ids

  lemma {:induction false} InsertByViewsKeepsDistinctIds(p: seq<Clip>, x: Clip)
    requires DistinctIds(p)
    requires forall y :: y in p ==> y.id != x.id
    ensures DistinctIds(InsertByViews(p, x))
    decreases |p|
  {
    if !(p == [] || p[|p| - 1].viewerCount >= x.viewerCount) {
      var init, last := p[..|p| - 1], p[|p| - 1];
      InsertByViewsKeepsDistinctIds(init, x);
      InsertByViewsMembers(init, x);
      var q := InsertByViews(init, x);
      assert InsertByViews(p, x) == q + [last];
      forall y | y in q ensures y.id != last.id {
        if y in init {
          var k :| 0 <= k < |init| && init[k] == y;
          assert p[k] == y;
        }
      }
    }
  }

  /** Ranking neither merges nor duplicates ids: distinct ids stay distinct. */
  lemma {:induction false} SortByViewsKeepsDistinctIds(s: seq<Clip>)
    requires DistinctIds(s)
    ensures DistinctIds(SortByViews(s))
    decreases |s|
  {
    if s != [] {
      var init, last := s[..|s| - 1], s[|s| - 1];
      SortByViewsKeepsDistinctIds(init);
      SortByViewsPermutes(init);
      assert s == init + [last];
      var q := SortByViews(init);
      forall y | y in q ensures y.id != last.id {
        assert y in multiset(q);
      }
      InsertByViewsKeepsDistinctIds(q, last);
    }
  }

  // ---------------------------------------------------------------- in place

  /** `x` lands right after the last clip with at least as many views, past every clip with fewer. */
  lemma {:induction false} InsertByViewsAt(p: seq<Clip>, x: Clip, j: nat)
    requires j <= |p|
    requires j > 0 ==> p[j - 1].viewerCount >= x.viewerCount
    requires forall k :: j <= k < |p| ==> p[k].viewerCount < x.viewerCount
    ensures InsertByViews(p, x) == p[..j] + [x] + p[j..]
    decreases |p|
  {
    if j < |p| {
      var init, last := p[..|p| - 1], p[|p| - 1];
      InsertByViewsAt(init, x, j);
      assert InsertByViews(p, x) == InsertByViews(init, x) + [last];
      assert init[..j] == p[..j];
      assert p[j..] == init[j..] + [last] by {
        assert p == init + [last];
      }
    }
  }

  /** A sequence that agrees with `p` before `j`, holds `x` at `j` and `p` shifted by one after it. */
  lemma ShiftedIsInsertion(p: seq<Clip>, x: Clip, j: nat, s: seq<Clip>)
    requires j <= |p| && |s| == |p| + 1
    requires forall k :: 0 <= k < j ==> s[k] == p[k]
    requires s[j] == x
    requires forall k :: j < k < |s| ==> s[k] == p[k - 1]
    ensures s == p[..j] + [x] + p[j..]
  {
    var q := p[..j] + [x] + p[j..];
    forall k | 0 <= k < |s| ensures s[k] == q[k] {
      if k < j {
        assert q[k] == p[k];
      } else if j < k {
        assert q[k] == p[k - 1];
      }
    }
  }

  /** Moves `a[i]` left past the clips before it that have fewer views. */
  method SinkByViews(a: array<Clip>, i: nat)
    requires i < a.Length
    modifies a
    ensures a[..i + 1] == InsertByViews(old(a[..i]), old(a[i]))
    ensures a[i + 1..] == old(a[i + 1..])
  {
    ghost var p := a[..i];
    ghost var rest := a[i + 1..];
    var x := a[i];
    var j := i;
    while j > 0 && a[j - 1].viewerCount < x.viewerCount
      invariant 0 <= j <= i
      invariant forall k :: 0 <= k < j ==> a[k] == p[k]
      invariant a[j] == x
      invariant forall k :: j < k <= i ==> a[k] == p[k - 1]
      invariant a[i + 1..] == rest
      invariant forall k :: j <= k < i ==> p[k].viewerCount < x.viewerCount
    {
      a[j - 1], a[j] := a[j], a[j - 1];
      j := j - 1;
    }
    InsertByViewsAt(p, x, j);
    ShiftedIsInsertion(p, x, j, a[..i + 1]);
  }

  /** Ranking one more clip inserts it into the ranking of the clips before it. */
  lemma SortByViewsSnoc(s: seq<Clip>, i: nat)
    requires i < |s|
    ensures SortByViews(s[..i + 1]) == InsertByViews(SortByViews(s[..i]), s[i])
  {
    assert s[..i + 1][..i] == s[..i];
  }

  /** Insertion sort of `a` by view count, most viewed first; equal view counts keep their order. */
  method SortByViewsInPlace(a: array<Clip>)
    modifies a
    ensures a[..] == SortByViews(old(a[..]))
  {
    ghost var s := a[..];
    var i := 0;
    while i < a.Length
      invariant 0 <= i <= a.Length
      invariant a[..i] == SortByViews(s[..i])
      invariant a[i..] == s[i..]
    {
      assert a[i] == s[i] by {
        assert a[i..][0] == s[i..][0];
      }
      SinkByViews(a, i);
      SortByViewsSnoc(s, i);
      assert a[i + 1..] == s[i + 1..];
      i := i + 1;
    }
    assert s[..a.Length] == s;
  }
}
