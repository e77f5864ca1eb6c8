/** How many inodes a resize takes and gives back, and which ones it strands. */
module Accounting {
  import opened Disk
  import opened IndexSpec
  import opened Owners

  lemma {:induction false} SetOfSlice(s: seq<int>, lo: nat, hi: nat)
    requires lo <= hi <= |s| && Distinct(s)
    ensures |(set k | lo <= k < hi :: s[k])| == hi - lo
    decreases hi
  {
    var all := set k | lo <= k < hi :: s[k];
    if lo < hi {
      SetOfSlice(s, lo, hi - 1);
      var fewer := set k | lo <= k < hi - 1 :: s[k];
      assert all == fewer + {s[hi - 1]} && s[hi - 1] !in fewer;
    } else {
      assert all == {};
    }
  }

  lemma DisjointSize(a: set<int>, b: set<int>)
    requires a !! b
    ensures |a + b| == |a| + |b|
  {
  }

  lemma PagesSize(o: Obj)
    requires Shaped(o) && Unique(o.leaves, o.exts)
    ensures |Pages(o)| == Need(o.kind, |o.entries|)
  {
    var ls, es := set k | 0 <= k < |o.leaves| :: o.leaves[k], set e | 0 <= e < |o.exts| :: o.exts[e];
    SetOfSlice(o.leaves, 0, |o.leaves|);
    SetOfSlice(o.exts, 0, |o.exts|);
    assert Pages(o) == ls + es;
    DisjointSize(ls, es);
  }

  /** Growing pops exactly the difference and frees nothing. */
  lemma GrowAccounting(o: Obj, o': Obj, entries: seq<Entry>, free: set<int>, free': set<int>)
    requires Shaped(o) && Unique(o.leaves, o.exts) && Pages(o) !! free && Resized(o, o', entries, free, free')
    requires |o.entries| <= |entries|
    ensures free' <= free && free - free' == Taken(o, o') && Pages(o') == Pages(o) + Taken(o, o')
    ensures |free| - |free'| == |Taken(o, o')| == Need(o.kind, |entries|) - Need(o.kind, |o.entries|)
  {
    NeedMonotonic(o.kind, |o.entries|, |entries|);
    GrownPages(o, o', entries, free, free');
    PagesSize(o);
    PagesSize(o');
    hide Resized, Pages, Unique, Released;
    var taken := Taken(o, o');
    assert Pages(o') == Pages(o) + taken && Pages(o) !! taken;
    DisjointSize(Pages(o), taken);
    assert free == free' + taken;
    DisjointSize(free', taken);
  }

  lemma GrownPages(o: Obj, o': Obj, entries: seq<Entry>, free: set<int>, free': set<int>)
    requires Shaped(o) && Resized(o, o', entries, free, free') && |o.leaves| <= |o'.leaves|
    ensures Pages(o') == Pages(o) + Taken(o, o') && Taken(o, o') <= free && free' == free - Taken(o, o')
  {
  }

  /** The leaves of a kept extension page past the new end: neither used nor free. */
  ghost function Stranded(o: Obj, c: nat): set<int> {
    set k | c <= k < Min(Kept(c), |o.leaves|) :: o.leaves[k]
  }

  /** Shrinking pops nothing. What it does not give back is stranded: the pages of the
      old list are those of the new one, the released ones and the stranded ones. */
  lemma ShrinkSplits(o: Obj, o': Obj, entries: seq<Entry>, free: set<int>, free': set<int>)
    requires Shaped(o) && Unique(o.leaves, o.exts) && Pages(o) !! free && Resized(o, o', entries, free, free')
    requires |entries| <= |o.entries|
    ensures var c := |o'.leaves|;
      && free' == free + ReleasedAll(o, c)
      && Pages(o) == Pages(o') + ReleasedAll(o, c) + Stranded(o, c)
      && Pages(o') !! ReleasedAll(o, c) !! Stranded(o, c)
      && Stranded(o, c) !! free'
  {
    NeedMonotonic(o.kind, |entries|, |o.entries|);
    var c := |o'.leaves|;
    assert forall k :: 0 <= k < c ==> o.leaves[k] == o'.leaves[k];
    assert forall e :: 0 <= e < |o'.exts| ==> o.exts[e] == o'.exts[e];
    assert Taken(o, o') == {};
    ReleasedGone(o, o', entries, free, free');
    ShrunkParts(o, o', c);
  }

  lemma ShrunkParts(o: Obj, o': Obj, c: nat)
    requires Shaped(o) && Shaped(o') && o'.kind == o.kind && Unique(o.leaves, o.exts) && c == |o'.leaves|
    requires o'.leaves <= o.leaves && o'.exts <= o.exts
    ensures Pages(o) == Pages(o') + ReleasedAll(o, c) + Stranded(o, c)
    ensures Stranded(o, c) !! Pages(o') && Stranded(o, c) !! ReleasedAll(o, c) && Stranded(o, c) <= Pages(o)
  {
    forall x | x in Pages(o)
      ensures x in Pages(o') + ReleasedAll(o, c) + Stranded(o, c)
    {
      if k :| 0 <= k < |o.leaves| && o.leaves[k] == x {
        assert k < c ==> o'.leaves[k] == x;
      } else {
        var e :| 0 <= e < |o.exts| && o.exts[e] == x;
        assert e < |o'.exts| ==> o'.exts[e] == x;
      }
    }
    forall x | x in Stranded(o, c)
      ensures x !in Pages(o') && x !in ReleasedAll(o, c) && x in Pages(o)
    {
      var k :| c <= k < Min(Kept(c), |o.leaves|) && o.leaves[k] == x;
      assert forall i :: 0 <= i < c ==> o'.leaves[i] == o.leaves[i];
      assert forall e :: 0 <= e < |o'.exts| ==> o'.exts[e] == o.exts[e];
    }
    forall x | x in Pages(o')
      ensures x in Pages(o)
    {
      assert forall i :: 0 <= i < c ==> o'.leaves[i] == o.leaves[i];
      assert forall e :: 0 <= e < |o'.exts| ==> o'.exts[e] == o.exts[e];
    }
  }

  /** The number of stranded pages. */
  function StrandedCount(had: nat, c: nat): nat { Max(Min(Kept(c), had) - c, 0) }

  /** Shrinking pushes back the difference less the stranded leaves of the page it ends in. */
  lemma ShrinkAccounting(o: Obj, o': Obj, entries: seq<Entry>, free: set<int>, free': set<int>)
    requires Shaped(o) && Unique(o.leaves, o.exts) && Pages(o) !! free && Resized(o, o', entries, free, free')
    requires |entries| <= |o.entries|
    ensures free <= free'
    ensures |free'| - |free| ==
      Need(o.kind, |o.entries|) - Need(o.kind, |entries|) - StrandedCount(|o.leaves|, |o'.leaves|)
    ensures |Stranded(o, |o'.leaves|)| == StrandedCount(|o.leaves|, |o'.leaves|)
  {
    hide Pages, Released, Stranded, Kept;
    ShrinkSplits(o, o', entries, free, free');
    NeedMonotonic(o.kind, |entries|, |o.entries|);
    PagesSize(o);
    PagesSize(o');
    var c := |o'.leaves|;
    StrandedSize(o, c);
    var released := ReleasedAll(o, c);
    DisjointSize(Pages(o'), released);
    DisjointSize(Pages(o') + released, Stranded(o, c));
    assert released !! free by { assert released <= Pages(o); }
    DisjointSize(free, released);
  }

  lemma StrandedSize(o: Obj, c: nat)
    requires Unique(o.leaves, o.exts) && c <= |o.leaves|
    ensures |Stranded(o, c)| == StrandedCount(|o.leaves|, c)
  {
    assert Kept(c) >= c;
    SetOfSlice(o.leaves, c, Min(Kept(c), |o.leaves|));
  }

  /** Exactly when nothing is stranded: no leaf goes, or the new end leaves no
      extension page partly used. */
  lemma NothingStranded(o: Obj, c: nat)
    requires c <= |o.leaves|
    ensures Stranded(o, c) == {} <==> c == |o.leaves| || c <= 4 || (c - 4) % 64 == 0
  {
    if c < |o.leaves| && c > 4 && (c - 4) % 64 != 0 {
      assert o.leaves[c] in Stranded(o, c);
    }
  }

  /** A file of 185 blocks that loses one: one page less is needed, but no inode comes back. */
  lemma OneBlockLess(o: Obj, o': Obj, entries: seq<Entry>, free: set<int>, free': set<int>)
    requires Shaped(o) && Unique(o.leaves, o.exts) && Pages(o) !! free && Resized(o, o', entries, free, free')
    requires o.kind.File? && |o.entries| == 185 && |entries| == 184
    ensures Need(File, 185) == Need(File, 184) + 1 && |free'| == |free| && |Stranded(o, |o'.leaves|)| == 1
  {
    ShrinkAccounting(o, o', entries, free, free');
  }
}
