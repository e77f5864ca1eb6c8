/** The bookkeeping behind listing_set: pages are placed one after the other,
    kept from the old index while it has some, popped afterwards. */
module Layout {
  import opened Disk
  import opened IndexSpec

  /** What stays fixed while an index is rewritten: the old object, the new list
      as it stands in the cache, and the inodes and free set at the start. */
  datatype Plan = Plan(o: Obj, cache: seq<Entry>, n: nat, nodes: seq<Inode>, free: set<int>) {
    function Goal(): nat { LeafCount(o.kind, n) }

    function PageAt(k: nat): Inode
      requires Start(o.kind, k + 1) <= |cache|
    {
      Page(cache[Start(o.kind, k)..Start(o.kind, k + 1)])
    }

    ghost predicate Ok() {
      && Shaped(o)
      && n <= MaxEntries(o.kind)
      && |cache| == Start(o.kind, 260)
      && |nodes| == SLOT_COUNT
      && Unique(o.leaves, o.exts)
      && (forall e {:trigger o.exts[e]} :: 0 <= e < |o.exts| ==>
            IsPageNum(o.exts[e]) && ExtRep(nodes[o.exts[e]], o.leaves, e))
      && (forall x :: x in o.leaves || x in o.exts ==> IsPageNum(x) && x !in free)
      && (forall x :: x in free ==> IsPageNum(x))
      && |free| + Need(o.kind, |o.entries|) >= Need(o.kind, n)
    }
  }

  /** The pages placed so far and the inodes still free of those free at the start. */
  datatype Placed = Placed(leaves: seq<int>, exts: seq<int>, left: set<int>)

  ghost predicate Matches(now: seq<int>, was: seq<int>) {
    now <= was || was <= now
  }

  /** No page serves twice, old ones come first, and every popped one has been placed. */
  ghost predicate Chosen(p: Plan, l: Placed) {
    && |l.leaves| <= p.Goal() && |l.exts| <= ExtCount(p.Goal())
    && Matches(l.leaves, p.o.leaves) && Matches(l.exts, p.o.exts)
    && Unique(l.leaves, l.exts)
    && (forall k {:trigger l.leaves[k]} :: 0 <= k < |l.leaves| ==>
          l.leaves[k] !in l.left && (k >= |p.o.leaves| ==> l.leaves[k] in p.free))
    && (forall e {:trigger l.exts[e]} :: 0 <= e < |l.exts| ==>
          l.exts[e] !in l.left && (e >= |p.o.exts| ==> l.exts[e] in p.free))
    && l.left <= p.free
    && (forall x :: x in p.free && x !in l.left ==> x in l.leaves || x in l.exts)
  }

  ghost predicate PlacedOk(p: Plan, l: Placed) {
    && Chosen(p, l)
    && |l.left| >= p.Goal() + ExtCount(p.Goal()) - Max(|l.leaves|, |p.o.leaves|) - Max(|l.exts|, |p.o.exts|)
  }

  /** Every placed leaf holds its share of the cache, nothing else has been written. */
  ghost predicate Written(p: Plan, l: Placed, nodes: seq<Inode>)
    requires |p.cache| == Start(p.o.kind, 260) && |l.leaves| <= 260 && |p.nodes| == SLOT_COUNT
  {
    && |nodes| == SLOT_COUNT
    && (forall k {:trigger l.leaves[k]} :: 0 <= k < |l.leaves| ==>
          IsPageNum(l.leaves[k]) && nodes[l.leaves[k]] == p.PageAt(k))
    && (forall j {:trigger nodes[j]} :: 0 <= j < SLOT_COUNT && j !in l.leaves && j !in l.exts ==>
        nodes[j] == p.nodes[j])
  }

  ghost predicate ExtsWritten(l: Placed, nodes: seq<Inode>, e: nat) {
    && |nodes| == SLOT_COUNT
    && e <= |l.exts|
    && forall i {:trigger l.exts[i]} :: 0 <= i < e ==>
         IsPageNum(l.exts[i]) && ExtRep(nodes[l.exts[i]], l.leaves, i)
  }

  ghost predicate Progress(p: Plan, l: Placed, nodes: seq<Inode>) {
    p.Ok() && p.Goal() <= 260 && PlacedOk(p, l) && Written(p, l, nodes)
  }

  /** The inode for the next leaf: the old one as long as there is one, else one still free. */
  ghost predicate NextLeaf(p: Plan, l: Placed, y: int) {
    var k := |l.leaves|;
    IsPageNum(y) && k < p.Goal() && if k < |p.o.leaves| then y == p.o.leaves[k] else y in l.left
  }

  ghost predicate NextExt(p: Plan, l: Placed, x: int) {
    var e := |l.exts|;
    IsPageNum(x) && e < ExtCount(p.Goal()) && if e < |p.o.exts| then x == p.o.exts[e] else x in l.left
  }

  ghost function WithLeaf(l: Placed, y: int): Placed {
    Placed(l.leaves + [y], l.exts, l.left - {y})
  }

  ghost function WithExt(l: Placed, x: int): Placed {
    Placed(l.leaves, l.exts + [x], l.left - {x})
  }

  lemma MatchesGrow(now: seq<int>, was: seq<int>, y: int)
    requires Matches(now, was) && (|now| < |was| ==> y == was[|now|])
    ensures Matches(now + [y], was)
  {
  }

  /** The next leaf was not placed before. */
  lemma LeafIsNew(p: Plan, l: Placed, y: int)
    requires p.Ok() && Chosen(p, l) && NextLeaf(p, l, y)
    ensures y !in l.leaves && y !in l.exts
    ensures |l.leaves| < |p.o.leaves| ==> y !in p.free && y !in l.left
  {
  }

  lemma ExtIsNew(p: Plan, l: Placed, x: int)
    requires p.Ok() && Chosen(p, l) && NextExt(p, l, x)
    ensures x !in l.leaves && x !in l.exts
    ensures |l.exts| < |p.o.exts| ==> x !in p.free && x !in l.left
  {
  }

  lemma ChooseLeaf(p: Plan, l: Placed, y: int)
    requires p.Ok() && Chosen(p, l) && NextLeaf(p, l, y)
    ensures Chosen(p, WithLeaf(l, y))
  {
    LeafIsNew(p, l, y);
    hide LeafCount, ExtCount, ExtRep;
    MatchesGrow(l.leaves, p.o.leaves, y);
    var l' := WithLeaf(l, y);
    assert l'.leaves[|l.leaves|] == y;
    assert forall x :: x in l.leaves ==> x in l'.leaves;
  }

  lemma PlaceLeaf(p: Plan, l: Placed, y: int)
    requires p.Ok() && PlacedOk(p, l) && NextLeaf(p, l, y)
    ensures PlacedOk(p, WithLeaf(l, y))
  {
    LeafIsNew(p, l, y);
    ChooseLeaf(p, l, y);
    hide Chosen, LeafCount, ExtCount, ExtRep;
    assert |l.leaves| < |p.o.leaves| ==> l.left - {y} == l.left;
  }

  lemma ChooseExt(p: Plan, l: Placed, x: int)
    requires p.Ok() && Chosen(p, l) && NextExt(p, l, x)
    ensures Chosen(p, WithExt(l, x))
  {
    ExtIsNew(p, l, x);
    hide LeafCount, ExtCount, ExtRep;
    MatchesGrow(l.exts, p.o.exts, x);
    var l' := WithExt(l, x);
    assert l'.exts[|l.exts|] == x;
    assert forall y :: y in l.exts ==> y in l'.exts;
  }

  lemma PlaceExt(p: Plan, l: Placed, x: int)
    requires p.Ok() && PlacedOk(p, l) && NextExt(p, l, x)
    ensures PlacedOk(p, WithExt(l, x))
  {
    ExtIsNew(p, l, x);
    ChooseExt(p, l, x);
    hide Chosen, LeafCount, ExtCount, ExtRep;
    assert |l.exts| < |p.o.exts| ==> l.left - {x} == l.left;
  }

  /** There is always an inode to pop. */
  lemma LeafLeft(p: Plan, l: Placed)
    requires p.Ok() && PlacedOk(p, l) && |p.o.leaves| <= |l.leaves| < p.Goal()
    ensures l.left != {}
  {
  }

  lemma ExtLeft(p: Plan, l: Placed)
    requires p.Ok() && PlacedOk(p, l) && |p.o.leaves| <= |l.leaves| < p.Goal()
      && |p.o.exts| <= |l.exts| < ExtCount(p.Goal())
    ensures |l.left| >= 2
  {
  }

  lemma WriteLeaf(p: Plan, l: Placed, nodes: seq<Inode>, y: int)
    requires Progress(p, l, nodes) && NextLeaf(p, l, y)
    ensures Progress(p, WithLeaf(l, y), nodes[y := p.PageAt(|l.leaves|)])
  {
    hide Chosen, LeafCount;
    LeafIsNew(p, l, y);
    PlaceLeaf(p, l, y);
    var l' := WithLeaf(l, y);
    assert forall x :: x in l'.leaves <==> x == y || x in l.leaves;
  }

  lemma ShareBefore(leaves: seq<int>, y: int, lo: nat, hi: nat)
    requires lo <= hi <= |leaves|
    ensures Share(leaves + [y], lo, hi) == Share(leaves, lo, hi)
  {
  }

  lemma WriteLeafKeepsExts(p: Plan, l: Placed, nodes: seq<Inode>, y: int, e: nat)
    requires Progress(p, l, nodes) && NextLeaf(p, l, y) && ExtsWritten(l, nodes, e) && |l.leaves| >= 4 + 64 * e
    ensures ExtsWritten(WithLeaf(l, y), nodes[y := p.PageAt(|l.leaves|)], e)
  {
    LeafIsNew(p, l, y);
    hide LeafCount, ExtCount, Share;
    var l' := WithLeaf(l, y);
    forall i | 0 <= i < e
      ensures IsPageNum(l'.exts[i]) && ExtRep(nodes[y := p.PageAt(|l.leaves|)][l'.exts[i]], l'.leaves, i)
    {
      ShareBefore(l.leaves, y, 4 + 64 * i, 68 + 64 * i);
    }
  }

  lemma WriteLeafAll(p: Plan, l: Placed, nodes: seq<Inode>, y: int)
    requires Progress(p, l, nodes) && NextLeaf(p, l, y)
    ensures var nodes' := nodes[y := p.PageAt(|l.leaves|)];
      && Progress(p, WithLeaf(l, y), nodes')
      && forall e: nat :: 4 + 64 * e <= |l.leaves| && ExtsWritten(l, nodes, e) ==>
          ExtsWritten(WithLeaf(l, y), nodes', e)
  {
    WriteLeaf(p, l, nodes, y);
    forall e: nat | 4 + 64 * e <= |l.leaves| && ExtsWritten(l, nodes, e)
      ensures ExtsWritten(WithLeaf(l, y), nodes[y := p.PageAt(|l.leaves|)], e)
    {
      WriteLeafKeepsExts(p, l, nodes, y, e);
    }
  }

  lemma AddExt(p: Plan, l: Placed, nodes: seq<Inode>, x: int, e: nat)
    requires Progress(p, l, nodes) && NextExt(p, l, x) && ExtsWritten(l, nodes, e)
    ensures Progress(p, WithExt(l, x), nodes) && ExtsWritten(WithExt(l, x), nodes, e)
    ensures nodes[x] == p.nodes[x]
  {
    ExtIsNew(p, l, x);
    PlaceExt(p, l, x);
    var l' := WithExt(l, x);
    assert forall y :: y in l'.exts <==> y == x || y in l.exts;
  }

  lemma ExtApart(p: Plan, l: Placed, e: nat)
    requires PlacedOk(p, l) && e < |l.exts|
    ensures l.exts[e] !in l.leaves && forall i :: 0 <= i < |l.exts| && i != e ==> l.exts[i] != l.exts[e]
  {
  }

  lemma ExtsWrittenNext(l: Placed, nodes: seq<Inode>, e: nat, nums: seq<int>)
    requires ExtsWritten(l, nodes, e) && e < |l.exts| && IsPageNum(l.exts[e])
    requires forall i :: 0 <= i < |l.exts| && i != e ==> l.exts[i] != l.exts[e]
    requires |nums| == 64 && Share(l.leaves, 4 + 64 * e, 68 + 64 * e) <= nums
    ensures ExtsWritten(l, nodes[l.exts[e] := Ext(nums)], e + 1)
  {
    hide Share;
  }

  /** Dumping extension page e after its leaves. */
  lemma WriteExt(p: Plan, l: Placed, nodes: seq<Inode>, e: nat, nums: seq<int>)
    requires Progress(p, l, nodes) && ExtsWritten(l, nodes, e) && e < |l.exts| && IsPageNum(l.exts[e])
    requires |nums| == 64 && Share(l.leaves, 4 + 64 * e, 68 + 64 * e) <= nums
    ensures Progress(p, l, nodes[l.exts[e] := Ext(nums)]) && ExtsWritten(l, nodes[l.exts[e] := Ext(nums)], e + 1)
  {
    ExtApart(p, l, e);
    ExtsWrittenNext(l, nodes, e, nums);
    hide Chosen, LeafCount, Share, ExtsWritten, ExtRep;
    assert l.exts[e] in l.exts;
  }

  /** An old extension page can still be read when its turn comes. */
  lemma OldExt(p: Plan, l: Placed, nodes: seq<Inode>, e: nat)
    requires Progress(p, l, nodes) && |l.exts| <= e < |p.o.exts|
    ensures IsPageNum(p.o.exts[e]) && ExtRep(nodes[p.o.exts[e]], p.o.leaves, e)
  {
  }

  lemma StartPlan(p: Plan)
    requires p.Ok()
    ensures Progress(p, Placed([], [], p.free), p.nodes)
  {
  }

  /** The object after the rewrite. */
  ghost function Rebuilt(p: Plan, l: Placed): Obj
    requires p.n <= |p.cache|
  {
    p.o.(entries := p.cache[..p.n], leaves := l.leaves, exts := l.exts)
  }

  lemma PlacedAll(p: Plan, l: Placed)
    requires p.Ok() && PlacedOk(p, l) && |l.leaves| == p.Goal() && |l.exts| == ExtCount(p.Goal())
    ensures l.left == p.free - Taken(p.o, Rebuilt(p, l)) && Taken(p.o, Rebuilt(p, l)) <= p.free
  {
    var o' := Rebuilt(p, l);
    assert forall k :: 0 <= k < Min(|l.leaves|, |p.o.leaves|) ==>
        l.leaves[k] == p.o.leaves[k] && l.leaves[k] in Pages(p.o);
    assert forall e :: 0 <= e < Min(|l.exts|, |p.o.exts|) ==> l.exts[e] == p.o.exts[e] && l.exts[e] in Pages(p.o);
    forall x | x in Taken(p.o, o')
      ensures x in p.free && x !in l.left
    {
      assert x in l.leaves || x in l.exts;
    }
    forall x | x in p.free && x !in l.left
      ensures x in Taken(p.o, o')
    {
      assert x in Pages(o') && x !in Pages(p.o);
    }
  }

  lemma PlacedResizes(p: Plan, l: Placed, free': set<int>)
    requires p.Ok() && PlacedOk(p, l) && |l.leaves| == p.Goal() && |l.exts| == ExtCount(p.Goal())
    requires free' == l.left + ReleasedAll(p.o, p.Goal())
    ensures Resized(p.o, Rebuilt(p, l), p.cache[..p.n], p.free, free')
  {
    PlacedAll(p, l);
  }

  lemma PlacedPages(p: Plan, l: Placed, nodes: seq<Inode>, k: nat)
    requires Progress(p, l, nodes) && |l.leaves| == p.Goal() && k < |l.leaves|
    ensures PageRep(nodes[l.leaves[k]], Rebuilt(p, l), k)
  {
  }

  /** With the head written last, the new object lies in the slots. */
  lemma PlacedRep(p: Plan, l: Placed, nodes: seq<Inode>, h: int, head: Inode)
    requires Progress(p, l, nodes) && |l.leaves| == p.Goal() && |l.exts| == ExtCount(p.Goal())
    requires ExtsWritten(l, nodes, |l.exts|)
    requires ROOT <= h < BITMAP_NODES && h !in l.leaves && h !in l.exts
    requires HeadRep(head, h, Rebuilt(p, l))
    ensures ObjRep(nodes[h := head], h, Rebuilt(p, l))
  {
    forall k | 0 <= k < |l.leaves|
      ensures IsPageNum(l.leaves[k]) && PageRep(nodes[h := head][l.leaves[k]], Rebuilt(p, l), k)
    {
      PlacedPages(p, l, nodes, k);
    }
  }
}
