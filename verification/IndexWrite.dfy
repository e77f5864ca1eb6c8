/** Writing the cache back as an index of another size (inode.c:286-358, 389-461). */
module IndexWrite {
  import opened Disk
  import opened IndexSpec
  import opened Layout
  import opened InodeIo
  import opened Bitmap
  import opened IndexRead
  import opened Owners

  /** The globals agree with the plan and with what has been placed and released. */
  ghost predicate InStep(m: Machine, p: Plan, l: Placed, released: set<int>)
    reads m
  {
    m.Sound() && m.Formatted() && Progress(p, l, m.nodes) && m.freeNodes == l.left + released
  }

  /** The inode of the next leaf page: popped unless the old index has one. */
  method LeafInode(m: Machine, num: int, ptr: nat, cacheEnd: nat, ghost p: Plan, ghost l: Placed)
      returns (num': int)
    requires InStep(m, p, l, {}) && cacheEnd == |p.o.entries|
    requires |l.leaves| < p.Goal() && ptr == Start(p.o.kind, |l.leaves|)
    requires |l.leaves| < |p.o.leaves| ==> num == p.o.leaves[|l.leaves|]
    modifies m`blocks, m`freeNodes, m`errno
    ensures m.Sound() && m.Formatted() && m.errno == old(m.errno)
    ensures NextLeaf(p, l, num') && m.freeNodes == l.left - {num'}
  {
    LeafCountExact(p.o.kind, cacheEnd, |l.leaves|);
    num' := num;
    if ptr >= cacheEnd {
      LeafLeft(p, l);
      num' := FreeInodePop(m);
    } else {
      assert num in p.o.leaves;
    }
  }

  lemma PageInCache(p: Plan, k: nat, ptr: nat)
    requires p.Ok() && k < 260 && ptr == Start(p.o.kind, k)
    ensures ptr + PerPage(p.o.kind) <= |p.cache|
    ensures Page(p.cache[ptr..ptr + PerPage(p.o.kind)]) == p.PageAt(k)
  {
  }

  /** One leaf page: find its inode and write p_buf, filled from the cache, to it. */
  method SetLeaf(m: Machine, pBuf: Inode, num: int, ptr: nat, cacheEnd: nat, ghost p: Plan, ghost l: Placed)
      returns (num': int, ghost l': Placed)
    requires InStep(m, p, l, {}) && cacheEnd == |p.o.entries|
    requires |l.leaves| < p.Goal() && ptr == Start(p.o.kind, |l.leaves|)
    requires |l.leaves| < |p.o.leaves| ==> num == p.o.leaves[|l.leaves|]
    requires pBuf == p.PageAt(|l.leaves|)
    modifies m`blocks, m`nodes, m`nodeBuf, m`freeNodes, m`errno
    ensures InStep(m, p, l', {}) && m.errno == old(m.errno)
    ensures l'.leaves == l.leaves + [num'] && l'.exts == l.exts
    ensures forall e: nat :: 4 + 64 * e <= |l.leaves| && ExtsWritten(l, old(m.nodes), e) ==> ExtsWritten(l', m.nodes, e)
  {
    hide Progress, ExtsWritten, DiskOk;
    num' := LeafInode(m, num, ptr, cacheEnd, p, l);
    l' := WithLeaf(l, num');
    WriteLeafAll(p, l, m.nodes, num');
    InodeDump(m, num', pBuf);
  }

  lemma ReleasedLeaf(o: Obj, c: nat, k: nat, e: nat)
    ensures Released(o, c, k + 1, e)
      == if Kept(c) <= k < |o.leaves| then Released(o, c, k, e) + {o.leaves[k]} else Released(o, c, k, e)
  {
  }

  lemma ReleasedExt(o: Obj, c: nat, k: nat, e: nat)
    ensures Released(o, c, k, e + 1)
      == if ExtCount(c) <= e < |o.exts| then Released(o, c, k, e) + {o.exts[e]} else Released(o, c, k, e)
  {
  }

  lemma ReleasedNothing(o: Obj, c: nat, k: nat, e: nat)
    requires k <= Kept(c) && e <= ExtCount(c)
    ensures Released(o, c, k, e) == {}
  {
  }

  lemma PlanPages(p: Plan, l: Placed, nodes: seq<Inode>)
    requires Progress(p, l, nodes)
    ensures Shaped(p.o) && p.Ok() && |l.leaves| <= p.Goal() <= 260
    ensures forall x :: x in p.o.leaves || x in p.o.exts ==> IsPageNum(x)
  {
  }

  ghost predicate Level1Ok(p: Plan, l: Placed, i: nat, pages: seq<int>, pages0: seq<int>) {
    && i <= 4 && l.exts == [] && |l.leaves| == Min(i, p.Goal())
    && |pages| == 4 && |pages0| == 4 && Take(p.o.leaves, 4) <= pages0
    && l.leaves <= pages && forall k :: i <= k < 4 ==> pages[k] == pages0[k]
  }

  lemma Level1Now(p: Plan, l: Placed, i: nat, pages: seq<int>, pages0: seq<int>)
    requires Level1Ok(p, l, i, pages, pages0) && i < 4
    ensures |pages| == 4 && |l.leaves| == Min(i, p.Goal())
    ensures i < |p.o.leaves| ==> pages[i] == p.o.leaves[i] && p.o.leaves[i] in p.o.leaves
    ensures i >= p.Goal() ==> Level1Ok(p, l, i + 1, pages, pages0)
  {
  }

  lemma Level1Set(p: Plan, l: Placed, l': Placed, num: int, i: nat, pages: seq<int>, pages0: seq<int>)
    requires Level1Ok(p, l, i, pages, pages0) && i < 4 && i < p.Goal() && |pages| == 4
    requires l'.leaves == l.leaves + [num] && l'.exts == l.exts
    ensures Level1Ok(p, l', i + 1, pages[i := num], pages0)
  {
  }

  ghost predicate InLevel1(m: Machine, p: Plan, l: Placed, i: nat, pages: seq<int>, pages0: seq<int>)
    reads m
  {
    InStep(m, p, l, Released(p.o, p.Goal(), i, 0)) && Level1Ok(p, l, i, pages, pages0)
  }

  /** Page i of level 1: rewritten, added, released or never there. */
  method SetPage(m: Machine, kind: Kind, cache: seq<Entry>, pages: seq<int>, i: nat, ptr: nat, end: nat, cacheEnd: nat,
                 ghost p: Plan, ghost l: Placed, ghost pages0: seq<int>)
      returns (pages': seq<int>, ghost l': Placed)
    requires p.o.kind == kind && cache == p.cache && end == p.n && cacheEnd == |p.o.entries|
    requires InLevel1(m, p, l, i, pages, pages0) && i < 4 && ptr == Start(kind, i)
    modifies m`blocks, m`nodes, m`nodeBuf, m`freeNodes, m`errno
    ensures InLevel1(m, p, l', i + 1, pages', pages0) && m.errno == old(m.errno)
  {
    hide DiskOk, Progress, Released, ExtsWritten, Level1Ok, OnlyBitmap, SameTail;
    pages', l' := pages, l;
    ghost var c := p.Goal();
    PlanPages(p, l, m.nodes);
    Level1Now(p, l, i, pages, pages0);
    LeafCountExact(kind, end, i);
    LeafCountExact(kind, cacheEnd, i);
    ReleasedLeaf(p.o, c, i, 0);
    if ptr >= end {
      if ptr < cacheEnd {
        FreeInodePush(m, pages[i]);
      }
      assert m.freeNodes == l.left + Released(p.o, c, i + 1, 0);
    } else {
      ReleasedNothing(p.o, c, i, 0);
      ReleasedNothing(p.o, c, i + 1, 0);
      PageInCache(p, i, ptr);
      var num: int;
      num, l' := SetLeaf(m, Page(cache[ptr..ptr + PerPage(kind)]), pages[i], ptr, cacheEnd, p, l);
      pages' := pages[i := num];
      Level1Set(p, l, l', num, i, pages, pages0);
    }
  }

  /** The four pages of level 1. */
  method SetLevel1(m: Machine, kind: Kind, cache: seq<Entry>, pages0: seq<int>, start: nat, end: nat, cacheEnd: nat,
                   ghost p: Plan)
      returns (pages: seq<int>, ptr: nat, ghost l: Placed)
    requires p.o.kind == kind && cache == p.cache && end == p.n && cacheEnd == |p.o.entries|
    requires InStep(m, p, Placed([], [], p.free), {}) && start == Start(kind, 0)
    requires |pages0| == 4 && Take(p.o.leaves, 4) <= pages0
    modifies m`blocks, m`nodes, m`nodeBuf, m`freeNodes, m`errno
    ensures InStep(m, p, l, Released(p.o, p.Goal(), 4, 0)) && m.errno == old(m.errno)
    ensures ptr == Start(kind, 4) && l.exts == [] && |l.leaves| == Min(4, p.Goal())
    ensures |pages| == 4 && l.leaves <= pages
  {
    hide DiskOk, Progress, Released;
    pages, ptr, l := pages0, start, Placed([], [], p.free);
    ReleasedNothing(p.o, p.Goal(), 0, 0);
    for i := 0 to 4
      invariant ptr == Start(kind, i) && m.errno == old(m.errno)
      invariant InLevel1(m, p, l, i, pages, pages0)
    {
      hide InLevel1;
      pages, l := SetPage(m, kind, cache, pages, i, ptr, end, cacheEnd, p, l, pages0);
      ptr := ptr + PerPage(kind);
    }
  }

  /** The leaves of an extension page that goes. */
  method ReleaseLeaves(m: Machine, kind: Kind, nums: seq<int>, start: nat, cacheEnd: nat, ghost p: Plan,
                       ghost l: Placed, ghost e: nat)
      returns (ptr: nat)
    requires p.o.kind == kind && cacheEnd == |p.o.entries| && start == Start(kind, 4 + 64 * e)
    requires p.Goal() <= 4 + 64 * e
    requires InStep(m, p, l, Released(p.o, p.Goal(), 4 + 64 * e, e))
    requires |nums| == 64 && Share(p.o.leaves, 4 + 64 * e, 68 + 64 * e) <= nums
    modifies m`blocks, m`freeNodes
    ensures InStep(m, p, l, Released(p.o, p.Goal(), 68 + 64 * e, e))
    ensures ptr == Start(kind, 68 + 64 * e)
  {
    hide DiskOk, Progress, Released, LeafCount, ExtCount;
    PlanPages(p, l, m.nodes);
    ExtCountExact(p.Goal(), e);
    ptr := start;
    ghost var c := p.Goal();
    for j := 0 to 64
      invariant ptr == Start(kind, 4 + 64 * e + j)
      invariant InStep(m, p, l, Released(p.o, c, 4 + 64 * e + j, e))
    {
      LeafCountExact(kind, cacheEnd, 4 + 64 * e + j);
      ReleasedLeaf(p.o, c, 4 + 64 * e + j, e);
      if ptr < cacheEnd {
        ShareAt(p.o.leaves, nums, e, j);
        assert nums[j] in p.o.leaves;
        FreeInodePush(m, nums[j]);
      }
      assert m.freeNodes == l.left + Released(p.o, c, 4 + 64 * e + (j + 1), e);
      ptr := ptr + PerPage(kind);
    }
  }

  /** An extension page while it is filled: the first j numbers are the leaves, the rest is old. */
  ghost predicate Filling(nums: seq<int>, nums0: seq<int>, leaves: seq<int>, e: nat, j: nat, goal: nat) {
    && j <= 64 && |nums| == 64 && |nums0| == 64
    && 4 + 64 * e <= |leaves| == Min(goal, 4 + 64 * e + j)
    && (forall t :: 0 <= t < |leaves| - 4 - 64 * e ==> nums[t] == leaves[4 + 64 * e + t])
    && (forall t :: j <= t < 64 ==> nums[t] == nums0[t])
  }

  lemma FillingStep(nums: seq<int>, nums0: seq<int>, leaves: seq<int>, e: nat, j: nat, goal: nat, num: int)
    requires Filling(nums, nums0, leaves, e, j, goal) && j < 64
    ensures |nums| == 64 && |nums0| == 64
    ensures 4 + 64 * e + j < goal ==> |leaves| == 4 + 64 * e + j && nums[j] == nums0[j]
    ensures 4 + 64 * e + j < goal ==> Filling(nums[j := num], nums0, leaves + [num], e, j + 1, goal)
    ensures 4 + 64 * e + j >= goal ==> Filling(nums, nums0, leaves, e, j + 1, goal)
  {
  }

  lemma FillingEnds(nums: seq<int>, nums0: seq<int>, leaves: seq<int>, e: nat, goal: nat)
    requires Filling(nums, nums0, leaves, e, 64, goal)
    ensures |leaves| == Min(goal, 68 + 64 * e)
    ensures |nums| == 64 && Share(leaves, 4 + 64 * e, 68 + 64 * e) <= nums
  {
  }

  /** The globals while extension page e is filled. */
  ghost predicate InExt(m: Machine, p: Plan, l: Placed, e: nat, j: nat, nums: seq<int>, nums0: seq<int>)
    reads m
  {
    && InStep(m, p, l, {})
    && ExtsWritten(l, m.nodes, e)
    && Filling(nums, nums0, l.leaves, e, j, p.Goal())
    && Share(p.o.leaves, 4 + 64 * e, 68 + 64 * e) <= nums0
  }

  method FillLeaf(m: Machine, kind: Kind, cache: seq<Entry>, nums: seq<int>, ptr: nat, end: nat, cacheEnd: nat,
                  ghost p: Plan, ghost l: Placed, ghost e: nat, j: nat, ghost nums0: seq<int>)
      returns (nums': seq<int>, ghost l': Placed)
    requires InExt(m, p, l, e, j, nums, nums0) && j < 64
    requires p.o.kind == kind && cache == p.cache && end == p.n && cacheEnd == |p.o.entries|
    requires ptr == Start(kind, 4 + 64 * e + j)
    modifies m`blocks, m`nodes, m`nodeBuf, m`freeNodes, m`errno
    ensures InExt(m, p, l', e, j + 1, nums', nums0) && m.errno == old(m.errno)
    ensures l.leaves <= l'.leaves && l'.exts == l.exts
  {
    hide DiskOk, Progress, ExtsWritten, Filling;
    nums', l' := nums, l;
    PlanPages(p, l, m.nodes);
    LeafCountExact(kind, end, 4 + 64 * e + j);
    FillingStep(nums, nums0, l.leaves, e, j, p.Goal(), 0);
    if ptr < end {
      if 4 + 64 * e + j < |p.o.leaves| {
        ShareAt(p.o.leaves, nums0, e, j);
      }
      PageInCache(p, 4 + 64 * e + j, ptr);
      var num: int;
      num, l' := SetLeaf(m, Page(cache[ptr..ptr + PerPage(kind)]), nums[j], ptr, cacheEnd, p, l);
      FillingStep(nums, nums0, l.leaves, e, j, p.Goal(), num);
      nums' := nums[j := num];
    }
  }

  /** The leaves of an extension page that stays or comes. */
  method FillLeaves(m: Machine, kind: Kind, cache: seq<Entry>, nums0: seq<int>, start: nat, end: nat, cacheEnd: nat,
                    ghost p: Plan, ghost l0: Placed, ghost e: nat)
      returns (nums: seq<int>, ptr: nat, ghost l: Placed)
    requires p.o.kind == kind && cache == p.cache && end == p.n && cacheEnd == |p.o.entries|
    requires start == Start(kind, 4 + 64 * e) && |l0.leaves| == 4 + 64 * e < p.Goal()
    requires InStep(m, p, l0, {}) && ExtsWritten(l0, m.nodes, e)
    requires |nums0| == 64 && Share(p.o.leaves, 4 + 64 * e, 68 + 64 * e) <= nums0
    modifies m`blocks, m`nodes, m`nodeBuf, m`freeNodes, m`errno
    ensures InStep(m, p, l, {}) && ExtsWritten(l, m.nodes, e) && m.errno == old(m.errno)
    ensures l0.leaves <= l.leaves && |l.leaves| == Min(p.Goal(), 68 + 64 * e) && l.exts == l0.exts
    ensures ptr == Start(kind, 68 + 64 * e)
    ensures |nums| == 64 && Share(l.leaves, 4 + 64 * e, 68 + 64 * e) <= nums
  {
    nums, ptr, l := nums0, start, l0;
    for j := 0 to 64
      invariant ptr == Start(kind, 4 + 64 * e + j)
      invariant InExt(m, p, l, e, j, nums, nums0) && m.errno == old(m.errno)
      invariant l0.leaves <= l.leaves && l.exts == l0.exts
    {
      hide InExt;
      nums, l := FillLeaf(m, kind, cache, nums, ptr, end, cacheEnd, p, l, e, j, nums0);
      ptr := ptr + PerPage(kind);
    }
    FillingEnds(nums, nums0, l.leaves, e, p.Goal());
  }

  lemma ReleasedEnd(o: Obj, c: nat, k: nat, e: nat)
    requires |o.leaves| <= k && |o.exts| <= e
    ensures Released(o, c, k, e) == ReleasedAll(o, c)
  {
  }

  /** After i extension pages. Past both ends ptr may lag behind: the C code
      does not advance it over a page that is in neither list. */
  ghost predicate Level2Ok(p: Plan, l: Placed, i: nat, ptr: nat, exts: seq<int>, exts0: seq<int>) {
    && |l.exts| == Min(i, ExtCount(p.Goal())) && |l.leaves| == Min(4 + 64 * i, p.Goal())
    && |exts| == 4 && |exts0| == 4 && p.o.exts <= exts0
    && i <= 4 && l.exts <= exts && (forall k :: i <= k < 4 ==> exts[k] == exts0[k])
    && ptr <= Start(p.o.kind, 4 + 64 * i)
    && (ptr == Start(p.o.kind, 4 + 64 * i) || (ptr >= p.n && ptr >= |p.o.entries|))
  }

  lemma Level2Now(p: Plan, l: Placed, i: nat, ptr: nat, exts: seq<int>, exts0: seq<int>)
    requires Level2Ok(p, l, i, ptr, exts, exts0) && i < 4 && ptr < p.n
    ensures ptr == Start(p.o.kind, 4 + 64 * i) && |l.leaves| == 4 + 64 * i < p.Goal()
    ensures |exts| == 4 && |l.exts| == i < ExtCount(p.Goal())
    ensures i < |p.o.exts| ==> exts[i] == p.o.exts[i]
    ensures 68 + 64 * i <= Kept(p.Goal())
  {
  }

  lemma Level2Kept(p: Plan, l: Placed, l': Placed, x: int, i: nat, ptr: nat, ptr': nat, exts: seq<int>, exts0: seq<int>)
    requires Level2Ok(p, l, i, ptr, exts, exts0) && i < 4 && ptr < p.n
    requires l'.exts == l.exts + [x] && |l'.leaves| == Min(p.Goal(), 68 + 64 * i)
    requires ptr' == Start(p.o.kind, 68 + 64 * i) && |exts| == 4
    ensures Level2Ok(p, l', i + 1, ptr', exts[i := x], exts0)
  {
  }

  ghost predicate InLevel2(m: Machine, p: Plan, l: Placed, i: nat, ptr: nat, exts: seq<int>, exts0: seq<int>)
    reads m
  {
    && InStep(m, p, l, Released(p.o, p.Goal(), 4 + 64 * i, i))
    && ExtsWritten(l, m.nodes, |l.exts|)
    && Level2Ok(p, l, i, ptr, exts, exts0)
  }

  /** Extension page i past the new end: released with its leaves if the old list used it. */
  method DropExt(m: Machine, kind: Kind, exts: seq<int>, i: nat, ptr: nat, end: nat, cacheEnd: nat,
                 ghost p: Plan, ghost l: Placed, ghost exts0: seq<int>)
      returns (ptr': nat)
    requires p.o.kind == kind && end == p.n && cacheEnd == |p.o.entries|
    requires InLevel2(m, p, l, i, ptr, exts, exts0) && i < 4 && ptr >= end
    modifies m`blocks, m`nodeBuf, m`freeNodes
    ensures InLevel2(m, p, l, i + 1, ptr', exts, exts0)
  {
    hide DiskOk, Progress, Released, ExtsWritten, OnlyBitmap, SameTail;
    ghost var c := p.Goal();
    PlanPages(p, l, m.nodes);
    LeafCountExact(kind, end, 4 + 64 * i);
    LeafCountExact(kind, cacheEnd, 4 + 64 * i);
    ExtCountExact(c, i);
    ExtCountExact(|p.o.leaves|, i);
    ptr' := ptr;
    if ptr < cacheEnd {
      OldExt(p, l, m.nodes, i);
      assert exts[i] == p.o.exts[i] && p.o.exts[i] in p.o.exts;
      var lv1 := InodeLoad(m, exts[i]);
      ptr' := ReleaseLeaves(m, kind, lv1.nums, ptr, cacheEnd, p, l, i);
      ReleasedExt(p.o, c, 68 + 64 * i, i);
      FreeInodePush(m, exts[i]);
      assert m.freeNodes == l.left + Released(p.o, c, 4 + 64 * (i + 1), i + 1);
    } else {
      ReleasedEnd(p.o, c, 4 + 64 * i, i);
      ReleasedEnd(p.o, c, 68 + 64 * i, i + 1);
    }
  }

  /** Extension page i inside the new list: popped unless the old list had it,
      filled, and written back. */
  method KeepExt(m: Machine, kind: Kind, cache: seq<Entry>, exts: seq<int>, i: nat, ptr: nat, end: nat, cacheEnd: nat,
                 ghost p: Plan, ghost l: Placed, ghost exts0: seq<int>)
      returns (exts': seq<int>, ptr': nat, ghost l': Placed)
    requires p.o.kind == kind && cache == p.cache && end == p.n && cacheEnd == |p.o.entries|
    requires InLevel2(m, p, l, i, ptr, exts, exts0) && i < 4 && ptr < end
    modifies m`blocks, m`nodes, m`nodeBuf, m`freeNodes, m`errno
    ensures InLevel2(m, p, l', i + 1, ptr', exts', exts0) && m.errno == old(m.errno)
    ensures l.leaves <= l'.leaves
  {
    hide DiskOk, Progress, Released, ExtsWritten, Level2Ok;
    ghost var c := p.Goal();
    PlanPages(p, l, m.nodes);
    Level2Now(p, l, i, ptr, exts, exts0);
    ReleasedNothing(p.o, c, 4 + 64 * i, i);
    ReleasedNothing(p.o, c, 4 + 64 * (i + 1), i + 1);
    var x, nums := ExtInode(m, kind, exts[i], i, ptr, cacheEnd, p, l);
    l' := WithExt(l, x);
    AddExt(p, l, m.nodes, x, i);
    ptr', l' := FillExt(m, kind, cache, x, nums, ptr, end, cacheEnd, p, l', i);
    exts' := exts[i := x];
    Level2Kept(p, l, l', x, i, ptr, ptr', exts, exts0);
  }

  method FillExt(m: Machine, kind: Kind, cache: seq<Entry>, x: int, nums0: seq<int>, start: nat, end: nat,
                 cacheEnd: nat,
                 ghost p: Plan, ghost l0: Placed, ghost e: nat)
      returns (ptr: nat, ghost l: Placed)
    requires p.o.kind == kind && cache == p.cache && end == p.n && cacheEnd == |p.o.entries|
    requires start == Start(kind, 4 + 64 * e) && |l0.leaves| == 4 + 64 * e < p.Goal()
    requires InStep(m, p, l0, {}) && ExtsWritten(l0, m.nodes, e)
    requires e < |l0.exts| && l0.exts[e] == x && IsPageNum(x)
    requires |nums0| == 64 && Share(p.o.leaves, 4 + 64 * e, 68 + 64 * e) <= nums0
    modifies m`blocks, m`nodes, m`nodeBuf, m`freeNodes, m`errno
    ensures InStep(m, p, l, {}) && ExtsWritten(l, m.nodes, e + 1) && m.errno == old(m.errno)
    ensures l0.leaves <= l.leaves && |l.leaves| == Min(p.Goal(), 68 + 64 * e) && l.exts == l0.exts
    ensures ptr == Start(kind, 68 + 64 * e)
  {
    hide DiskOk, Progress, ExtsWritten;
    var nums: seq<int>;
    nums, ptr, l := FillLeaves(m, kind, cache, nums0, start, end, cacheEnd, p, l0, e);
    WriteExt(p, l, m.nodes, e, nums);
    InodeDump(m, x, Ext(nums));
  }

  /** The inode of extension page i and the numbers it starts from. */
  method ExtInode(m: Machine, kind: Kind, num: int, i: nat, ptr: nat, cacheEnd: nat, ghost p: Plan, ghost l: Placed)
      returns (x: int, nums: seq<int>)
    requires p.o.kind == kind && cacheEnd == |p.o.entries| && ptr == Start(kind, 4 + 64 * i)
    requires InStep(m, p, l, {}) && |l.exts| == i < ExtCount(p.Goal()) && |l.leaves| == 4 + 64 * i < p.Goal()
    requires i < |p.o.exts| ==> num == p.o.exts[i]
    modifies m`blocks, m`nodeBuf, m`freeNodes, m`errno
    ensures m.Sound() && m.Formatted() && m.errno == old(m.errno)
    ensures NextExt(p, l, x) && m.freeNodes == l.left - {x}
    ensures |nums| == 64 && Share(p.o.leaves, 4 + 64 * i, 68 + 64 * i) <= nums
  {
    LeafCountExact(kind, cacheEnd, 4 + 64 * i);
    ExtCountExact(|p.o.leaves|, i);
    if ptr >= cacheEnd {
      ExtLeft(p, l);
      x := FreeInodePop(m);
      nums := seq(64, _ => 0);
    } else {
      OldExt(p, l, m.nodes, i);
      x := num;
      assert x in p.o.exts;
      var lv1 := InodeLoad(m, x);
      nums := lv1.nums;
    }
  }

  lemma StartLevel2(p: Plan, l: Placed, nodes: seq<Inode>, ptr: nat, exts: seq<int>)
    requires Progress(p, l, nodes) && l.exts == [] && |l.leaves| == Min(4, p.Goal())
    requires ptr == Start(p.o.kind, 4) && |exts| == 4 && p.o.exts <= exts
    ensures ExtsWritten(l, nodes, 0) && Level2Ok(p, l, 0, ptr, exts, exts)
    ensures p.Goal() <= 260 && ExtCount(p.Goal()) <= 4
  {
  }

  /** The four extension pages. */
  method SetLevel2(m: Machine, kind: Kind, cache: seq<Entry>, exts0: seq<int>, start: nat, end: nat, cacheEnd: nat,
                   ghost p: Plan, ghost l0: Placed)
      returns (exts: seq<int>, ghost l: Placed)
    requires p.o.kind == kind && cache == p.cache && end == p.n && cacheEnd == |p.o.entries|
    requires InStep(m, p, l0, Released(p.o, p.Goal(), 4, 0)) && start == Start(kind, 4)
    requires l0.exts == [] && |l0.leaves| == Min(4, p.Goal())
    requires |exts0| == 4 && p.o.exts <= exts0
    modifies m`blocks, m`nodes, m`nodeBuf, m`freeNodes, m`errno
    ensures InStep(m, p, l, Released(p.o, p.Goal(), 260, 4)) && m.errno == old(m.errno)
    ensures l0.leaves <= l.leaves && |l.leaves| == p.Goal()
    ensures |l.exts| == ExtCount(p.Goal()) && ExtsWritten(l, m.nodes, |l.exts|)
    ensures |exts| == 4 && l.exts <= exts
  {
    hide DiskOk, Progress, Released, ExtsWritten;
    exts, l := exts0, l0;
    var ptr: nat := start;
    StartLevel2(p, l, m.nodes, ptr, exts);
    for i := 0 to 4
      invariant InLevel2(m, p, l, i, ptr, exts, exts0) && m.errno == old(m.errno)
      invariant l0.leaves <= l.leaves
    {
      hide InLevel2;
      if ptr >= end {
        ptr := DropExt(m, kind, exts, i, ptr, end, cacheEnd, p, l, exts0);
      } else {
        exts, ptr, l := KeepExt(m, kind, cache, exts, i, ptr, end, cacheEnd, p, l, exts0);
      }
    }
  }

  /** The rewrite of one index, whatever the other objects are. */
  method SetIndex(m: Machine, kind: Kind, cache: seq<Entry>, inum: int, newsize: nat, ghost p: Plan)
      returns (ghost o': Obj)
    requires m.Sound() && m.Formatted() && p.Ok() && p.nodes == m.nodes && p.free == m.freeNodes
    requires p.o.kind == kind && p.cache == cache && p.n == newsize
    requires ROOT <= inum < BITMAP_NODES
    requires HeadRep(m.nodes[inum], inum, p.o) && inum !in p.free && inum !in Pages(p.o)
    modifies m`blocks, m`nodes, m`nodeBuf, m`freeNodes, m`errno
    ensures m.Sound() && m.Formatted() && m.errno == old(m.errno)
    ensures Resized(p.o, o', cache[..newsize], old(m.freeNodes), m.freeNodes) && SameMeta(p.o, o')
    ensures |m.nodes| == SLOT_COUNT && ObjRep(m.nodes, inum, o')
    ensures forall j :: 0 <= j < SLOT_COUNT && j !in InodesOf(inum, o') ==> m.nodes[j] == old(m.nodes)[j]
  {
    hide DiskOk, Progress, ExtsWritten, Released;
    StartPlan(p);
    var x := InodeLoad(m, inum);
    var oldsize := x.meta.size;
    var direct := cache[..Direct(kind)];
    var ptr := Direct(kind);
    ghost var l: Placed;
    var pages, exts: seq<int>;
    pages, ptr, l := SetLevel1(m, kind, cache, x.pages, ptr, newsize, oldsize, p);
    ghost var leaves4 := l.leaves;
    exts, l := SetLevel2(m, kind, cache, x.exts, ptr, newsize, oldsize, p, l);
    var head := Head(x.meta.(size := newsize), direct, pages, exts);
    o' := Rebuilt(p, l);
    FinishHead(p, l, inum, head, leaves4);
    Finish(p, l, m.nodes, m.freeNodes, inum, head);
    InodeDump(m, x.meta.ino, head);
  }

  lemma FinishHead(p: Plan, l: Placed, h: int, head: Inode, leaves4: seq<int>)
    requires p.n <= |p.cache| && |p.cache| >= Direct(p.o.kind)
    requires |leaves4| == Min(4, |l.leaves|) && leaves4 <= l.leaves
    requires head.Head? && head.meta == Meta(p.o.kind, h, p.o.pno, p.n, p.o.nlink, p.o.fsize)
    requires head.direct == p.cache[..Direct(p.o.kind)]
    requires |head.pages| == 4 && leaves4 <= head.pages && |head.exts| == 4 && l.exts <= head.exts
    ensures HeadRep(head, h, Rebuilt(p, l))
  {
  }

  lemma Finish(p: Plan, l: Placed, nodes: seq<Inode>, free': set<int>, h: int, head: Inode)
    requires Progress(p, l, nodes) && |l.leaves| == p.Goal() && |l.exts| == ExtCount(p.Goal())
    requires ExtsWritten(l, nodes, |l.exts|) && free' == l.left + Released(p.o, p.Goal(), 260, 4)
    requires ROOT <= h < BITMAP_NODES && h !in p.free && h !in Pages(p.o)
    requires HeadRep(head, h, Rebuilt(p, l))
    ensures Resized(p.o, Rebuilt(p, l), p.cache[..p.n], p.free, free')
    ensures |nodes| == SLOT_COUNT && ObjRep(nodes[h := head], h, Rebuilt(p, l))
    ensures forall j :: 0 <= j < SLOT_COUNT && j !in InodesOf(h, Rebuilt(p, l)) ==> nodes[h := head][j] == p.nodes[j]
  {
    hide Resized, PlacedOk, Released, ExtsWritten, HeadRep, Unique;
    var o' := Rebuilt(p, l);
    assert |p.o.leaves| <= 260 && |p.o.exts| <= 4;
    ReleasedEnd(p.o, p.Goal(), 260, 4);
    PlacedResizes(p, l, free');
    PlacedAll(p, l);
    assert h !in Pages(o') by {
      assert Pages(o') <= Pages(p.o) + p.free;
    }
    PlacedRep(p, l, nodes, h, head);
  }

  /** The rewrite of one index among all objects. */
  method Rewrite(m: Machine, kind: Kind, inum: int, cache: seq<Entry>, newsize: nat)
    requires m.Sound() && m.Formatted() && Rep(m.nodes, m.objs) && Ownership(m.objs, m.freeNodes)
    requires inum in m.objs && m.objs[inum].kind == kind
    requires |cache| == Start(kind, 260) && newsize <= MaxEntries(kind)
    requires |m.freeNodes| + Need(kind, |m.objs[inum].entries|) >= Need(kind, newsize)
    modifies m`blocks, m`nodes, m`nodeBuf, m`freeNodes, m`errno, m`objs
    ensures m.Sound() && m.Formatted() && Rep(m.nodes, m.objs) && Ownership(m.objs, m.freeNodes)
    ensures inum in m.objs && m.objs == old(m.objs)[inum := m.objs[inum]] && m.errno == old(m.errno)
    ensures Resized(old(m.objs[inum]), m.objs[inum], cache[..newsize], old(m.freeNodes), m.freeNodes)
    ensures SameMeta(old(m.objs[inum]), m.objs[inum])
  {
    ghost var objs := m.objs;
    ghost var p := Plan(m.objs[inum], cache, newsize, m.nodes, m.freeNodes);
    PlanFits(p, objs, inum);
    hide DiskOk, ObjRep, Resized, Ownership, Need, HeadRep, InodesOf, Pages;
    ghost var o' := SetIndex(m, kind, cache, inum, newsize, p);
    ResizeKeepsOwnership(objs, p.free, inum, o', cache[..newsize], m.freeNodes);
    ResizeKeepsRep(objs, p.free, p.nodes, m.nodes, inum, o', cache[..newsize], m.freeNodes);
    m.objs := objs[inum := o'];
  }

  /** listing_set: afterwards the index of `inum` holds the first `requested` cached
      entries, cut at the largest size, and every other object is where it was. */
  method ListingSet(m: Machine, kind: Kind, inum: int, requested: nat)
    requires m.Sound() && m.Formatted() && Rep(m.nodes, m.objs) && Ownership(m.objs, m.freeNodes)
    requires inum in m.objs && m.objs[inum].kind == kind
    requires |m.freeNodes| + Need(kind, |m.objs[inum].entries|) >= Need(kind, Min(requested, MaxEntries(kind)))
    modifies m`blocks, m`nodes, m`nodeBuf, m`freeNodes, m`errno, m`objs
    ensures m.Sound() && m.Formatted() && Rep(m.nodes, m.objs) && Ownership(m.objs, m.freeNodes)
    ensures inum in m.objs && m.objs == old(m.objs)[inum := m.objs[inum]]
    ensures Resized(old(m.objs[inum]), m.objs[inum], Cache(m, kind)[..Min(requested, MaxEntries(kind))],
                    old(m.freeNodes), m.freeNodes)
    ensures SameMeta(old(m.objs[inum]), m.objs[inum])
    ensures m.errno == if requested > MaxEntries(kind) then -EFBIG else old(m.errno)
  {
    hide DiskOk, Rep, Resized, Ownership, Need;
    var newsize := Clamp(m, kind, requested);
    var cache := Cache(m, kind)[..];
    Rewrite(m, kind, inum, cache, newsize);
    assert cache[..newsize] == Cache(m, kind)[..newsize];
  }

  /** The round trip: what was set is what is listed, whatever the old and the new size. */
  method SetThenList(m: Machine, kind: Kind, inum: int, requested: nat) returns (size: int)
    requires m.Sound() && m.Formatted() && Rep(m.nodes, m.objs) && Ownership(m.objs, m.freeNodes)
    requires inum in m.objs && m.objs[inum].kind == kind
    requires |m.freeNodes| + Need(kind, |m.objs[inum].entries|) >= Need(kind, Min(requested, MaxEntries(kind)))
    modifies m`blocks, m`nodes, m`nodeBuf, m`freeNodes, m`errno, m`objs, Cache(m, kind)
    ensures size == Min(requested, MaxEntries(kind)) <= Cache(m, kind).Length
    ensures Cache(m, kind)[..size] == old(Cache(m, kind)[..])[..size]
  {
    hide DiskOk, Rep, Ownership, Need;
    ListingSet(m, kind, inum, requested);
    size := Listing(m, kind, inum);
  }

  /** The size that is set: too large ones are cut and reported. */
  method Clamp(m: Machine, kind: Kind, requested: nat) returns (newsize: nat)
    modifies m`errno
    ensures newsize == Min(requested, MaxEntries(kind))
    ensures m.errno == if requested > MaxEntries(kind) then -EFBIG else old(m.errno)
  {
    newsize := requested;
    if kind.File? {
      if newsize > FENTRY_MAX_SIZE {
        m.ErrnoPush(-EFBIG);
        newsize := FENTRY_MAX_SIZE;
      }
    } else {
      if newsize >= DENTRY_MAX_SIZE {
        m.ErrnoPush(-EFBIG);
        newsize := DENTRY_MAX_SIZE - 1;
      }
    }
  }

  lemma PlanFits(p: Plan, objs: map<int, Obj>, h: int)
    requires Rep(p.nodes, objs) && Ownership(objs, p.free) && h in objs && objs[h] == p.o
    requires |p.cache| == Start(p.o.kind, 260) && p.n <= MaxEntries(p.o.kind)
    requires |p.free| + Need(p.o.kind, |p.o.entries|) >= Need(p.o.kind, p.n)
    ensures p.Ok() && ROOT <= h < BITMAP_NODES && h !in p.free && h !in Pages(p.o)
    ensures HeadRep(p.nodes[h], h, p.o)
  {
    OwnershipMeansApart(objs, p.free);
    FreeArePages(objs, p.free);
    hide Ownership;
    assert ObjRep(p.nodes, h, p.o);
    assert InodesOf(h, p.o) !! p.free;
  }

  lemma FreeArePages(objs: map<int, Obj>, free: set<int>)
    requires Ownership(objs, free)
    ensures forall x :: x in free ==> IsPageNum(x)
  {
  }

  lemma ResizeKeepsRep(objs: map<int, Obj>, free: set<int>, nodes: seq<Inode>, nodes': seq<Inode>, h: int, o': Obj,
                       entries: seq<Entry>, free': set<int>)
    requires Rep(nodes, objs) && Ownership(objs, free) && h in objs && |nodes'| == SLOT_COUNT
    requires Resized(objs[h], o', entries, free, free') && ObjRep(nodes', h, o')
    requires forall j :: 0 <= j < SLOT_COUNT && j !in InodesOf(h, o') ==> nodes'[j] == nodes[j]
    ensures Rep(nodes', objs[h := o'])
  {
    hide ObjRep, Resized, Ownership;
    forall g | g in objs && g != h
      ensures ObjRep(nodes', g, objs[g])
    {
      ResizedApart(objs, free, h, o', entries, free', g);
      UntouchedRep(nodes, nodes', g, objs[g]);
    }
  }
}
