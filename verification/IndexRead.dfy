/** Reading a whole index into the shared cache (inode.c:257-284, 360-387). */
module IndexRead {
  import opened Disk
  import opened IndexSpec
  import opened InodeIo
  import opened Owners

  function Cache(m: Machine, kind: Kind): array<Entry> {
    if kind.File? then m.f else m.d
  }

  /** memcpy into the cache. */
  method CopyIn(cache: array<Entry>, ptr: nat, src: seq<Entry>)
    requires ptr + |src| <= cache.Length
    modifies cache
    ensures cache[..] == old(cache[..ptr]) + src + old(cache[ptr + |src|..])
  {
    forall i | 0 <= i < |src| {
      cache[ptr + i] := src[i];
    }
  }

  lemma CopiedPage(entries: seq<Entry>, before: seq<Entry>, ptr: nat, page: seq<Entry>)
    requires ptr + |page| <= |before| && ptr <= |entries|
    requires entries[..ptr] == before[..ptr]
    requires Share(entries, ptr, ptr + |page|) <= page
    ensures var after := before[..ptr] + page + before[ptr + |page|..];
            var n := Min(ptr + |page|, |entries|);
            |after| == |before| && n <= |after| && entries[..n] == after[..n]
  {
  }

  /** One leaf page: load it and append it to what the cache holds already. */
  method ListPage(m: Machine, cache: array<Entry>, ghost o: Obj, ghost k: nat, num: int, ptr: nat)
    requires m.Sound() && cache.Length >= MaxEntries(o.kind)
    requires Shaped(o) && k < |o.leaves| && num == o.leaves[k] && ptr == Start(o.kind, k) < |o.entries|
    requires IsPageNum(num) && PageRep(m.nodes[num], o, k)
    requires ptr + PerPage(o.kind) <= cache.Length && o.entries[..ptr] == cache[..ptr]
    modifies m`nodeBuf, cache
    ensures var n := Min(ptr + PerPage(o.kind), |o.entries|);
            n <= cache.Length && o.entries[..n] == cache[..n]
  {
    var p := InodeLoad(m, num);
    CopiedPage(o.entries, cache[..], ptr, p.entries);
    CopyIn(cache, ptr, p.entries);
  }

  lemma ShareAt(leaves: seq<int>, nums: seq<int>, e: nat, j: nat)
    requires |nums| == 64 && Share(leaves, 4 + 64 * e, 68 + 64 * e) <= nums
    requires j < 64 && 4 + 64 * e + j < |leaves|
    ensures nums[j] == leaves[4 + 64 * e + j]
  {
  }

  /** The pages of one extension page; `done` when the end of the list was reached. */
  method ListExt(m: Machine, kind: Kind, cache: array<Entry>, ghost o: Obj, ghost e: nat, lv1: Inode, start: nat,
                 size: nat)
      returns (ptr: nat, done: bool)
    requires m.Sound() && cache.Length >= Start(o.kind, 260)
    requires Shaped(o) && o.kind == kind && size == |o.entries| && e < 4
    requires forall k {:trigger o.leaves[k]} :: 0 <= k < |o.leaves| ==>
               IsPageNum(o.leaves[k]) && PageRep(m.nodes[o.leaves[k]], o, k)
    requires ExtRep(lv1, o.leaves, e)
    requires start == Start(o.kind, 4 + 64 * e) < size && o.entries[..start] == cache[..start]
    modifies m`nodeBuf, cache
    ensures done ==> o.entries == cache[..size]
    ensures !done ==> ptr == Start(o.kind, 68 + 64 * e) < size && o.entries[..ptr] == cache[..ptr]
  {
    hide DiskOk, LeafCount, ExtCount;
    ptr, done := start, false;
    for j := 0 to 64
      invariant ptr == Start(o.kind, 4 + 64 * e + j) < size && o.entries[..ptr] == cache[..ptr]
    {
      LeafCountExact(o.kind, size, 4 + 64 * e + j);
      ShareAt(o.leaves, lv1.nums, e, j);
      ListPage(m, cache, o, 4 + 64 * e + j, lv1.nums[j], ptr);
      ptr := ptr + PerPage(kind);
      if ptr >= size { return ptr, true; }
    }
  }

  lemma LiesThere(nodes: seq<Inode>, objs: map<int, Obj>, h: int)
    requires Rep(nodes, objs) && h in objs
    ensures var o := objs[h];
      && |nodes| == SLOT_COUNT && ObjRep(nodes, h, o) && ROOT <= h < BITMAP_NODES && Shaped(o)
          && |o.entries| <= MaxEntries(o.kind)
      && nodes[h].Head? && nodes[h].meta.size == |o.entries|
      && |nodes[h].direct| == Direct(o.kind) && Share(o.entries, 0, Direct(o.kind)) <= nodes[h].direct
  {
  }

  /** A page named by the head that starts inside the list. */
  lemma FirstPage(nodes: seq<Inode>, h: int, o: Obj, k: nat)
    requires |nodes| == SLOT_COUNT && ObjRep(nodes, h, o) && k < 4 && Start(o.kind, k) < |o.entries|
    ensures k < |o.leaves| && |nodes[h].pages| == 4 && nodes[h].pages[k] == o.leaves[k]
    ensures IsPageNum(o.leaves[k]) && PageRep(nodes[o.leaves[k]], o, k)
  {
    LeafCountExact(o.kind, |o.entries|, k);
    assert nodes[h].pages[k] == Take(o.leaves, 4)[k];
  }

  lemma ExtPage(nodes: seq<Inode>, h: int, o: Obj, e: nat)
    requires |nodes| == SLOT_COUNT && ObjRep(nodes, h, o) && e < 4 && Start(o.kind, 4 + 64 * e) < |o.entries|
    ensures e < |o.exts| && |nodes[h].exts| == 4 && nodes[h].exts[e] == o.exts[e]
    ensures IsPageNum(o.exts[e]) && ExtRep(nodes[o.exts[e]], o.leaves, e)
  {
    LeafCountExact(o.kind, |o.entries|, 4 + 64 * e);
    ExtCountExact(|o.leaves|, e);
  }

  lemma LeafPages(nodes: seq<Inode>, h: int, o: Obj)
    requires |nodes| == SLOT_COUNT && ObjRep(nodes, h, o)
    ensures forall k {:trigger o.leaves[k]} :: 0 <= k < |o.leaves| ==>
      IsPageNum(o.leaves[k]) && PageRep(nodes[o.leaves[k]], o, k)
  {
  }

  /** The pages named by the head; `done` when the end of the list was reached. */
  method ListPages(m: Machine, kind: Kind, cache: array<Entry>, ghost o: Obj, ghost h: int, x: Inode,
                   size: nat) returns (done: bool)
    requires m.Sound() && cache.Length >= Start(o.kind, 260) && o.kind == kind && size == |o.entries| && Shaped(o)
    requires ROOT <= h < BITMAP_NODES && |m.nodes| == SLOT_COUNT && ObjRep(m.nodes, h, o) && x == m.nodes[h] && x.Head?
    requires Direct(kind) < size && o.entries[..Direct(kind)] == cache[..Direct(kind)]
    modifies m`nodeBuf, cache
    ensures done ==> o.entries == cache[..size]
    ensures !done ==> Start(kind, 4) < size && o.entries[..Start(kind, 4)] == cache[..Start(kind, 4)]
  {
    hide DiskOk, ObjRep, PageRep, LeafCount, ExtCount;
    var ptr := Direct(kind);
    for i := 0 to 4
      invariant ptr == Start(kind, i) < size && o.entries[..ptr] == cache[..ptr]
    {
      FirstPage(m.nodes, h, o, i);
      ListPage(m, cache, o, i, x.pages[i], ptr);
      ptr := ptr + PerPage(kind);
      if ptr >= size { return true; }
    }
    done := false;
  }

  method ListExts(m: Machine, kind: Kind, cache: array<Entry>, ghost o: Obj, ghost h: int, x: Inode, size: nat)
    requires m.Sound() && cache.Length >= Start(o.kind, 260) && o.kind == kind && size == |o.entries| && Shaped(o)
    requires ROOT <= h < BITMAP_NODES && |m.nodes| == SLOT_COUNT && ObjRep(m.nodes, h, o) && x == m.nodes[h] && x.Head?
    requires Start(kind, 4) < size <= MaxEntries(kind) && o.entries[..Start(kind, 4)] == cache[..Start(kind, 4)]
    modifies m`nodeBuf, cache
    ensures o.entries == cache[..size]
  {
    hide DiskOk, ObjRep, PageRep, ExtRep, LeafCount, ExtCount;
    LeafPages(m.nodes, h, o);
    var ptr, done := Start(kind, 4), false;
    for i := 0 to 4
      invariant ptr == Start(kind, 4 + 64 * i) < size && o.entries[..ptr] == cache[..ptr]
    {
      ExtPage(m.nodes, h, o, i);
      var lv1 := InodeLoad(m, x.exts[i]);
      ptr, done := ListExt(m, kind, cache, o, i, lv1, ptr, size);
      if done { return; }
    }
    assert false;
  }

  method Listing(m: Machine, kind: Kind, inum: int) returns (size: int)
    requires m.Sound() && Rep(m.nodes, m.objs) && inum in m.objs && m.objs[inum].kind == kind
    modifies m`nodeBuf, Cache(m, kind)
    ensures size == |m.objs[inum].entries| <= Cache(m, kind).Length
    ensures Cache(m, kind)[..size] == m.objs[inum].entries
  {
    CacheLengths(m);
    hide DiskOk, LeafCount, ExtCount, Rep, ObjRep;
    LiesThere(m.nodes, m.objs, inum);
    var cache := Cache(m, kind);
    ghost var o := m.objs[inum];
    var x := InodeLoad(m, inum);
    size := x.meta.size;
    CopiedPage(o.entries, cache[..], 0, x.direct);
    CopyIn(cache, 0, x.direct);
    if Direct(kind) >= size { return; }
    var done := ListPages(m, kind, cache, o, inum, x, size);
    if !done {
      ListExts(m, kind, cache, o, inum, x, size);
    }
  }

  lemma CacheLengths(m: Machine)
    requires m.Sound()
    ensures m.d.Length == DENTRY_MAX_SIZE && m.f.Length == FENTRY_MAX_SIZE
  {
  }
}
