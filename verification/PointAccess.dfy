/** Single entries of an index (inode.c:132-255). */
module PointAccess {
  import opened Disk
  import opened IndexSpec
  import opened InodeIo
  import opened Owners
  import opened IndexRead
  import opened Attributes

  /** The entries from here on hang off an extension page. */
  function Deep(kind: Kind): int { Start(kind, 4) }

  /** Up to here the page arithmetic of the code is right: 216 for files, 102 for directories. */
  function Reached(kind: Kind): int { Deep(kind) + 64 }

  /** Which extension page the code loads for entry k, and which of its pages. */
  function CodeExt(kind: Kind, k: int): int { (k - Deep(kind)) / 64 * PerPage(kind) }

  function CodeLeaf(kind: Kind, k: int): int { (k - Deep(kind)) / PerPage(kind) }

  /** Where entry k lies: entry i of page j below extension page e. */
  predicate LiesAt(kind: Kind, k: int, e: int, j: int, i: int) {
    && 0 <= e < 4 && 0 <= j < 64 && 0 <= i < PerPage(kind)
    && k == Start(kind, 4 + 64 * e + j) + i
  }

  lemma LiesOnce(kind: Kind, k: int, e: int, j: int, i: int, e': int, j': int, i': int)
    requires LiesAt(kind, k, e, j, i) && LiesAt(kind, k, e', j', i')
    ensures e == e' && j == j' && i == i'
  {
  }

  /** The code finds the place of entry k exactly when k is below the bound; from there
      on its extension page number is not even one of the four. */
  lemma AddressExact(kind: Kind, k: int)
    requires Deep(kind) <= k < Start(kind, 260)
    ensures LiesAt(kind, k, CodeExt(kind, k), CodeLeaf(kind, k), (k - Deep(kind)) % PerPage(kind)) <==>
      k < Reached(kind)
    ensures k >= Reached(kind) ==> CodeExt(kind, k) >= 4
  {
  }

  // One page.

  lemma PageAt(x: Inode, o: Obj, k: nat, i: nat)
    requires PageRep(x, o, k) && i < PerPage(o.kind) && Start(o.kind, k) + i < |o.entries|
    ensures x.entries[i] == o.entries[Start(o.kind, k) + i]
  {
  }

  lemma PageSet(x: Inode, o: Obj, k: nat, i: nat, e: Entry)
    requires PageRep(x, o, k) && i < PerPage(o.kind) && Start(o.kind, k) + i < |o.entries|
    ensures PageRep(Page(x.entries[i := e]), EntryAt(o, Start(o.kind, k) + i, e), k)
  {
  }

  /** The object with entry k replaced. */
  function EntryAt(o: Obj, k: nat, e: Entry): Obj
    requires k < |o.entries|
  {
    o.(entries := o.entries[k := e])
  }

  lemma ShareElsewhere(s: seq<Entry>, k: nat, e: Entry, lo: nat, hi: nat)
    requires k < |s| && lo <= hi && !(lo <= k < hi)
    ensures Share(s[k := e], lo, hi) == Share(s, lo, hi)
  {
  }

  /** A changed page of the object; the rest of its inodes hold what they should. */
  lemma LeafSet(nodes: seq<Inode>, h: int, o: Obj, k: nat, i: nat, e: Entry)
    requires |nodes| == SLOT_COUNT && ObjRep(nodes, h, o) && Unique(o.leaves, o.exts) && h !in Pages(o)
    requires k < |o.leaves| && i < PerPage(o.kind) && Start(o.kind, k) + i < |o.entries|
    ensures nodes[o.leaves[k]].Page? && |nodes[o.leaves[k]].entries| == PerPage(o.kind)
    ensures ObjRep(nodes[o.leaves[k] := Page(nodes[o.leaves[k]].entries[i := e])], h,
      EntryAt(o, Start(o.kind, k) + i, e))
  {
    hide LeafCount, ExtCount;
    var j, at := o.leaves[k], Start(o.kind, k) + i;
    var x := Page(nodes[j].entries[i := e]);
    var o' := EntryAt(o, at, e);
    assert j in Pages(o);
    PageSet(nodes[j], o, k, i, e);
    ShareElsewhere(o.entries, at, e, 0, Direct(o.kind));
    assert Take(o'.entries, Direct(o.kind)) == Take(o.entries, Direct(o.kind));
    forall n | 0 <= n < |o.leaves|
      ensures IsPageNum(o.leaves[n]) && PageRep(nodes[j := x][o.leaves[n]], o', n)
    {
      if n != k {
        ShareElsewhere(o.entries, at, e, Start(o.kind, n), Start(o.kind, n + 1));
      }
    }
    forall n | 0 <= n < |o.exts|
      ensures IsPageNum(o.exts[n]) && ExtRep(nodes[j := x][o.exts[n]], o.leaves, n)
    {
    }
  }

  lemma HeadSet(nodes: seq<Inode>, h: int, o: Obj, k: nat, e: Entry)
    requires |nodes| == SLOT_COUNT && ObjRep(nodes, h, o) && h !in Pages(o)
    requires k < |o.entries| && k < Direct(o.kind)
    ensures nodes[h].Head? && |nodes[h].direct| == Direct(o.kind)
    ensures ObjRep(nodes[h := nodes[h].(direct := nodes[h].direct[k := e])], h, EntryAt(o, k, e))
  {
  }

  /** No other object changes, and nobody's inodes change hands. */
  lemma EntryKeepsOthers(objs: map<int, Obj>, free: set<int>, nodes: seq<Inode>, h: int, k: nat, e: Entry, j: int,
                         x: Inode)
    requires Rep(nodes, objs) && Ownership(objs, free) && h in objs && k < |objs[h].entries|
    requires j in InodesOf(h, objs[h]) && 0 <= j < SLOT_COUNT
    requires ObjRep(nodes[j := x], h, EntryAt(objs[h], k, e))
    ensures Rep(nodes[j := x], objs[h := EntryAt(objs[h], k, e)]) && Ownership(objs[h := EntryAt(objs[h], k, e)], free)
  {
    OwnershipMeansApart(objs, free);
    var o' := EntryAt(objs[h], k, e);
    SameListSize(objs[h], k, e, free);
    ObjShaped(nodes, h, objs[h]);
    hide ObjRep;
    ResizeKeepsOwnership(objs, free, h, o', o'.entries, free);
    forall g | g in objs && g != h
      ensures ObjRep(nodes[j := x], g, objs[g])
    {
      UntouchedRep(nodes, nodes[j := x], g, objs[g]);
    }
  }

  lemma ObjShaped(nodes: seq<Inode>, h: int, o: Obj)
    requires |nodes| == SLOT_COUNT && ObjRep(nodes, h, o)
    ensures Shaped(o)
  {
  }

  lemma SameListSize(o: Obj, k: nat, e: Entry, free: set<int>)
    requires k < |o.entries| && Unique(o.leaves, o.exts)
    ensures Shaped(o) ==> Resized(o, EntryAt(o, k, e), EntryAt(o, k, e).entries, free, free)
  {
  }

  // The operations.

  lemma HeadIs(nodes: seq<Inode>, objs: map<int, Obj>, h: int)
    requires Rep(nodes, objs) && h in objs
    ensures |nodes| == SLOT_COUNT
    ensures var o, x := objs[h], nodes[h];
      ROOT <= h < BITMAP_NODES && ObjRep(nodes, h, o) && x.Head? && x.meta.size == |o.entries|
          && |x.direct| == Direct(o.kind)
  {
  }

  /** A page named by the head itself. */
  lemma PageOfHead(nodes: seq<Inode>, h: int, o: Obj, k: int)
    requires |nodes| == SLOT_COUNT && ObjRep(nodes, h, o) && Direct(o.kind) <= k < |o.entries| && k < Deep(o.kind)
    ensures var page := (k - Direct(o.kind)) / PerPage(o.kind);
      && page < 4 && page < |o.leaves| && |nodes[h].pages| == 4 && nodes[h].pages[page] == o.leaves[page]
      && k == Start(o.kind, page) + (k - Direct(o.kind)) % PerPage(o.kind)
  {
  }

  /** A page named by an extension page, found by the arithmetic of the code. */
  lemma PageOfExt(nodes: seq<Inode>, h: int, o: Obj, k: int)
    requires |nodes| == SLOT_COUNT && ObjRep(nodes, h, o) && Deep(o.kind) <= k < |o.entries| && k < Reached(o.kind)
    ensures var ext, leaf, page := CodeExt(o.kind, k), CodeLeaf(o.kind, k), 4 + CodeLeaf(o.kind, k);
      && 0 == ext < |o.exts| && |nodes[h].exts| == 4 && nodes[h].exts[ext] == o.exts[ext] && IsPageNum(o.exts[ext])
      && leaf < 64 && page < |o.leaves| && nodes[o.exts[ext]].Ext? && |nodes[o.exts[ext]].nums| == 64
      && nodes[o.exts[ext]].nums[leaf] == o.leaves[page]
      && k == Start(o.kind, page) + (k - Deep(o.kind)) % PerPage(o.kind)
  {
    var page := 4 + CodeLeaf(o.kind, k);
    AddressExact(o.kind, k);
    LeafCountExact(o.kind, |o.entries|, page);
    ExtCountExact(|o.leaves|, 0);
    assert ExtRep(nodes[o.exts[0]], o.leaves, 0);
    ShareAt(o.leaves, nodes[o.exts[0]].nums, 0, CodeLeaf(o.kind, k));
  }

  lemma LeafIs(nodes: seq<Inode>, h: int, o: Obj, page: nat)
    requires |nodes| == SLOT_COUNT && ObjRep(nodes, h, o) && page < |o.leaves|
    ensures IsPageNum(o.leaves[page]) && PageRep(nodes[o.leaves[page]], o, page)
  {
  }

  /** The page that holds entry k and its place there. */
  method PageOf(m: Machine, kind: Kind, inum: int, x: Inode, k: int) returns (num: int, offset: int, ghost page: nat)
    requires m.Sound() && Rep(m.nodes, m.objs) && inum in m.objs && m.objs[inum].kind == kind
    requires ROOT <= inum < BITMAP_NODES && x == m.nodes[inum]
    requires Direct(kind) <= k < |m.objs[inum].entries| && k < Reached(kind)
    modifies m`nodeBuf
    ensures page < |m.objs[inum].leaves| && num == m.objs[inum].leaves[page]
    ensures 0 <= offset < PerPage(kind) && k == Start(kind, page) + offset
    ensures IsPageNum(num) && PageRep(m.nodes[num], m.objs[inum], page)
  {
    hide DiskOk, Rep, ObjRep, PageRep, LeafCount, ExtCount;
    ghost var o := m.objs[inum];
    HeadIs(m.nodes, m.objs, inum);
    var lv2, lv1 := k - Direct(kind) - 4 * PerPage(kind), k - Direct(kind);
    if lv2 >= 0 {
      PageOfExt(m.nodes, inum, o, k);
      offset, page := lv2 % PerPage(kind), 4 + lv2 / PerPage(kind);
      var lv1Page, lv2Page := lv2 / 64 * PerPage(kind), lv2 / PerPage(kind);
      var lv1Buf := InodeLoad(m, x.exts[lv1Page]);
      num := lv1Buf.nums[lv2Page];
    } else {
      PageOfHead(m.nodes, inum, o, k);
      offset, page := lv1 % PerPage(kind), lv1 / PerPage(kind);
      num := x.pages[lv1 / PerPage(kind)];
    }
    LeafIs(m.nodes, inum, o, page);
  }

  function NoEntry(kind: Kind): Entry {
    if kind.File? then Blk(0) else Ent("", 0)
  }

  /** fnode_entry_get and dnode_entry_get. Only the one for files looks at the sign of the offset. */
  method EntryGet(m: Machine, kind: Kind, inum: int, k: int) returns (e: Entry)
    requires m.Sound() && Rep(m.nodes, m.objs) && inum in m.objs && m.objs[inum].kind == kind
    requires k < Reached(kind) || k >= |m.objs[inum].entries|
    requires kind.File? || k >= 0
    modifies m`nodeBuf
    ensures 0 <= k < |m.objs[inum].entries| ==> e == m.objs[inum].entries[k]
    ensures !(0 <= k < |m.objs[inum].entries|) ==> e == if kind.File? then Blk(0) else Ent("", 0)
  {
    ghost var o := m.objs[inum];
    HeadIs(m.nodes, m.objs, inum);
    var x := InodeLoad(m, inum);
    if k >= x.meta.size { return NoEntry(kind); }
    if k >= Direct(kind) {
      var num, offset, page := PageOf(m, kind, inum, x, k);
      var p := InodeLoad(m, num);
      PageAt(p, o, page, offset);
      e := p.entries[offset];
    } else if k >= 0 {
      assert x.direct[k] == Take(o.entries, Direct(kind))[k];
      e := x.direct[k];
    } else {
      e := NoEntry(kind);
    }
  }

  /** fnode_entry_set and dnode_entry_set: the list changes at position k alone. */
  method EntrySet(m: Machine, kind: Kind, inum: int, k: nat, e: Entry) returns (r: int)
    requires Indexed(m) && inum in m.objs && m.objs[inum].kind == kind
    requires k < Reached(kind) || k >= |m.objs[inum].entries|
    modifies m`blocks, m`nodes, m`nodeBuf, m`objs
    ensures Indexed(m)
    ensures k >= |old(m.objs)[inum].entries| ==> r == 0 && m.objs == old(m.objs) && m.blocks == old(m.blocks)
    ensures k < |old(m.objs)[inum].entries| ==>
      r == 1 && m.objs == old(m.objs)[inum := EntryAt(old(m.objs)[inum], k, e)]
  {
    hide DiskOk, Ownership, Rep, ObjRep, PageRep;
    ghost var o := m.objs[inum];
    OwnershipMeansApart(m.objs, m.freeNodes);
    HeadIs(m.nodes, m.objs, inum);
    var x := InodeLoad(m, inum);
    if k >= x.meta.size { return 0; }
    var inodenum := inum;
    if k >= Direct(kind) {
      var num, offset, page := PageOf(m, kind, inum, x, k);
      x := InodeLoad(m, num);
      LeafSet(m.nodes, inum, o, page, offset, e);
      inodenum, x := num, Page(x.entries[offset := e]);
    } else {
      HeadSet(m.nodes, inum, o, k, e);
      x := x.(direct := x.direct[k := e]);
    }
    EntryKeepsOthers(m.objs, m.freeNodes, m.nodes, inum, k, e, inodenum, x);
    InodeDump(m, inodenum, x);
    m.objs := m.objs[inum := EntryAt(o, k, e)];
    r := 1;
  }

  /** What was set is what is got, there and nowhere else. */
  method SetThenGet(m: Machine, kind: Kind, inum: int, k: nat, e: Entry, j: nat) returns (got: Entry)
    requires Indexed(m) && inum in m.objs && m.objs[inum].kind == kind
    requires k < |m.objs[inum].entries| && j < |m.objs[inum].entries| && k < Reached(kind) && j < Reached(kind)
    modifies m`blocks, m`nodes, m`nodeBuf, m`objs
    ensures Indexed(m) && got == if j == k then e else old(m.objs)[inum].entries[j]
  {
    hide DiskOk, Rep, Ownership;
    var _ := EntrySet(m, kind, inum, k, e);
    got := EntryGet(m, kind, inum, j);
  }

  /** The bounds in numbers, and what the index has room for. */
  lemma Bounds()
    ensures Reached(File) == 216 && Reached(Dir) == 102
    ensures Start(File, 260) == 8344 == MaxEntries(File) && Start(Dir, 260) == 2086 == MaxEntries(Dir) + 1
    ensures FCONTENT_MAX_SIZE == 512 * MaxEntries(File) == 4272128
  {
  }
}
