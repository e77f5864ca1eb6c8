/** The operations of the file system, composed of the layers below (sfs.c). */
module Sfs {
  import opened Disk
  import opened IndexSpec
  import opened IndexRead
  import opened IndexWrite
  import opened InodeIo
  import opened Bitmap
  import opened Owners
  import opened Attributes
  import opened Blocks
  import opened StreamFree
  import opened Names
  import opened Directory
  import opened Path
  import opened Tree
  import opened FileSystem
  import opened FreeBlock
  import opened StreamWrite

  ghost function FsOf(m: Machine): Fs
    reads m
  {
    Fs(m.objs, m.freeNodes, m.chain, m.data)
  }

  /** What holds between any two operations: the globals lie on the disk as the
      ghost state says, the invariant holds, and no error is pending. */
  ghost predicate Valid(m: Machine)
    reads m
  {
    Indexed(m) && Inv(FsOf(m)) && m.errno == 0
  }

  predicate PathOk(objs: map<int, Obj>, path: string) {
    Proper(objs, path) && |path| < PATH_MAX && path[|path| - 1] != '/'
  }

  ghost predicate CanCreate(s: Fs, path: string) {
    && PathOk(s.objs, path) && IsDir(s.objs, Parent(s.objs, path)) && 1 <= |Basename(path)| <= NAME_MAX
    && (Resolve(s.objs, path) < 0 ==>
          var n := |s.objs[Parent(s.objs, path)].entries|;
          |s.free| + Need(Dir, n) >= Need(Dir, n + 1) + 1)
  }

  ghost predicate CreateNext(s: Fs, kind: Kind, path: string, s': Fs, r: int)
    requires |path| >= 1
  {
    var p, name := Parent(s.objs, path), Basename(path);
    if Resolve(s.objs, path) > 0 then r == -EEXIST && s' == s
    else r == 0 && exists c :: CreateStep(s, kind, p, name, c, s')
  }

  // The new node.

  lemma NewRep(nodes: seq<Inode>, objs: map<int, Obj>, free: set<int>, c: int, head: Inode, o: Obj)
    requires Rep(nodes, objs) && Ownership(objs, free + {c}) && IsPageNum(c)
    requires ObjRep(nodes[c := head], c, o)
    ensures Rep(nodes[c := head], objs[c := o])
  {
  }

  /** fnode_init and dnode_init. */
  method InitNode(m: Machine, kind: Kind, inum: int, pnum: int)
    requires m.Sound() && m.Formatted() && Rep(m.nodes, m.objs)
    requires Ownership(m.objs, m.freeNodes + {inum}) && inum !in m.freeNodes && IsPageNum(inum)
    modifies m`blocks, m`nodes, m`nodeBuf, m`objs
    ensures Indexed(m) && m.objs == old(m.objs)[inum := NewObj(kind, inum, pnum)]
  {
    hide DiskOk, Rep, Ownership, ObjRep, NewHead;
    NodesLength(m);
    ghost var o := NewObj(kind, inum, pnum);
    var x := NewHead(kind, inum, pnum);
    NewHeadRep(m.nodes, kind, inum, pnum);
    NewRep(m.nodes, m.objs, m.freeNodes, inum, x, o);
    AddHead(m.objs, m.freeNodes + {inum}, inum, o);
    assert m.freeNodes + {inum} - {inum} == m.freeNodes;
    InodeDump(m, inum, x);
    m.objs := m.objs[inum := o];
  }

  /** The inode of an object is given back and the object is gone. */
  method DropNode(m: Machine, inum: int)
    requires Indexed(m) && inum in m.objs && inum != ROOT && m.objs[inum].leaves == [] && m.objs[inum].exts == []
    modifies m`blocks, m`freeNodes, m`objs
    ensures Indexed(m) && m.objs == old(m.objs) - {inum} && m.freeNodes == old(m.freeNodes) + {inum}
  {
    InodeRange(m, inum);
    hide DiskOk, Ownership, ObjRep;
    DropObject(m.objs, m.freeNodes, inum);
    assert InodesOf(inum, m.objs[inum]) == {inum};
    FreeInodePush(m, inum);
    m.objs := m.objs - {inum};
  }

  lemma InodeRange(m: Machine, inum: int)
    requires Indexed(m) && inum in m.objs
    ensures ROOT <= inum < BITMAP_NODES
  {
  }

  /** Pop, initialise, append. */
  method AddNode(m: Machine, kind: Kind, pinum: int, filename: string) returns (inum: int)
    requires Indexed(m) && IsDir(m.objs, pinum)
    requires var n := |m.objs[pinum].entries|;
      |m.freeNodes| + Need(Dir, n) >= Need(Dir, Min(n + 1, MaxEntries(Dir))) + 1 && n <= MaxEntries(Dir)
    modifies m`blocks, m`nodes, m`nodeBuf, m`freeNodes, m`errno, m`objs, m.d
    ensures Indexed(m) && IsLeast(inum, old(m.freeNodes)) && inum !in old(m.objs) && pinum in m.objs
    ensures m.objs == old(m.objs)[inum := NewObj(kind, inum, pinum)][pinum := m.objs[pinum]]
    ensures Appended(old(m.objs[pinum]), m.objs[pinum], DirEnt(filename, inum), old(m.freeNodes) - {inum}, m.freeNodes)
    ensures m.errno == if |old(m.objs[pinum]).entries| == MaxEntries(Dir) then -EFBIG else old(m.errno)
  {
    hide DiskOk, Rep, Ownership, Appended, NewObj;
    NeedMonotonic(Dir, |m.objs[pinum].entries|, Min(|m.objs[pinum].entries| + 1, MaxEntries(Dir)));
    ghost var objs, free := m.objs, m.freeNodes;
    inum := FreeInodePop(m);
    assert m.freeNodes + {inum} == free;
    LeastPage(objs, free, inum);
    FreeIsNoObject(objs, free, inum);
    InitNode(m, kind, inum, pinum);
    Append(m, pinum, DirEnt(filename, inum));
  }

  lemma FreeIsNoObject(objs: map<int, Obj>, free: set<int>, c: int)
    requires Ownership(objs, free) && c in free
    ensures c !in objs
  {
  }

  /** No entry has a name that does not resolve. */
  lemma AbsentName(s: Fs, path: string)
    requires Inv(s) && CanCreate(s, path) && Resolve(s.objs, path) <= 0
    ensures var p := Parent(s.objs, path);
      !HasName(s.objs[p].entries, Basename(path)) && NamesOk(s.objs[p].entries)
          && |s.objs[p].entries| <= MaxEntries(Dir)
    ensures Resolve(s.objs, path) < 0 && GoodName(Basename(path))
  {
    BasenamePlain(path);
    hide Ownership, BlocksOwned, Covered;
    var p, name := Parent(s.objs, path), Basename(path);
    var e := s.objs[p].entries;
    EntryNums(s, p);
  }

  lemma EntryNums(s: Fs, p: int)
    requires Inv(s) && IsDir(s.objs, p)
    ensures NamesOk(s.objs[p].entries) && |s.objs[p].entries| <= MaxEntries(Dir) && p >= ROOT
    ensures forall i :: 0 <= i < |s.objs[p].entries| ==> s.objs[p].entries[i].num >= ROOT
  {
    hide Ownership, BlocksOwned, Covered;
    var e := s.objs[p].entries;
    assert DirOk(s.objs, p, s.objs[p]);
    forall i | 0 <= i < |e|
      ensures e[i].num >= ROOT
    {
      assert i >= 2 ==> ChildOk(s.objs, p, e[i].num);
      assert e[i].num in s.objs;
    }
  }

  lemma CreatedInv(s: Fs, kind: Kind, path: string, c: int, s': Fs)
    requires Inv(s) && CanCreate(s, path) && Resolve(s.objs, path) < 0
    requires CreateStep(s, kind, Parent(s.objs, path), Basename(path), c, s')
    ensures Inv(s') && CreateNext(s, kind, path, s', 0)
  {
    AbsentName(s, path);
    hide Inv, CreateStep;
    CreateKeepsInv(s, kind, Parent(s.objs, path), Basename(path), c, s');
  }

  /** sfs_create and sfs_mkdir: the same steps but for the kind of node. */
  method Make(m: Machine, kind: Kind, path: string) returns (r: int)
    requires Valid(m) && CanCreate(FsOf(m), path)
    modifies m`blocks, m`nodes, m`nodeBuf, m`freeNodes, m`errno, m`objs, m.d
    ensures Valid(m) && CreateNext(old(FsOf(m)), kind, path, FsOf(m), r)
  {
    hide DiskOk, Rep, Ownership, BlocksOwned, Covered, TreeOk, Appended, NewObj, ThroughDirs, Resolve, Parent, Basename;
    ghost var s := FsOf(m);
    BasenameIs(path);
    var filename := AfterLastSlash(path);
    TreeNames(m.objs);
    var inum, pinum := PathToInum(m, path);
    if inum > 0 { return -EEXIST; }
    AbsentName(s, path);
    DirBound(s, pinum);
    inum := AddNode(m, kind, pinum, filename);
    assert Take(filename, NAME_MAX) == filename;
    r := m.ErrnoPop();
    if r < 0 {     // reverting: never needed, no directory is ever full
      assert false;
    }
    CreatedInv(s, kind, path, inum, FsOf(m));
  }

  // Removing a file.

  ghost predicate CanUnlink(s: Fs, path: string) {
    && PathOk(s.objs, path) && IsDir(s.objs, Parent(s.objs, path))
    && (Resolve(s.objs, path) >= 0 ==> Resolve(s.objs, path) in s.objs && s.objs[Resolve(s.objs, path)].kind.File?)
  }

  ghost predicate UnlinkNext(s: Fs, path: string, s': Fs, r: int)
    requires |path| >= 1
  {
    if Resolve(s.objs, path) < 0 then r == -ENOENT && s' == s
    else r == 0 && UnlinkStep(s, Parent(s.objs, path), Basename(path), Resolve(s.objs, path), s')
  }

  /** A path that resolves to a file names it by a real entry. */
  lemma UnlinkName(s: Fs, path: string)
    requires Inv(s) && CanUnlink(s, path) && Resolve(s.objs, path) >= 0
    ensures var p, h, name := Parent(s.objs, path), Resolve(s.objs, path), Basename(path);
      && name != "." && Component(s.objs, p, name) == h && h != ROOT && h != p && GoodName(name)
      && HasName(s.objs[p].entries, name) && NamesOk(s.objs[p].entries)
      && |s.objs[h].entries| <= MaxEntries(File)
  {
    hide Ownership, BlocksOwned, Covered, TreeOk, ThroughDirs, Parent, Basename;
    var p, h, name := Parent(s.objs, path), Resolve(s.objs, path), Basename(path);
    EntryNums(s, p);
    assert s.objs[p].kind.Dir?;
    FileEntry(s.objs, p, name, h);
  }

  /** The file's blocks, pages and inode are given back. */
  method FreeFile(m: Machine, inum: int)
    requires Indexed(m) && inum in m.objs && m.objs[inum].kind.File? && inum != ROOT && BlocksOwned(m.objs, m.data)
    modifies m`blocks, m`blockBuf, m`super, m`nodes, m`nodeBuf, m`chain, m`data, m`errno, m`freeNodes, m`objs, m.f
    ensures Indexed(m) && m.errno == old(m.errno)
    ensures m.objs == old(m.objs) - {inum}
    ensures m.freeNodes == old(m.freeNodes) + InodesOf(inum, old(m.objs[inum]))
    ensures Freed(old(m.objs[inum]).entries, 0, |old(m.objs[inum]).entries|, old(m.chain), m.chain, old(m.data), m.data)
  {
    hide DiskOk, Rep, Ownership, BlocksOwned, Freed, Need, Pages, Taken, ReleasedAll;
    ghost var o, free := m.objs[inum], m.freeNodes;
    Free(m, inum, 0);
    ghost var o1, free1 := m.objs[inum], m.freeNodes;
    ListingSet(m, File, inum, 0);
    EmptyAgain(o, o1, m.objs[inum], free, free1, m.freeNodes, m.f[..0]);
    DropNode(m, inum);
  }

  /** The second listing_set finds nothing to do, and all pages are free. */
  lemma EmptyAgain(o: Obj, o1: Obj, o2: Obj, free: set<int>, free1: set<int>, free2: set<int>, none: seq<Entry>)
    requires o.kind.File? && Resized(o, o1, o.entries[..0], free, free1) && none == []
      && Resized(o1, o2, none, free1, free2)
    ensures o2.leaves == [] && o2.exts == [] && free2 == free + Pages(o)
  {
  }

  method Unlink(m: Machine, path: string) returns (r: int)
    requires Valid(m) && CanUnlink(FsOf(m), path)
    modifies m`blocks, m`blockBuf, m`super, m`nodes, m`nodeBuf, m`chain, m`data, m`errno, m`freeNodes, m`objs, m.f, m.d
    ensures Valid(m) && UnlinkNext(old(FsOf(m)), path, FsOf(m), r)
  {
    hide DiskOk, Rep, Ownership, BlocksOwned, Covered, TreeOk, ThroughDirs, Resolve, Parent, Basename, Freed, Removed;
    ghost var s := FsOf(m);
    BasenameIs(path);
    var filename := AfterLastSlash(path);
    TreeNames(m.objs);
    var inum, pinum := PathToInum(m, path);
    if inum < 0 { return -ENOENT; }
    UnlinkName(s, path);
    FreeFile(m, inum);
    Remove(m, pinum, filename);
    assert Take(filename, NAME_MAX) == filename;
    UnlinkKeepsInv(s, pinum, filename, inum, FsOf(m));
    r := 0;
  }

  // Writing to a file.

  /** When fstream_write may be called on h, and what it does and returns. */
  ghost predicate CanWrite(s: Fs, h: int, src: seq<Byte>, offset: nat) {
    && h in s.objs && s.objs[h].kind.File? && |src| >= 1 && offset / 512 <= |s.objs[h].entries|
    && |s.free| + Need(File, |s.objs[h].entries|)
       >= Need(File, Reach(|s.objs[h].entries|, |s.chain|, (offset + |src| - 1) / 512 + 1))
  }

  ghost predicate WriteNext(s: Fs, h: int, src: seq<Byte>, offset: nat, s': Fs, r: int) {
    && WriteStep(s, h, src, offset, s')
    && r == if RunsOut(|s.objs[h].entries|, |s.chain|, (offset + |src| - 1) / 512 + 1) then -ENOSPC else |src|
  }

  ghost predicate CanSave(s: Fs, path: string, src: seq<Byte>, offset: nat) {
    && Proper(s.objs, path) && |path| < PATH_MAX
    && (Resolve(s.objs, path) >= 0 ==> CanWrite(s, Resolve(s.objs, path), src, offset))
  }

  /** The diagnostic branch: an inode is popped for a log line and never given back. No block
      is lost, because the chain has just run out. */
  ghost predicate Logged(s: Fs, s': Fs) {
    && s.chain == [] && s' == s.(free := s'.free)
    && if s.free == {} then s'.free == {} else exists x :: IsLeast(x, s.free) && s'.free == s.free - {x}
  }

  ghost predicate SaveNext(s: Fs, path: string, src: seq<Byte>, offset: nat, s': Fs, r: int)
    requires |path| >= 1
  {
    var h := Resolve(s.objs, path);
    if h < 0 then r == -ENOENT && s' == s
    else if r >= 0 then WriteNext(s, h, src, offset, s', r)
    else exists written :: WriteNext(s, h, src, offset, written, r) && Logged(written, s')
  }

  lemma FewerFree(objs: map<int, Obj>, free: set<int>, free': set<int>)
    requires Ownership(objs, free) && free' <= free
    ensures Ownership(objs, free')
  {
    var roles :| Owned(objs, free, roles);
    assert Owned(objs, free', roles);
  }

  /** A write only fails when it has used up the chain. */
  lemma RunsDry(s: Fs, h: int, src: seq<Byte>, offset: nat, s': Fs, r: int)
    requires WriteNext(s, h, src, offset, s', r) && r < 0
    ensures s'.chain == []
  {
    hide Resized, Overlaid;
  }

  lemma LoggedKeepsInv(s: Fs, s': Fs)
    requires Inv(s) && Logged(s, s')
    ensures Inv(s')
  {
    hide AllShaped, BlocksOwned, Covered, TreeOk, Ownership;
    FewerFree(s.objs, s.free, s'.free);
  }

  /** What sfs_write does after a failure. */
  method LogFailure(m: Machine)
    requires Valid(m) && m.chain == []
    modifies m`blocks, m`blockBuf, m`super, m`nodes, m`chain, m`errno, m`freeNodes
    ensures Valid(m) && Logged(old(FsOf(m)), FsOf(m))
  {
    hide DiskOk, Rep, Ownership, AllShaped, BlocksOwned, Covered, TreeOk;
    ghost var s := FsOf(m);
    NodesLength(m);
    var i := FreeInodePop(m);
    var e := m.ErrnoPop();
    FewerFree(m.objs, s.free, m.freeNodes);
    ghost var nodes := m.nodes;
    i := Pop(m);
    e := m.ErrnoPop();
    NodesLength(m);
    SuperKeepsRep(nodes, m.nodes, m.objs);
    assert Logged(s, FsOf(m));
    LoggedKeepsInv(s, FsOf(m));
  }

  /** sfs_write */
  method Save(m: Machine, path: string, buf: array<Byte>, size: nat, offset: nat) returns (r: int)
    requires Valid(m) && size <= buf.Length && CanSave(FsOf(m), path, buf[..size], offset)
    modifies m`blocks, m`blockBuf, m`super, m`nodes, m`nodeBuf, m`chain, m`data, m`errno, m`freeNodes, m`objs, m.f, m.d
    ensures Valid(m) && SaveNext(old(FsOf(m)), path, old(buf[..size]), offset, FsOf(m), r)
  {
    hide DiskOk, Rep, Ownership, BlocksOwned, Covered, AllShaped, TreeOk, ThroughDirs, Resolve, FileWritten, RunsOut;
    hide Reach, Need;
    ghost var s, src := FsOf(m), buf[..size];
    TreeNames(m.objs);
    var inum, _ := PathToInum(m, path);
    if inum < 0 { return -ENOENT; }
    r := StreamWrite.Write(m, inum, buf, size, offset);
    ghost var written := FsOf(m);
    assert WriteNext(s, inum, src, offset, written, r);
    WriteKeepsInv(s, inum, src, offset, written);
    if r < 0 {
      RunsDry(s, inum, src, offset, written, r);
      LogFailure(m);
    }
  }

  // Shortening a file.

  ghost predicate CanTruncate(s: Fs, path: string, offset: nat) {
    && Proper(s.objs, path) && |path| < PATH_MAX
    && (Resolve(s.objs, path) >= 0 ==>
          && Resolve(s.objs, path) in s.objs && s.objs[Resolve(s.objs, path)].kind.File?
          && offset / 512 < |s.objs[Resolve(s.objs, path)].entries|)
  }

  ghost predicate TruncateNext(s: Fs, path: string, offset: nat, s': Fs, r: int)
    requires |path| >= 1
  {
    var h := Resolve(s.objs, path);
    if h < 0 then r == -ENOENT && s' == s
    else r == 0 && CutStep(s, h, offset / 512 + 1, Min(offset, FCONTENT_MAX_SIZE), s')
  }

  lemma CutAgain(o: Obj, o1: Obj, o2: Obj, free: set<int>, free1: set<int>, free2: set<int>, entries: seq<Entry>)
    requires Resized(o, o1, entries, free, free1) && Resized(o1, o2, entries, free1, free2)
    ensures Resized(o, o2, entries, free, free2) && free2 == free1 && o2.leaves == o1.leaves && o2.exts == o1.exts
  {
    SameSize(o1, o2, entries, free1, free2);
  }

  /** The second listing_set of sfs_truncate changes nothing. */
  method Cut(m: Machine, inum: int, newBSize: nat)
    requires Indexed(m) && inum in m.objs && m.objs[inum].kind.File? && BlocksOwned(m.objs, m.data)
    requires newBSize <= |m.objs[inum].entries|
    modifies m`blocks, m`blockBuf, m`super, m`nodes, m`nodeBuf, m`chain, m`data, m`errno, m`freeNodes, m`objs, m.f
    ensures Indexed(m) && m.errno == old(m.errno)
    ensures inum in m.objs && m.objs == old(m.objs)[inum := m.objs[inum]]
    ensures FileCut(old(m.objs[inum]), m.objs[inum], newBSize, old(m.freeNodes), m.freeNodes,
                    old(m.chain), m.chain, old(m.data), m.data)
  {
    hide DiskOk, Rep, Ownership, BlocksOwned, Freed, Need, Resized, Shaped;
    FitsFile(m, inum);
    ghost var o, free := m.objs[inum], m.freeNodes;
    Free(m, inum, newBSize);
    ghost var o1, free1 := m.objs[inum], m.freeNodes;
    ResizedList(o, o1, o.entries[..newBSize], free, free1);
    assert m.f[..Min(newBSize, MaxEntries(File))] == o.entries[..newBSize];
    ListingSet(m, File, inum, newBSize);
    CutAgain(o, o1, m.objs[inum], free, free1, m.freeNodes, o.entries[..newBSize]);
  }

  /** sfs_truncate when it does not lengthen the block list. */
  method Truncate(m: Machine, path: string, offset: nat) returns (r: int)
    requires Valid(m) && CanTruncate(FsOf(m), path, offset)
    modifies m`blocks, m`blockBuf, m`super, m`nodes, m`nodeBuf, m`chain, m`data, m`errno, m`freeNodes, m`objs, m.f, m.d
    ensures Valid(m) && TruncateNext(old(FsOf(m)), path, offset, FsOf(m), r)
  {
    hide DiskOk, Rep, Ownership, BlocksOwned, Covered, TreeOk, ThroughDirs, Resolve, Parent, Basename, Freed, Resized;
    ghost var s := FsOf(m);
    TreeNames(m.objs);
    var inum, _ := PathToInum(m, path);
    if inum < 0 { return -ENOENT; }
    var newBSize := offset / 512 + 1;
    var bSize := Listing(m, File, inum);     // the list has at least newBSize blocks: none to allocate
    ghost var o, free := m.objs[inum], m.freeNodes;
    Cut(m, inum, newBSize);
    ghost var o1 := m.objs[inum];
    SetFsize(m, inum, offset);
    ResizedToMeta(o, o1, m.objs[inum], o.entries[..newBSize], free, m.freeNodes);
    CutKeepsInv(s, inum, newBSize, Min(offset, FCONTENT_MAX_SIZE), FsOf(m));
    r := 0;
  }
}
