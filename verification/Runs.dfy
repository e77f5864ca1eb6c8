/** Runs of the file system: the invariant in every reachable state, spelled out. */
module Runs {
  import opened Disk
  import opened IndexSpec
  import opened Owners
  import opened Attributes
  import opened Blocks
  import opened StreamWrite
  import opened Path
  import opened Tree
  import opened Naming
  import opened FileSystem
  import opened Sfs
  import opened Format

  datatype Op =
    | Create(path: string)
    | Mkdir(path: string)
    | WriteTo(inum: int, src: seq<Byte>, offset: nat)   // fstream_write
    | Save(path: string, src: seq<Byte>, offset: nat)   // sfs_write
    | Remove(path: string)
    | Shorten(path: string, offset: nat)

  /** When an operation may be called. */
  ghost predicate Can(s: Fs, op: Op) {
    match op
    case Create(path) => CanCreate(s, path)
    case Mkdir(path) => CanCreate(s, path)
    case WriteTo(h, src, offset) => CanWrite(s, h, src, offset)
    case Save(path, src, offset) => CanSave(s, path, src, offset)
    case Remove(path) => CanUnlink(s, path)
    case Shorten(path, offset) => CanTruncate(s, path, offset)
  }

  /** What it does and returns. */
  ghost predicate Next(s: Fs, op: Op, s': Fs, r: int) {
    Can(s, op) &&
    match op
    case Create(path) => CreateNext(s, File, path, s', r)
    case Mkdir(path) => CreateNext(s, Dir, path, s', r)
    case WriteTo(h, src, offset) => WriteNext(s, h, src, offset, s', r)
    case Save(path, src, offset) => SaveNext(s, path, src, offset, s', r)
    case Remove(path) => UnlinkNext(s, path, s', r)
    case Shorten(path, offset) => TruncateNext(s, path, offset, s', r)
  }

  lemma CreateNextKeepsInv(s: Fs, kind: Kind, path: string, s': Fs, r: int)
    requires Inv(s) && CanCreate(s, path) && CreateNext(s, kind, path, s', r)
    ensures Inv(s')
  {
    hide Inv, CreateStep, ThroughDirs, Parent, Basename, Resolve;
    var p := Parent(s.objs, path);
    if Resolve(s.objs, path) <= 0 {
      AbsentName(s, path);
      var c :| CreateStep(s, kind, p, Basename(path), c, s');
      CreateKeepsInv(s, kind, p, Basename(path), c, s');
    }
  }

  lemma UnlinkNextKeepsInv(s: Fs, path: string, s': Fs, r: int)
    requires Inv(s) && CanUnlink(s, path) && UnlinkNext(s, path, s', r)
    ensures Inv(s')
  {
    hide Inv, UnlinkStep, ThroughDirs, Parent, Basename, Resolve;
    if Resolve(s.objs, path) >= 0 {
      UnlinkName(s, path);
      UnlinkKeepsInv(s, Parent(s.objs, path), Basename(path), Resolve(s.objs, path), s');
    }
  }

  lemma SaveNextKeepsInv(s: Fs, path: string, src: seq<Byte>, offset: nat, s': Fs, r: int)
    requires Inv(s) && |path| >= 1 && SaveNext(s, path, src, offset, s', r)
    ensures Inv(s')
  {
    hide Inv, WriteStep, Logged, Resolve;
    var h := Resolve(s.objs, path);
    if h >= 0 && r >= 0 {
      WriteKeepsInv(s, h, src, offset, s');
    } else if h >= 0 {
      var written :| WriteNext(s, h, src, offset, written, r) && Logged(written, s');
      WriteKeepsInv(s, h, src, offset, written);
      LoggedKeepsInv(written, s');
    }
  }

  lemma NextKeepsInv(s: Fs, op: Op, s': Fs, r: int)
    requires Inv(s) && Next(s, op, s', r)
    ensures Inv(s')
  {
    hide Inv, CreateNext, UnlinkNext, SaveNext, WriteStep, CutStep, CanCreate, CanUnlink;
    match op {
      case Create(path) => CreateNextKeepsInv(s, File, path, s', r);
      case Mkdir(path) => CreateNextKeepsInv(s, Dir, path, s', r);
      case WriteTo(h, src, offset) => WriteKeepsInv(s, h, src, offset, s');
      case Save(path, src, offset) => SaveNextKeepsInv(s, path, src, offset, s', r);
      case Remove(path) => UnlinkNextKeepsInv(s, path, s', r);
      case Shorten(path, offset) =>
        if Resolve(s.objs, path) >= 0 {
          CutKeepsInv(s, Resolve(s.objs, path), offset / 512 + 1, Min(offset, FCONTENT_MAX_SIZE), s');
        }
    }
  }

  /** One operation on the machine is one step. */
  method Perform(m: Machine, op: Op, buf: array<Byte>) returns (r: int)
    requires Valid(m) && Can(FsOf(m), op)
    requires op.WriteTo? || op.Save? ==> |op.src| <= buf.Length && buf[..|op.src|] == op.src
    modifies m`blocks, m`blockBuf, m`super, m`nodes, m`nodeBuf, m`chain, m`data, m`errno, m`freeNodes, m`objs, m.f, m.d
    ensures Valid(m) && Next(old(FsOf(m)), op, FsOf(m), r)
  {
    hide Inv, CreateNext, UnlinkNext, SaveNext, CanSave, CanCreate, CanUnlink, CanTruncate, TruncateNext, Indexed;
    hide FileWritten, RunsOut, Reach, Need;
    ghost var s := FsOf(m);
    match op {
      case Create(path) => r := Make(m, File, path);
      case Mkdir(path) => r := Make(m, Dir, path);
      case WriteTo(h, src, offset) =>
        InvBlocks(s);
        r := StreamWrite.Write(m, h, buf, |src|, offset);
        WriteKeepsInv(s, h, src, offset, FsOf(m));
      case Save(path, src, offset) => r := Sfs.Save(m, path, buf, |src|, offset);
      case Remove(path) => r := Unlink(m, path);
      case Shorten(path, offset) => r := Truncate(m, path, offset);
    }
  }

  lemma InvBlocks(s: Fs)
    requires Inv(s)
    ensures BlocksOwned(s.objs, s.data)
  {
  }

  /** A run: a sequence of states, each a step from the one before. */
  ghost predicate Run(states: seq<Fs>, ops: seq<Op>, results: seq<int>) {
    && |states| == |ops| + 1 && |results| == |ops|
    && forall i {:trigger ops[i]} :: 0 <= i < |ops| ==> Next(states[i], ops[i], states[i + 1], results[i])
  }

  lemma {:induction false} RunKeepsInv(states: seq<Fs>, ops: seq<Op>, results: seq<int>, i: nat)
    requires Run(states, ops, results) && Inv(states[0]) && i < |states|
    ensures Inv(states[i])
    decreases i
  {
    hide Inv, Next;
    if i > 0 {
      RunKeepsInv(states, ops, results, i - 1);
      NextKeepsInv(states[i - 1], ops[i - 1], states[i], results[i - 1]);
    }
  }

  // What the invariant says about a state, without the ghost bookkeeping.

  /** Every block behind the bitmap is in the free chain once or at one position of one
      file, never both; the blocks up to the bitmap are in neither. */
  ghost predicate BlockPartition(s: Fs) {
    && (forall b :: b in s.chain ==> INODE_BLK_SIZE < b < MAX_BLOCK_NUM)
    && Distinct(s.chain)
    && (forall h, i :: InFile(s.objs, h, i) ==>
          INODE_BLK_SIZE < s.objs[h].entries[i].num < MAX_BLOCK_NUM && s.objs[h].entries[i].num !in s.chain)
    && (forall g, i, h, j ::
          (InFile(s.objs, g, i) && InFile(s.objs, h, j) && s.objs[g].entries[i].num == s.objs[h].entries[j].num)
          ==> g == h && i == j)
    && (forall b :: INODE_BLK_SIZE < b < MAX_BLOCK_NUM ==>
          b in s.chain || exists h, i :: InFile(s.objs, h, i) && s.objs[h].entries[i].num == b)
  }

  /** The inodes of all objects are pairwise distinct, in use, and beyond the root. */
  ghost predicate InodePartition(s: Fs) {
    && (forall h :: h in s.objs ==>
          Unique(s.objs[h].leaves, s.objs[h].exts) && h !in Pages(s.objs[h])
          && InodesOf(h, s.objs[h]) !! s.free && ROOT <= h < BITMAP_NODES)
    && (forall g, h :: g in s.objs && h in s.objs && g != h ==> InodesOf(g, s.objs[g]) !! InodesOf(h, s.objs[h]))
    && (forall h, x :: h in s.objs && x in Pages(s.objs[h]) ==> ROOT < x < BITMAP_NODES)
  }

  lemma InvBlockPartition(s: Fs)
    requires BlocksOwned(s.objs, s.data) && Covered(s.chain, s.data)
    ensures BlockPartition(s)
  {
  }

  lemma InvInodePartition(s: Fs)
    requires Ownership(s.objs, s.free) && AllShaped(s.objs)
    ensures InodePartition(s)
  {
    OwnershipMeansApart(s.objs, s.free);
    var roles :| Owned(s.objs, s.free, roles);
    forall h, x | h in s.objs && x in Pages(s.objs[h])
      ensures ROOT < x < BITMAP_NODES
    {
      assert Assigned(h, s.objs[h], roles);
    }
  }

  lemma InvNames(s: Fs)
    requires Inv(s)
    ensures TreeOk(s.objs) && forall h :: h in s.objs ==> exists words :: NamedBy(s.objs, words, h)
  {
    hide Ownership, BlocksOwned, Covered, TreeOk, NamedBy;
    forall h | h in s.objs
      ensures exists words :: NamedBy(s.objs, words, h)
    {
      EveryObjectNamed(s.objs, h);
    }
  }

  /** Whole-run safety, in every state of every run from a fresh file system: no block and no
      inode is shared or both free and used, and every object has one path from the root. */
  lemma RunsPartition(states: seq<Fs>, ops: seq<Op>, results: seq<int>, i: nat)
    requires Run(states, ops, results) && states[0] == InitialFs() && i < |states|
    ensures BlockPartition(states[i]) && InodePartition(states[i]) && TreeOk(states[i].objs)
    ensures forall h :: h in states[i].objs ==> exists words :: NamedBy(states[i].objs, words, h)
  {
    hide Run, Next;
    InitialInv();
    RunKeepsInv(states, ops, results, i);
    InvNames(states[i]);
    hide BlocksOwned, Covered, Ownership, BlockPartition, InodePartition, TreeOk, NamedBy;
    InvBlockPartition(states[i]);
    InvInodePartition(states[i]);
  }

  /** In every state of every run the link count of a directory is the number of its
      entries, which is less than 1024, and no file is larger than the largest. */
  lemma RunsMetered(states: seq<Fs>, ops: seq<Op>, results: seq<int>, i: nat, h: int)
    requires Run(states, ops, results) && states[0] == InitialFs() && i < |states| && h in states[i].objs
    ensures var o := states[i].objs[h];
      if o.kind.Dir? then o.nlink == |o.entries| < BITMAP_NODES
      else o.nlink == 1 && 0 <= o.fsize <= FCONTENT_MAX_SIZE && |o.entries| <= FENTRY_MAX_SIZE
  {
    hide Next, Ownership, BlocksOwned, Covered, TreeOk;
    InitialInv();
    RunKeepsInv(states, ops, results, i);
    if states[i].objs[h].kind.Dir? {
      DirBound(states[i], h);
    }
  }
}
