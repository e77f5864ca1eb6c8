/** Inodes that are neither free nor part of any object: how many a run leaves behind. */
module Leaks {
  import opened Disk
  import opened IndexSpec
  import opened Owners
  import opened Accounting
  import opened Blocks
  import opened Names
  import opened Path
  import opened Tree
  import opened StreamWrite
  import opened StreamFree
  import opened FileSystem
  import opened Sfs
  import opened Format
  import opened Runs
  import opened Conservation
  import opened Bitmap

  ghost predicate InUse(objs: map<int, Obj>, x: int) {
    exists h {:trigger objs[h]} :: h in objs && x in InodesOf(h, objs[h])
  }

  /** The lost inodes. */
  ghost function Leaked(objs: map<int, Obj>, free: set<int>): (lost: set<int>)
    ensures forall x :: x in lost <==> ROOT <= x < BITMAP_NODES && x !in free && !InUse(objs, x)
  {
    set x | ROOT <= x < BITMAP_NODES && x !in free && !InUse(objs, x)
  }

  /** A resize moves pages between the object and the free inodes; `lost` falls out. */
  ghost predicate Balanced(o: Obj, o': Obj, free: set<int>, free': set<int>, lost: set<int>) {
    && free' + Pages(o') + lost == free + Pages(o)
    && lost !! free' && lost !! Pages(o') && lost <= Pages(o)
  }

  lemma ResizeBalances(o: Obj, o': Obj, entries: seq<Entry>, free: set<int>, free': set<int>)
    requires Shaped(o) && Unique(o.leaves, o.exts) && Pages(o) !! free && Resized(o, o', entries, free, free')
    ensures Balanced(o, o', free, free', Stranded(o, |o'.leaves|))
  {
    hide Pages, Resized, Released, Stranded, Unique, Need, LeafCount, ExtCount;
    ResizedList(o, o', entries, free, free');
    if |o.entries| <= |entries| {
      GrowAccounting(o, o', entries, free, free');
      GrowStrandsNothing(o, o');
    } else {
      ShrinkSplits(o, o', entries, free, free');
    }
  }

  lemma GrowStrandsNothing(o: Obj, o': Obj)
    requires Shaped(o) && Shaped(o') && o'.kind == o.kind && |o.entries| <= |o'.entries|
    ensures Stranded(o, |o'.leaves|) == {}
  {
  }

  /** After a resize of h the lost inodes are those before and the stranded ones. */
  lemma ResizeLeaks(objs: map<int, Obj>, free: set<int>, h: int, o': Obj, entries: seq<Entry>, free': set<int>)
    requires Ownership(objs, free) && h in objs && Shaped(objs[h]) && Resized(objs[h], o', entries, free, free')
    ensures var lost := Stranded(objs[h], |o'.leaves|);
      Leaked(objs[h := o'], free') == Leaked(objs, free) + lost && lost !! Leaked(objs, free)
  {
    OwnershipMeansApart(objs, free);
    assert InodesOf(h, objs[h]) !! free;
    PagesInRange(objs, free, h);
    ResizeBalances(objs[h], o', entries, free, free');
    hide Ownership, Resized, Shaped, Pages, Stranded, Unique;
    var lost := Stranded(objs[h], |o'.leaves|);
    forall x
      ensures x in Leaked(objs[h := o'], free') <==> x in Leaked(objs, free) || x in lost
      ensures x in lost ==> x !in Leaked(objs, free)
    {
      UseAfter(objs, h, o', x);
      assert x in lost ==> x in InodesOf(h, objs[h]);
    }
  }

  /** Who else uses x does not change. */
  lemma UseAfter(objs: map<int, Obj>, h: int, o': Obj, x: int)
    requires h in objs
    requires forall g :: g in objs && g != h ==> InodesOf(g, objs[g]) !! InodesOf(h, objs[h])
    ensures InUse(objs[h := o'], x) <==> x in InodesOf(h, o') || (InUse(objs, x) && x !in InodesOf(h, objs[h]))
  {
    if InUse(objs[h := o'], x) {
      var g :| g in objs[h := o'] && x in InodesOf(g, objs[h := o'][g]);
      assert g != h ==> objs[g] == objs[h := o'][g];
    }
    if x in InodesOf(h, o') {
      assert objs[h := o'][h] == o';
    }
    if InUse(objs, x) && x !in InodesOf(h, objs[h]) {
      var g :| g in objs && x in InodesOf(g, objs[g]);
      assert objs[h := o'][g] == objs[g];
    }
  }

  lemma PagesInRange(objs: map<int, Obj>, free: set<int>, h: int)
    requires Ownership(objs, free) && h in objs
    ensures forall x :: x in Pages(objs[h]) ==> ROOT <= x < BITMAP_NODES
    ensures forall x :: x in free ==> ROOT <= x < BITMAP_NODES
    ensures ROOT <= h < BITMAP_NODES
  {
  }

  /** A new object takes a free inode: nothing is lost. */
  lemma AddLeaks(objs: map<int, Obj>, free: set<int>, c: int, o: Obj)
    requires c in free && c !in objs && Pages(o) == {}
    ensures Leaked(objs[c := o], free - {c}) == Leaked(objs, free)
  {
    forall x
      ensures x in Leaked(objs[c := o], free - {c}) <==> x in Leaked(objs, free)
    {
      if InUse(objs, x) {
        var g :| g in objs && x in InodesOf(g, objs[g]);
        assert objs[c := o][g] == objs[g];
      }
      if InUse(objs[c := o], x) {
        var g :| g in objs[c := o] && x in InodesOf(g, objs[c := o][g]);
        assert g != c ==> objs[g] == objs[c := o][g];
      }
      assert objs[c := o][c] == o;
    }
  }

  /** An object that goes gives all its inodes back. */
  lemma DropLeaks(objs: map<int, Obj>, free: set<int>, h: int)
    requires h in objs
    ensures Leaked(objs - {h}, free + InodesOf(h, objs[h])) == Leaked(objs, free)
  {
    forall x
      ensures x in Leaked(objs - {h}, free + InodesOf(h, objs[h])) <==> x in Leaked(objs, free)
    {
      if InUse(objs, x) {
        var g :| g in objs && x in InodesOf(g, objs[g]);
        assert g != h ==> (objs - {h})[g] == objs[g];
      }
      if InUse(objs - {h}, x) {
        var g :| g in objs - {h} && x in InodesOf(g, (objs - {h})[g]);
        assert objs[g] == (objs - {h})[g];
      }
    }
  }

  // One operation.

  /** The object an operation shortens and the number of entries it leaves. */
  ghost function Shrunk(s: Fs, op: Op): Option<(int, int)> {
    match op
    case Remove(path) =>
      if |path| >= 1 && Resolve(s.objs, path) >= 0 && Parent(s.objs, path) in s.objs
      then Some((Parent(s.objs, path), |s.objs[Parent(s.objs, path)].entries| - 1)) else None
    case Shorten(path, offset) =>
      if |path| >= 1 && Resolve(s.objs, path) in s.objs then Some((Resolve(s.objs, path), offset / 512 + 1)) else None
    case _ => None
  }

  /** What it strands: leaves of a partly used extension page of the shortened object. */
  ghost function Strands(s: Fs, op: Op): set<int> {
    match Shrunk(s, op)
    case None => {}
    case Some((h, n)) =>
      if h in s.objs && n >= 0 then Stranded(s.objs[h], LeafCount(s.objs[h].kind, n)) else {}
  }

  /** What is taken from the free inodes by sfs_write without going into the file. */
  ghost function Logs(s: Fs, op: Op, s': Fs): set<int> {
    if op.Save? && |op.path| >= 1 then
      var h := Resolve(s.objs, op.path);
      if h in s.objs && h in s'.objs then s.free + Pages(s.objs[h]) - (s'.free + Pages(s'.objs[h])) else {}
    else {}
  }

  ghost function Loses(s: Fs, op: Op, s': Fs): set<int> {
    Strands(s, op) + Logs(s, op, s')
  }

  lemma WriteLeaks(s: Fs, h: int, src: seq<Byte>, offset: nat, s': Fs)
    requires Inv(s) && WriteStep(s, h, src, offset, s')
    ensures Leaked(s'.objs, s'.free) == Leaked(s.objs, s.free)
  {
    hide Ownership, BlocksOwned, Covered, TreeOk, Overlaid, Leaked;
    var o, o' := s.objs[h], s'.objs[h];
    assert |o.entries| <= |o'.entries|;
    ResizeLeaks(s.objs, s.free, h, o', o'.entries, s'.free);
    GrowStrandsNothing(o, o');
  }

  lemma CreateLeaks(s: Fs, kind: Kind, p: int, name: string, c: int, s': Fs)
    requires Inv(s) && CreateStep(s, kind, p, name, c, s')
    ensures Leaked(s'.objs, s'.free) == Leaked(s.objs, s.free)
  {
    DirBound(s, p);
    hide Ownership, BlocksOwned, Covered, TreeOk, Leaked;
    AddHead(s.objs, s.free, c, NewObj(kind, c, p));
    AddLeaks(s.objs, s.free, c, NewObj(kind, c, p));
    var o, o', objs1 := s.objs[p], s'.objs[p], s.objs[c := NewObj(kind, c, p)];
    assert c != p;
    var entries := o.entries + [Ent(name, c)];
    assert Take(entries, MaxEntries(Dir)) == entries;
    ResizeLeaks(objs1, s.free - {c}, p, o', entries, s'.free);
    GrowStrandsNothing(o, o');
  }

  lemma UnlinkLeaks(s: Fs, p: int, name: string, h: int, s': Fs)
    requires Inv(s) && UnlinkStep(s, p, name, h, s') && h != ROOT
    ensures var lost := Stranded(s.objs[p], LeafCount(Dir, |s.objs[p].entries| - 1));
      Leaked(s'.objs, s'.free) == Leaked(s.objs, s.free) + lost && lost !! Leaked(s.objs, s.free)
  {
    hide Ownership, BlocksOwned, Covered, TreeOk, Leaked, Freed, Stranded;
    DropObject(s.objs, s.free, h);
    DropLeaks(s.objs, s.free, h);
    var entries := RemoveAt(s.objs[p].entries, FirstNamed(s.objs[p].entries, name));
    ResizeLeaks(s.objs - {h}, s.free + InodesOf(h, s.objs[h]), p, s'.objs[p], entries, s'.free);
    assert s'.objs == (s.objs - {h})[p := s'.objs[p]];
  }

  lemma CutLeaks(s: Fs, h: int, n: nat, fsize: int, s': Fs)
    requires Inv(s) && CutStep(s, h, n, fsize, s')
    ensures var lost := Stranded(s.objs[h], LeafCount(File, n));
      Leaked(s'.objs, s'.free) == Leaked(s.objs, s.free) + lost && lost !! Leaked(s.objs, s.free)
  {
    hide Ownership, BlocksOwned, Covered, TreeOk, Leaked, Freed, Stranded;
    ResizeLeaks(s.objs, s.free, h, s'.objs[h], s.objs[h].entries[..n], s'.free);
  }

  lemma CreateNextLeaks(s: Fs, kind: Kind, path: string, s': Fs, r: int)
    requires Inv(s) && CanCreate(s, path) && CreateNext(s, kind, path, s', r)
    ensures Leaked(s'.objs, s'.free) == Leaked(s.objs, s.free)
  {
    hide Inv, CreateStep, ThroughDirs, Parent, Basename, Resolve, Leaked;
    var p := Parent(s.objs, path);
    if Resolve(s.objs, path) <= 0 {
      var c :| CreateStep(s, kind, p, Basename(path), c, s');
      CreateLeaks(s, kind, p, Basename(path), c, s');
    }
  }

  lemma RemoveLeaks(s: Fs, path: string, s': Fs, r: int)
    requires Inv(s) && CanUnlink(s, path) && UnlinkNext(s, path, s', r)
    ensures var lost := Strands(s, Remove(path));
      Leaked(s'.objs, s'.free) == Leaked(s.objs, s.free) + lost && lost !! Leaked(s.objs, s.free)
  {
    hide Inv, UnlinkStep, ThroughDirs, Parent, Basename, Resolve, Leaked, Stranded;
    if Resolve(s.objs, path) >= 0 {
      UnlinkName(s, path);
      UnlinkLeaks(s, Parent(s.objs, path), Basename(path), Resolve(s.objs, path), s');
    }
  }

  lemma ShortenLeaks(s: Fs, path: string, offset: nat, s': Fs, r: int)
    requires Inv(s) && CanTruncate(s, path, offset) && TruncateNext(s, path, offset, s', r)
    ensures var lost := Strands(s, Shorten(path, offset));
      Leaked(s'.objs, s'.free) == Leaked(s.objs, s.free) + lost && lost !! Leaked(s.objs, s.free)
  {
    hide Inv, CutStep, ThroughDirs, Parent, Basename, Resolve, Leaked, Stranded;
    if Resolve(s.objs, path) >= 0 {
      CutLeaks(s, Resolve(s.objs, path), offset / 512 + 1, Min(offset, FCONTENT_MAX_SIZE), s');
    } else {
      NegativeIsNoObject(s, Resolve(s.objs, path));
    }
  }

  /** The inode that the diagnostic branch pops is lost. */
  lemma LoggedLeaks(s: Fs, s': Fs)
    requires Inv(s) && Logged(s, s')
    ensures var lost := s.free - s'.free;
      && Leaked(s'.objs, s'.free) == Leaked(s.objs, s.free) + lost && lost !! Leaked(s.objs, s.free)
      && |lost| == if s.free == {} then 0 else 1
  {
    InvApart(s);
    hide Inv, Pages;
    if s.free != {} {
      var x :| IsLeast(x, s.free) && s'.free == s.free - {x};
      assert s.free - s'.free == {x};
      assert !InUse(s.objs, x);
    } else {
      assert s.free - s'.free == {};
    }
  }

  lemma InvApart(s: Fs)
    requires Inv(s)
    ensures forall h :: h in s.objs ==> InodesOf(h, s.objs[h]) !! s.free
    ensures forall x :: x in s.free ==> ROOT <= x < BITMAP_NODES
  {
    OwnershipMeansApart(s.objs, s.free);
  }

  /** How many free inodes fstream_write leaves. */
  lemma WriteLeaves(s: Fs, h: int, src: seq<Byte>, offset: nat, s': Fs)
    requires Inv(s) && WriteStep(s, h, src, offset, s')
    ensures var n := |s.objs[h].entries|;
      |s'.free| == |s.free| + Need(File, n) - Need(File, Reach(n, |s.chain|, (offset + |src| - 1) / 512 + 1))
    ensures s'.free + Pages(s'.objs[h]) == s.free + Pages(s.objs[h]) && s'.free !! Pages(s'.objs[h])
  {
    WriteConserves(s, h, src, offset, s');
    InvApart(s);
    InvApart(s');
    var o, o' := s.objs[h], s'.objs[h];
    assert InodesOf(h, o) !! s.free && InodesOf(h, o') !! s'.free;
    OwnershipMeansApart(s.objs, s.free);
    hide Ownership, BlocksOwned, Covered, TreeOk, Overlaid, Need, Elements, BlocksOf;
    assert |o.entries| <= |o'.entries|;
    GrowAccounting(o, o', o'.entries, s.free, s'.free);
  }

  /** A write that succeeds loses no inode. */
  lemma WholeLeaks(s: Fs, h: int, src: seq<Byte>, offset: nat, s': Fs)
    requires Inv(s) && WriteStep(s, h, src, offset, s')
    ensures h in s.objs && h in s'.objs && Leaked(s'.objs, s'.free) == Leaked(s.objs, s.free)
    ensures s.free + Pages(s.objs[h]) - (s'.free + Pages(s'.objs[h])) == {}
  {
    hide Inv, WriteStep, Leaked, Pages, Need, Reach;
    StillThere(s, h, src, offset, s');
    WriteLeaks(s, h, src, offset, s');
    WriteLeaves(s, h, src, offset, s');
  }

  /** One that fails loses one, if one is left. */
  lemma FailedLeaks(s: Fs, h: int, src: seq<Byte>, offset: nat, written: Fs, s': Fs)
    requires Inv(s) && WriteStep(s, h, src, offset, written) && Logged(written, s')
    ensures h in s.objs && h in s'.objs && |src| >= 1
    ensures var lost := s.free + Pages(s.objs[h]) - (s'.free + Pages(s'.objs[h]));
      var n, bEnd := |s.objs[h].entries|, (offset + |src| - 1) / 512 + 1;
      && Leaked(s'.objs, s'.free) == Leaked(s.objs, s.free) + lost && lost !! Leaked(s.objs, s.free)
      && |lost| == if |s.free| + Need(File, n) == Need(File, Reach(n, |s.chain|, bEnd)) then 0 else 1
  {
    hide Inv, WriteStep, Logged, Leaked, Pages, Need, Reach;
    StillThere(s, h, src, offset, written);
    WriteLeaks(s, h, src, offset, written);
    WriteLeaves(s, h, src, offset, written);
    WriteKeepsInv(s, h, src, offset, written);
    LoggedLeaks(written, s');
    LoggedFree(written, s');
    assert s.free + Pages(s.objs[h]) - (s'.free + Pages(s'.objs[h])) == written.free - s'.free;
    assert |written.free| == 0 <==> written.free == {};
  }

  lemma CanSavePath(s: Fs, path: string, src: seq<Byte>, offset: nat)
    requires CanSave(s, path, src, offset)
    ensures |path| >= 1
  {
  }

  /** The inodes sfs_write loses: none, or one if it failed and one was left. */
  lemma SaveLeaks(s: Fs, path: string, src: seq<Byte>, offset: nat, s': Fs, r: int)
    requires Inv(s) && CanSave(s, path, src, offset) && SaveNext(s, path, src, offset, s', r)
    ensures |path| >= 1
    ensures var lost := Logs(s, Save(path, src, offset), s');
      && Leaked(s'.objs, s'.free) == Leaked(s.objs, s.free) + lost && lost !! Leaked(s.objs, s.free)
      && |lost| == if CleanSave(s, path, src, offset) then 0 else 1
  {
    hide Inv, CanSave, WriteStep, Logged, Resolve, Leaked, Pages, Need, Reach, RunsOut;
    CanSavePath(s, path, src, offset);
    var h := Resolve(s.objs, path);
    if h < 0 {
      NegativeIsNoObject(s, h);
    } else if r >= 0 {
      WholeLeaks(s, h, src, offset, s');
    } else {
      var written :| WriteNext(s, h, src, offset, written, r) && Logged(written, s');
      FailedLeaks(s, h, src, offset, written, s');
    }
  }

  lemma StillThere(s: Fs, h: int, src: seq<Byte>, offset: nat, s': Fs)
    requires WriteStep(s, h, src, offset, s')
    ensures h in s.objs && h in s'.objs && |src| >= 1
  {
  }

  lemma LoggedFree(s: Fs, s': Fs)
    requires Logged(s, s')
    ensures s'.objs == s.objs && s'.free <= s.free
  {
  }

  lemma LosesIs(s: Fs, op: Op, s': Fs)
    ensures op.Create? || op.Mkdir? || op.WriteTo? ==> Loses(s, op, s') == {}
    ensures op.Save? ==> Loses(s, op, s') == Logs(s, op, s')
    ensures op.Remove? || op.Shorten? ==> Loses(s, op, s') == Strands(s, op)
  {
  }

  /** Every operation loses exactly what it strands or logs. */
  lemma NextLeaks(s: Fs, op: Op, s': Fs, r: int)
    requires Inv(s) && Next(s, op, s', r)
    ensures Leaked(s'.objs, s'.free) == Leaked(s.objs, s.free) + Loses(s, op, s')
    ensures Leaked(s.objs, s.free) !! Loses(s, op, s')
  {
    hide Inv, CreateNext, WriteStep, SaveNext, UnlinkNext, TruncateNext, Leaked, Resolve, Loses, Strands, Logs;
    hide CleanSave;
    hide CanCreate, CanUnlink, CanTruncate, CanSave;
    LosesIs(s, op, s');
    match op {
      case Create(path) => CreateNextLeaks(s, File, path, s', r);
      case Mkdir(path) => CreateNextLeaks(s, Dir, path, s', r);
      case WriteTo(h, src, offset) => WriteLeaks(s, h, src, offset, s');
      case Save(path, src, offset) => SaveLeaks(s, path, src, offset, s', r);
      case Remove(path) => RemoveLeaks(s, path, s', r);
      case Shorten(path, offset) => ShortenLeaks(s, path, offset, s', r);
    }
  }

  lemma NegativeIsNoObject(s: Fs, h: int)
    requires Inv(s) && h < 0
    ensures h !in s.objs
  {
  }

  /** Whether a list of `had` leaves can be cut to one of n entries without loss. */
  predicate CleanCut(kind: Kind, had: nat, n: nat) {
    var c := LeafCount(kind, n);
    c >= had || c <= 4 || (c - 4) % 64 == 0
  }

  /** Whether sfs_write will not fail, or will leave no inode that could be lost. */
  ghost predicate CleanSave(s: Fs, path: string, src: seq<Byte>, offset: nat)
    requires |path| >= 1
  {
    var h := Resolve(s.objs, path);
    h in s.objs ==>
      var n, bEnd := |s.objs[h].entries|, (offset + |src| - 1) / 512 + 1;
      |src| >= 1 && RunsOut(n, |s.chain|, bEnd) ==> |s.free| + Need(File, n) == Need(File, Reach(n, |s.chain|, bEnd))
  }

  /** An operation is clean by a condition on sizes before it. */
  ghost predicate Clean(s: Fs, op: Op) {
    && (match Shrunk(s, op)
        case None => true
        case Some((h, n)) => h in s.objs && n >= 0 ==> CleanCut(s.objs[h].kind, |s.objs[h].leaves|, n))
    && (op.Save? && |op.path| >= 1 ==> CleanSave(s, op.path, op.src, op.offset))
  }

  lemma CleanCutIs(s: Fs, op: Op)
    requires !op.Save?
    ensures Strands(s, op) == {} <==> Clean(s, op)
  {
    if Shrunk(s, op).Some? {
      var (h, n) := Shrunk(s, op).value;
      if h in s.objs && n >= 0 {
        var o, c := s.objs[h], LeafCount(s.objs[h].kind, n);
        if c <= |o.leaves| {
          NothingStranded(o, c);
        } else {
          assert Stranded(o, c) == {};
        }
      }
    }
  }

  lemma CleanIs(s: Fs, op: Op, s': Fs, r: int)
    requires Inv(s) && Next(s, op, s', r)
    ensures Loses(s, op, s') == {} <==> Clean(s, op)
  {
    if op.Save? {
      hide Inv, CanSave, SaveNext, CleanSave;
      SaveLeaks(s, op.path, op.src, op.offset, s', r);
    } else {
      CleanCutIs(s, op);
    }
  }

  lemma InitialLeaks()
    ensures Leaked(InitialFs().objs, InitialFs().free) == {}
  {
    var objs := InitialFs().objs;
    assert ROOT in objs && ROOT in InodesOf(ROOT, objs[ROOT]);
    assert InUse(objs, ROOT);
  }

  /** In every state of every run from a fresh file system: the inodes that are lost are
      those the operations lost, each once, so none is lost exactly when all operations
      were clean. */
  lemma {:induction false} RunLeaks(states: seq<Fs>, ops: seq<Op>, results: seq<int>, i: nat)
    requires Run(states, ops, results) && states[0] == InitialFs() && i < |states|
    ensures |Leaked(states[i].objs, states[i].free)| == TotalLost(states, ops, i)
    ensures Leaked(states[i].objs, states[i].free) == {} <==> forall k :: 0 <= k < i ==> Clean(states[k], ops[k])
    decreases i
  {
    hide Inv, Next, Leaked, Loses, Clean;
    InitialInv();
    if i == 0 {
      InitialLeaks();
    } else {
      var s, s' := states[i - 1], states[i];
      RunKeepsInv(states, ops, results, i - 1);
      RunLeaks(states, ops, results, i - 1);
      NextLeaks(s, ops[i - 1], s', results[i - 1]);
      CleanIs(s, ops[i - 1], s', results[i - 1]);
      DisjointSize(Leaked(s.objs, s.free), Loses(s, ops[i - 1], s'));
    }
  }

  ghost function TotalLost(states: seq<Fs>, ops: seq<Op>, i: nat): nat
    requires |states| == |ops| + 1 && i < |states|
  {
    if i == 0 then 0 else TotalLost(states, ops, i - 1) + |Loses(states[i - 1], ops[i - 1], states[i])|
  }
}
