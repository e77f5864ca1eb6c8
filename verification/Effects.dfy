/** What a caller sees of each operation: the result, the objects that come, go and
    change, and sizes. Stated over the steps of a run alone. */
module Effects {
  import opened Disk
  import opened IndexSpec
  import opened Bitmap
  import opened Owners
  import opened Attributes
  import opened Blocks
  import opened Names
  import opened Directory
  import opened Path
  import opened Naming
  import opened Tree
  import opened StreamRead
  import opened StreamWrite
  import opened StreamFree
  import opened FileSystem
  import opened Sfs
  import opened Format
  import opened Runs
  import opened Lookups
  import opened Contents

  // Where paths lead.

  /** A component leads to an object or nowhere. */
  lemma ComponentIs(s: Fs, p: int, w: string)
    requires Inv(s) && IsDir(s.objs, p)
    ensures Component(s.objs, p, w) in s.objs || Component(s.objs, p, w) == -1
    ensures Component(s.objs, p, ".") == p && Component(s.objs, p, "..") == s.objs[p].pno && -1 !in s.objs
  {
    hide Ownership, BlocksOwned, Covered;
    var e := s.objs[p].entries;
    assert DirOk(s.objs, p, s.objs[p]);
    FirstNamedIs(e, ".", 0);
    FirstNamedIs(e, "..", 1);
    var i := FirstNamed(e, w);
    if i < |e| {
      assert i >= 2 ==> ChildOk(s.objs, p, e[i].num);
    }
  }

  lemma ResolveIs(s: Fs, path: string)
    requires Inv(s) && Proper(s.objs, path)
    ensures Resolve(s.objs, path) in s.objs <==> Resolve(s.objs, path) >= 0
    ensures Resolve(s.objs, path) in s.objs <==> Resolve(s.objs, path) > 0
    ensures Resolve(s.objs, path) in s.objs || Resolve(s.objs, path) == -1
    ensures IsDir(s.objs, Parent(s.objs, path))
  {
    ThroughEnds(s.objs, ROOT, ParentWords(path));
    NamesAndNumbers(s, Parent(s.objs, path));
    hide Inv, ThroughDirs, Basename, Component, Parent;
    ComponentIs(s, Parent(s.objs, path), Basename(path));
  }

  // Results.

  lemma MakeResult(s: Fs, op: Op, s': Fs, r: int)
    requires Inv(s) && Next(s, op, s', r) && (op.Create? || op.Mkdir?)
    ensures |op.path| >= 1
    ensures if Resolve(s.objs, op.path) in s.objs then r == -EEXIST && s' == s else r == 0
  {
    assert Proper(s.objs, op.path);
    hide Inv, ThroughDirs, Resolve, Parent, Basename, CreateStep;
    ResolveIs(s, op.path);
  }

  lemma RemoveResult(s: Fs, path: string, s': Fs, r: int)
    requires Inv(s) && Next(s, Remove(path), s', r)
    ensures |path| >= 1
    ensures if Resolve(s.objs, path) in s.objs then r == 0 else r == -ENOENT && s' == s
  {
    assert Proper(s.objs, path);
    hide Inv, ThroughDirs, Resolve, Parent, Basename, UnlinkStep;
    ResolveIs(s, path);
  }

  lemma ShortenResult(s: Fs, path: string, n: nat, s': Fs, r: int)
    requires Inv(s) && Next(s, Shorten(path, n), s', r)
    ensures |path| >= 1
    ensures if Resolve(s.objs, path) in s.objs then r == 0 else r == -ENOENT && s' == s
  {
    assert Proper(s.objs, path);
    hide Inv, ThroughDirs, Resolve, CutStep;
    ResolveIs(s, path);
  }

  /** The blocks a file must have for a write up to byte `end`, as far as it may grow. */
  function BlocksFor(end: nat): nat { Min(CeilDiv(end, 512), FENTRY_MAX_SIZE) }

  lemma WriteResult(s: Fs, h: int, src: seq<Byte>, offset: nat, s': Fs, r: int)
    requires Next(s, WriteTo(h, src, offset), s', r)
    ensures h in s.objs
    ensures r == if |s.objs[h].entries| + |s.chain| < BlocksFor(offset + |src|) then -ENOSPC else |src|
  {
    hide WriteStep, Need;
  }

  lemma SaveResult(s: Fs, path: string, src: seq<Byte>, offset: nat, s': Fs, r: int)
    requires Inv(s) && Next(s, Save(path, src, offset), s', r)
    ensures |path| >= 1
    ensures var h := Resolve(s.objs, path);
      if h !in s.objs then r == -ENOENT && s' == s
      else r == if |s.objs[h].entries| + |s.chain| < BlocksFor(offset + |src|) then -ENOSPC else |src|
  {
    assert Proper(s.objs, path);
    hide Inv, ThroughDirs, Resolve, WriteStep, Logged, Need;
    ResolveIs(s, path);
  }

  /** The result of every operation, by what its path leads to. */
  lemma Results(s: Fs, op: Op, s': Fs, r: int)
    requires Inv(s) && Next(s, op, s', r)
    ensures op.WriteTo? || |op.path| >= 1
    ensures op.Create? || op.Mkdir? ==> if Resolve(s.objs, op.path) in s.objs then r == -EEXIST && s' == s else r == 0
    ensures op.Remove? || op.Shorten? ==> if Resolve(s.objs, op.path) in s.objs then r == 0 else r == -ENOENT && s' == s
    ensures op.Save? && Resolve(s.objs, op.path) !in s.objs ==> r == -ENOENT && s' == s
    ensures op.WriteTo? || (op.Save? && Resolve(s.objs, op.path) in s.objs) ==>
      var h := if op.WriteTo? then op.inum else Resolve(s.objs, op.path);
      h in s.objs
      && r == if |s.objs[h].entries| + |s.chain| < BlocksFor(op.offset + |op.src|) then -ENOSPC else |op.src|
  {
    hide Inv, Next, Resolve, BlocksFor;
    match op {
      case Create(_) => MakeResult(s, op, s', r);
      case Mkdir(_) => MakeResult(s, op, s', r);
      case WriteTo(h, src, offset) => WriteResult(s, h, src, offset, s', r);
      case Save(path, src, offset) => SaveResult(s, path, src, offset, s', r);
      case Remove(path) => RemoveResult(s, path, s', r);
      case Shorten(path, n) => ShortenResult(s, path, n, s', r);
    }
  }

  // Creating.

  /** What create and mkdir have in common: one object comes, the parent gets one entry. */
  lemma Made(s: Fs, op: Op, s': Fs)
    requires Inv(s) && Next(s, op, s', 0) && (op.Create? || op.Mkdir?)
    ensures |op.path| >= 1
    ensures var p, c := Parent(s.objs, op.path), Resolve(s'.objs, op.path);
      && IsLeast(c, s.free) && c !in s.objs && s'.objs.Keys == s.objs.Keys + {c} && s'.objs[c].pno == p
      && p in s.objs && s'.objs[p].entries == s.objs[p].entries + [Ent(Basename(op.path), c)]
      && (forall g :: g in s.objs && g != p ==> s'.objs[g] == s.objs[g])
      && s'.chain == s.chain && s'.data == s.data
  {
    MadeStep(s, op, s');
  }

  lemma MadeStep(s: Fs, op: Op, s': Fs)
    requires Inv(s) && Next(s, op, s', 0) && (op.Create? || op.Mkdir?)
    ensures |op.path| >= 1
    ensures var kind, p, c := if op.Create? then File else Dir, Parent(s.objs, op.path), Resolve(s'.objs, op.path);
      && CreateStep(s, kind, p, Basename(op.path), c, s') && c !in s.objs && p in s.objs
      && s'.objs[p].entries == s.objs[p].entries + [Ent(Basename(op.path), c)]
      && IsLeast(c, s.free) && s'.objs.Keys == s.objs.Keys + {c} && s'.objs[c].pno == p
      && (forall g :: g in s.objs && g != p ==> s'.objs[g] == s.objs[g])
      && s'.chain == s.chain && s'.data == s.data
  {
    var kind := if op.Create? then File else Dir;
    MakeCall(s, op, s');
    hide Next, Inv, CanCreate, CreateNext, ThroughDirs, Resolve, Parent, Basename, CreateStep, NamesOk, HasName;
    hide GoodName;
    AbsentName(s, op.path);
    CreateThenLookup(s, kind, op.path, s');
    var p, c := Parent(s.objs, op.path), Resolve(s'.objs, op.path);
    CreateKeepsInv(s, kind, p, Basename(op.path), c, s');
    NewObject(s, kind, p, Basename(op.path), c, s');
  }

  lemma MakeCall(s: Fs, op: Op, s': Fs)
    requires Inv(s) && Next(s, op, s', 0) && (op.Create? || op.Mkdir?)
    ensures |op.path| >= 1 && CanCreate(s, op.path) && Resolve(s.objs, op.path) <= 0 && Proper(s.objs, op.path)
    ensures CreateNext(s, if op.Create? then File else Dir, op.path, s', 0)
  {
    hide Inv, ThroughDirs, Resolve, CreateStep;
  }

  lemma NewObject(s: Fs, kind: Kind, p: int, name: string, c: int, s': Fs)
    requires CreateStep(s, kind, p, name, c, s') && c !in s.objs
    ensures p in s.objs && p != c && c in s'.objs && IsLeast(c, s.free) && s'.objs[c] == NewObj(kind, c, p)
    ensures s'.objs.Keys == s.objs.Keys + {c} && s'.objs[c].pno == p && s'.chain == s.chain && s'.data == s.data
    ensures forall g :: g in s.objs && g != p ==> s'.objs[g] == s.objs[g]
  {
    hide Appended;
  }

  /** sfs_create makes an empty file. */
  lemma CreateMakesFile(s: Fs, path: string, s': Fs)
    requires Inv(s) && Next(s, Create(path), s', 0)
    ensures |path| >= 1
    ensures var c := Resolve(s'.objs, path);
      && c !in s.objs && c in s'.objs && s'.objs[c].kind.File?
      && s'.objs[c].entries == [] && s'.objs[c].fsize == 0 && s'.objs[c].nlink == 1
      && Stored(s'.objs[c], s'.data) && Content(s'.objs[c], s'.data) == []
  {
    hide Inv, Next, Resolve, Parent, Basename, CreateStep;
    MadeStep(s, Create(path), s');
    NewObject(s, File, Parent(s.objs, path), Basename(path), Resolve(s'.objs, path), s');
  }

  /** sfs_mkdir makes a directory that holds nothing but its dot entries. */
  lemma MkdirMakesDir(s: Fs, path: string, s': Fs)
    requires Inv(s) && Next(s, Mkdir(path), s', 0)
    ensures |path| >= 1
    ensures var c := Resolve(s'.objs, path);
      && c !in s.objs && c in s'.objs && s'.objs[c].kind.Dir? && |s'.objs[c].entries| == 2 && s'.objs[c].nlink == 2
      && Component(s'.objs, c, ".") == c && Component(s'.objs, c, "..") == Parent(s.objs, path)
      && forall w :: w != "." && w != ".." ==> Component(s'.objs, c, w) == -1
  {
    NextKeepsInv(s, Mkdir(path), s', 0);
    hide Inv, Next, Resolve, Parent, Basename, CreateStep, Component;
    MadeStep(s, Mkdir(path), s');
    var p, c := Parent(s.objs, path), Resolve(s'.objs, path);
    NewObject(s, Dir, p, Basename(path), c, s');
    ComponentIs(s', c, "");
    forall w | w != "." && w != ".."
      ensures Component(s'.objs, c, w) == -1
    {
      NoOtherName(s'.objs, c, p, w);
    }
  }

  lemma NoOtherName(objs: map<int, Obj>, c: int, p: int, w: string)
    requires c in objs && objs[c].entries == [Ent(".", c), Ent("..", p)] && w != "." && w != ".."
    ensures Component(objs, c, w) == -1
  {
    assert FirstNamed(objs[c].entries, w) == 2;
  }

  /** The fresh file system is an empty root. */
  lemma FreshRoot()
    ensures InitialFs().objs.Keys == {ROOT} && IsDir(InitialFs().objs, ROOT) && |InitialFs().objs[ROOT].entries| == 2
    ensures Component(InitialFs().objs, ROOT, ".") == ROOT && Component(InitialFs().objs, ROOT, "..") == ROOT
    ensures forall w :: w != "." && w != ".." ==> Component(InitialFs().objs, ROOT, w) == -1
  {
    InitialInv();
    hide Inv, Component;
    ComponentIs(InitialFs(), ROOT, "");
    forall w | w != "." && w != ".."
      ensures Component(InitialFs().objs, ROOT, w) == -1
    {
      NoOtherName(InitialFs().objs, ROOT, ROOT, w);
    }
  }

  /** On a fresh file system every name can be created in the root. */
  lemma MayCreate(name: string)
    requires GoodName(name) && name != "." && name != ".."
    ensures Can(InitialFs(), Create("/" + name)) && Can(InitialFs(), Mkdir("/" + name))
    ensures Resolve(InitialFs().objs, "/" + name) == -1
  {
    hide InitialFs, Component, Proper, Parent, Basename, Resolve, Need;
    FreshRoot();
    FreshCount();
    OneComponent(InitialFs().objs, name);
    NeedOfThree();
  }

  lemma NeedOfThree()
    ensures Need(Dir, 2) == 0 && Need(Dir, 3) == 0
  {
  }

  lemma OneComponent(objs: map<int, Obj>, name: string)
    requires IsDir(objs, ROOT) && GoodName(name)
    ensures var path := "/" + name;
      && Proper(objs, path) && Parent(objs, path) == ROOT && Basename(path) == name
      && Resolve(objs, path) == Component(objs, ROOT, name) && path[|path| - 1] != '/' && |path| <= 14
  {
    hide Component, Walk, Split, Join, Words;
    JoinStep(name, [""]);
    WordsOfPath([name]);
    PathWalks(objs, [name]);
    assert [name][..0] == [];
    WalkOne(objs, name);
  }

  lemma WalkOne(objs: map<int, Obj>, name: string)
    requires IsDir(objs, ROOT)
    ensures Walk(objs, ROOT, []) == ROOT && Walk(objs, ROOT, [name]) == Component(objs, ROOT, name)
    ensures ThroughDirs(objs, ROOT, [])
  {
    assert [name][1..] == [];
  }

  lemma FreshCount()
    ensures |InitialFs().free| == 1021
  {
    NodesSize(ROOT + 1);
  }

  // Removing.

  /** sfs_unlink takes the one object away and the one entry. */
  lemma RemoveTakes(s: Fs, path: string, s': Fs)
    requires Inv(s) && Next(s, Remove(path), s', 0)
    ensures |path| >= 1
    ensures var p, h := Parent(s.objs, path), Resolve(s.objs, path);
      && h in s.objs && s.objs[h].kind.File? && s'.objs.Keys == s.objs.Keys - {h}
      && p in s'.objs && p in s.objs
      && multiset(s'.objs[p].entries) == multiset(s.objs[p].entries) - multiset{Ent(Basename(path), h)}
      && (forall g :: g in s'.objs && g != p ==> s'.objs[g] == s.objs[g])
      && |s'.chain| == |s.chain| + |s.objs[h].entries|
  {
    RemoveResult(s, path, s', 0);
    RemoveCall(s, path, s');
    UnlinkName(s, path);
    NamesAndNumbersOf(s);
    hide Inv, Next, CanUnlink, UnlinkNext, ThroughDirs, Resolve, Parent, Basename;
    RemovedEntry(s, Parent(s.objs, path), Basename(path), Resolve(s.objs, path), s');
  }

  lemma RemoveCall(s: Fs, path: string, s': Fs)
    requires Next(s, Remove(path), s', 0)
    ensures |path| >= 1 && CanUnlink(s, path) && Resolve(s.objs, path) >= 0
    ensures UnlinkStep(s, Parent(s.objs, path), Basename(path), Resolve(s.objs, path), s')
  {
    hide ThroughDirs, Resolve, Parent, Basename, UnlinkStep;
  }

  lemma RemovedEntry(s: Fs, p: int, name: string, h: int, s': Fs)
    requires UnlinkStep(s, p, name, h, s') && h != p && Component(s.objs, p, name) == h && name != "."
    requires NamesOk(s.objs[p].entries) && p >= ROOT
    ensures h in s.objs && s.objs[h].kind.File? && s'.objs.Keys == s.objs.Keys - {h} && p in s'.objs && p in s.objs
    ensures multiset(s'.objs[p].entries) == multiset(s.objs[p].entries) - multiset{Ent(name, h)}
    ensures forall g :: g in s'.objs && g != p ==> s'.objs[g] == s.objs[g]
    ensures |s'.chain| == |s.chain| + |s.objs[h].entries|
  {
    hide Unique;
    var e := s.objs[p].entries;
    var i := FirstNamed(e, name);
    RemoveAtMultiset(e, i);
    assert e[i] == Ent(name, h);
  }

  // Sizes.

  /** Writing and shortening change one object. */
  lemma FileOnly(s: Fs, op: Op, s': Fs, r: int)
    requires Inv(s) && Next(s, op, s', r) && (op.WriteTo? || op.Save? || op.Shorten?)
    ensures s'.objs.Keys == s.objs.Keys
    ensures forall g :: g in s.objs && g != Target(s, op) ==> s'.objs[g] == s.objs[g]
  {
    hide Inv, Resized, WriteDone, Freed, Resolve, Need;
  }

  /** File h after any write, complete or not, past the largest file or not: its size, its
      blocks, and every byte a reader sees. */
  ghost predicate WroteFile(s: Fs, h: int, src: seq<Byte>, at: nat, s': Fs) {
    && h in s.objs && h in s'.objs && Stored(s.objs[h], s.data) && Stored(s'.objs[h], s'.data)
    && var was, now, n := s.objs[h], s'.objs[h], |s.objs[h].entries|;
    && |Content(now, s'.data)| == Min(Max(|Content(was, s.data)|, at + |src|), FCONTENT_MAX_SIZE)
    && |now.entries| == Max(n, Min(BlocksFor(at + |src|), n + |s.chain|))
    && |s'.chain| == |s.chain| + n - |now.entries|
    && forall p: nat :: p < |Content(now, s'.data)| ==>
         Content(now, s'.data)[p] ==
           if p >= 512 * |now.entries| then 0
           else if at <= p < at + |src| then src[p - at]
           else RawAt(was, s.data, p)
  }

  lemma StepWrites(s: Fs, h: int, src: seq<Byte>, at: nat, s': Fs)
    requires Inv(s) && WriteStep(s, h, src, at, s')
    ensures WroteFile(s, h, src, at, s')
  {
    OverlaidStored(s.objs[h], s'.objs[h], s.data, s'.data, src, at);
    ChainTaken(s, h, src, at, s');
    SizeSet(s, h, src, at, s');
    hide Inv, WriteStep, BlocksFor;
    forall p: nat | p < |Content(s'.objs[h], s'.data)|
      ensures Content(s'.objs[h], s'.data)[p] ==
        if p < 512 * |s'.objs[h].entries| then OverlayAt(s.objs[h], s.data, src, at, p) else 0
    {
      ContentAfter(s, h, src, at, s', p);
    }
  }

  lemma SizeSet(s: Fs, h: int, src: seq<Byte>, at: nat, s': Fs)
    requires Inv(s) && WriteStep(s, h, src, at, s')
    ensures h in s.objs && h in s'.objs && 0 <= s.objs[h].fsize && 0 <= s'.objs[h].fsize
    ensures s'.objs[h].fsize == Min(Max(s.objs[h].fsize, at + |src|), FCONTENT_MAX_SIZE)
    ensures var n := |s.objs[h].entries|;
      |s'.objs[h].entries| == Max(n, Min(BlocksFor(at + |src|), n + |s.chain|))
  {
    hide Ownership, BlocksOwned, Covered, TreeOk, Overlaid, Extended, Resized;
    assert Metered(s.objs[h]);
  }

  lemma ChainTaken(s: Fs, h: int, src: seq<Byte>, at: nat, s': Fs)
    requires WriteStep(s, h, src, at, s')
    ensures |s'.chain| == |s.chain| + |s.objs[h].entries| - |s'.objs[h].entries|
  {
    hide Resized, Overlaid;
  }

  lemma WriteWrites(s: Fs, h: int, src: seq<Byte>, at: nat, s': Fs, r: int)
    requires Inv(s) && Next(s, WriteTo(h, src, at), s', r)
    ensures WroteFile(s, h, src, at, s')
  {
    assert WriteStep(s, h, src, at, s');
    hide Next, WroteFile;
    StepWrites(s, h, src, at, s');
  }

  lemma SaveWrites(s: Fs, path: string, src: seq<Byte>, at: nat, s': Fs, r: int)
    requires Inv(s) && Next(s, Save(path, src, at), s', r) && |path| >= 1 && Resolve(s.objs, path) in s.objs
    ensures WroteFile(s, Resolve(s.objs, path), src, at, s')
  {
    NamesAndNumbersOf(s);
    hide Inv, WriteStep, Resolve, ThroughDirs, WroteFile;
    var h := Resolve(s.objs, path);
    if r >= 0 {
      StepWrites(s, h, src, at, s');
    } else {
      var written :| WriteNext(s, h, src, at, written, r) && Logged(written, s');
      StepWrites(s, h, src, at, written);
      LoggedWrites(s, h, src, at, written, s');
    }
  }

  lemma LoggedWrites(s: Fs, h: int, src: seq<Byte>, at: nat, written: Fs, s': Fs)
    requires WroteFile(s, h, src, at, written) && Logged(written, s')
    ensures WroteFile(s, h, src, at, s')
  {
    assert s'.objs == written.objs && s'.data == written.data && s'.chain == written.chain;
  }

  lemma NamesAndNumbersOf(s: Fs)
    requires Inv(s)
    ensures forall h :: h in s.objs ==> h >= ROOT
  {
  }

  /** sfs_truncate within the blocks of a file: the new size, the bytes that stay, and the
      blocks that are given back. */
  lemma ShortenCuts(s: Fs, path: string, n: nat, s': Fs)
    requires Inv(s) && Next(s, Shorten(path, n), s', 0)
    ensures |path| >= 1
    ensures var h := Resolve(s.objs, path);
      && h in s.objs && h in s'.objs && Stored(s.objs[h], s.data) && Stored(s'.objs[h], s'.data)
      && |Content(s'.objs[h], s'.data)| == n
      && (n <= |Content(s.objs[h], s.data)| ==> Content(s'.objs[h], s'.data) == Content(s.objs[h], s.data)[..n])
      && (forall p: nat :: p < n ==> Content(s'.objs[h], s'.data)[p] == RawAt(s.objs[h], s.data, p))
      && |s'.chain| == |s.chain| + |s.objs[h].entries| - (n / 512 + 1)
  {
    ShortenIs(s, path, n, s');
    var h := Resolve(s.objs, path);
    assert Metered(s.objs[h]);
    assert Min(n, FCONTENT_MAX_SIZE) == n;
    hide Inv, Next, CutStep, Resolve;
    TruncateKeepsPrefix(s, h, n, s');
  }

  /** What was written whole is read back. */
  method WriteThenRead(m: Machine, h: int, buf: array<Byte>, size: nat, at: nat, out: array<Byte>) returns (n: nat)
    requires Valid(m) && size <= buf.Length && size <= out.Length && buf != out && CanWrite(FsOf(m), h, buf[..size], at)
    requires |m.objs[h].entries| + |m.chain| >= BlocksFor(at + size) && at + size <= FCONTENT_MAX_SIZE
    modifies m`blocks, m`blockBuf, m`super, m`nodes, m`nodeBuf, m`chain, m`data, m`errno, m`freeNodes, m`objs, m.f, out
    ensures Valid(m) && n == size && out[..n] == old(buf[..size])
  {
    hide DiskOk, Rep, Ownership, Inv, CanWrite, FileWritten, WriteStep, Stored, RunsOut, Reach, Need, BlocksFor;
    hide Content;
    ghost var s, src := FsOf(m), buf[..size];
    MayWrite(s, h, src, at);
    var r := StreamWrite.Write(m, h, buf, size, at);
    ghost var written := FsOf(m);
    WroteStep(s, h, src, at, written);
    WholeWrite(s, h, src, at, written);
    n := StreamRead.Read(m, h, out, size, at);
  }

  lemma MayWrite(s: Fs, h: int, src: seq<Byte>, at: nat)
    requires Inv(s) && CanWrite(s, h, src, at)
    ensures h in s.objs && s.objs[h].kind.File? && |src| >= 1 && BlocksOwned(s.objs, s.data)
    ensures at / 512 <= |s.objs[h].entries|
    ensures |s.free| + Need(File, |s.objs[h].entries|)
      >= Need(File, Reach(|s.objs[h].entries|, |s.chain|, (at + |src| - 1) / 512 + 1))
  {
  }

  lemma WroteStep(s: Fs, h: int, src: seq<Byte>, at: nat, s': Fs)
    requires h in s.objs && s.objs[h].kind.File? && |src| >= 1 && at / 512 <= |s.objs[h].entries|
    requires h in s'.objs && s'.objs == s.objs[h := s'.objs[h]]
    requires FileWritten(s.objs[h], s'.objs[h], s.free, s'.free, s.chain, s'.chain, s.data, s'.data, src, at)
    ensures WriteStep(s, h, src, at, s')
  {
  }

  lemma WholeWrite(s: Fs, h: int, src: seq<Byte>, at: nat, s': Fs)
    requires Inv(s) && WriteStep(s, h, src, at, s') && h in s.objs
    requires |s.objs[h].entries| + |s.chain| >= BlocksFor(at + |src|) && at + |src| <= FCONTENT_MAX_SIZE
    ensures Inv(s') && h in s'.objs && s'.objs[h].kind.File? && Stored(s'.objs[h], s'.data)
    ensures at + |src| <= s'.objs[h].fsize && at + |src| <= |Content(s'.objs[h], s'.data)|
    ensures Content(s'.objs[h], s'.data)[at..at + |src|] == src
  {
    WriteKeepsInv(s, h, src, at, s');
    FitsRun(s, h, src, at, s');
    WriteReadsBack(s, h, src, at, s');
  }

  lemma FitsRun(s: Fs, h: int, src: seq<Byte>, at: nat, s': Fs)
    requires WriteStep(s, h, src, at, s')
    ensures |s.objs[h].entries| + |s.chain| >= BlocksFor(at + |src|) ==>
      !RunsOut(|s.objs[h].entries|, |s.chain|, (at + |src| - 1) / 512 + 1)
  {
    hide Resized, WriteDone;
  }
}
