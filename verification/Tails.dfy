/** What lies in the blocks of a file behind its end: zeros, unless shortening has
    hidden other bytes there. */
module Tails {
  import opened Disk
  import opened Blocks
  import opened IndexSpec
  import opened Owners
  import opened Names
  import opened Directory
  import opened StreamWrite
  import opened StreamFree
  import opened Path
  import opened Tree
  import opened FileSystem
  import opened Sfs
  import opened Format
  import opened Runs
  import opened Contents

  /** Every byte of the blocks from the end of the file on is zero. */
  ghost predicate Tailed(o: Obj, data: map<int, seq<Byte>>) {
    Stored(o, data) && forall p: nat :: p >= o.fsize ==> RawAt(o, data, p) == 0
  }

  ghost predicate TailZero(s: Fs) {
    forall h {:trigger s.objs[h]} :: h in s.objs && s.objs[h].kind.File? ==> Tailed(s.objs[h], s.data)
  }

  /** The bytes that shortening to n hides in the block that is cut are zeros. */
  ghost predicate CutClean(o: Obj, data: map<int, seq<Byte>>, n: nat) {
    && Stored(o, data)
    && forall p: nat :: n <= p < Min(512 * (n / 512 + 1), |Content(o, data)|) ==> Content(o, data)[p] == 0
  }

  ghost predicate TailClean(s: Fs, op: Op) {
    op.Shorten? && |op.path| >= 1 && Resolve(s.objs, op.path) in s.objs ==>
      CutClean(s.objs[Resolve(s.objs, op.path)], s.data, op.offset)
  }

  // The file that an operation names.

  lemma WriteTail(s: Fs, h: int, src: seq<Byte>, offset: nat, s': Fs)
    requires Inv(s) && WriteStep(s, h, src, offset, s') && Tailed(s.objs[h], s.data)
    ensures h in s'.objs && Tailed(s'.objs[h], s'.data)
  {
    hide Inv, Resized, Reach;
    var o, o' := s.objs[h], s'.objs[h];
    assert |o'.entries| <= FENTRY_MAX_SIZE by { FitsAfter(s, h, src, offset, s'); }
    forall p: nat | p >= o'.fsize
      ensures RawAt(o', s'.data, p) == 0
    {
      if p < 512 * |o'.entries| {
        assert RawAt(o', s'.data, p) == OverlayAt(o, s.data, src, offset, p);
      }
    }
  }

  lemma FitsAfter(s: Fs, h: int, src: seq<Byte>, offset: nat, s': Fs)
    requires Inv(s) && WriteStep(s, h, src, offset, s')
    ensures |s'.objs[h].entries| <= FENTRY_MAX_SIZE
  {
    WriteKeepsInv(s, h, src, offset, s');
    assert |s'.objs[h].entries| <= FENTRY_MAX_SIZE;
  }

  lemma CutTail(s: Fs, h: int, n: nat, s': Fs)
    requires Inv(s) && CutStep(s, h, n / 512 + 1, n, s') && n <= FCONTENT_MAX_SIZE && Tailed(s.objs[h], s.data)
    ensures h in s'.objs && (Tailed(s'.objs[h], s'.data) <==> CutClean(s.objs[h], s.data, n))
  {
    hide Inv, Resized, Freed;
    CutKeepsInv(s, h, n / 512 + 1, n, s');
    CutBytes(s, h, n, s');
    var o, o' := s.objs[h], s'.objs[h];
    if CutClean(o, s.data, n) {
      forall p: nat | p >= n
        ensures RawAt(o', s'.data, p) == 0
      {
        if p / 512 <= n / 512 && p < o.fsize {
          assert Content(o, s.data)[p] == 0;
        }
      }
    }
    if Tailed(o', s'.data) {
      forall p: nat | n <= p < Min(512 * (n / 512 + 1), |Content(o, s.data)|)
        ensures Content(o, s.data)[p] == 0
      {
        assert RawAt(o', s'.data, p) == RawAt(o, s.data, p);
      }
    }
  }

  lemma SaveTail(s: Fs, path: string, src: seq<Byte>, offset: nat, s': Fs, r: int)
    requires Inv(s) && TailZero(s) && |path| >= 1 && SaveNext(s, path, src, offset, s', r) && Resolve(s.objs, path) >= 0
    ensures Resolve(s.objs, path) in s'.objs && Tailed(s'.objs[Resolve(s.objs, path)], s'.data)
  {
    hide Inv, WriteStep, Resolve, Tailed;
    var h := Resolve(s.objs, path);
    if r >= 0 {
      WriteToFile(s, h, src, offset, s');
      WriteTail(s, h, src, offset, s');
    } else {
      var written :| WriteNext(s, h, src, offset, written, r) && Logged(written, s');
      WriteToFile(s, h, src, offset, written);
      WriteTail(s, h, src, offset, written);
    }
  }

  lemma WriteToFile(s: Fs, h: int, src: seq<Byte>, offset: nat, s': Fs)
    requires WriteStep(s, h, src, offset, s')
    ensures h in s.objs && s.objs[h].kind.File?
  {
  }

  // The others.

  lemma UntouchedTail(s: Fs, s': Fs, g: int)
    requires Untouched(s, s', g) && Tailed(s.objs[g], s.data)
    ensures Tailed(s'.objs[g], s'.data)
  {
  }

  /** A file that was not there is empty. */
  lemma NewFileTail(s: Fs, op: Op, s': Fs, r: int, g: int)
    requires Inv(s) && Next(s, op, s', r) && g in s'.objs && g !in s.objs && s'.objs[g].kind.File?
    ensures Tailed(s'.objs[g], s'.data)
  {
    hide Inv, CanCreate, CanSave, CanWrite, CanUnlink, CanTruncate, Resolve, Parent, Basename, Tailed, Resized;
    hide WriteDone, Freed;
    HasPath(s, op);
    match op {
      case Create(path) => CreatedTail(s, File, path, s', r, g);
      case Mkdir(path) => CreatedTail(s, Dir, path, s', r, g);
      case WriteTo(h, src, offset) =>
      case Save(path, src, offset) =>
      case Remove(path) =>
      case Shorten(path, offset) =>
    }
  }

  lemma CreatedTail(s: Fs, kind: Kind, path: string, s': Fs, r: int, g: int)
    requires |path| >= 1 && CreateNext(s, kind, path, s', r) && g in s'.objs && g !in s.objs && s'.objs[g].kind.File?
    ensures Tailed(s'.objs[g], s'.data)
  {
    hide Resolve, Parent, Basename, Appended, Tailed;
    if Resolve(s.objs, path) <= 0 {
      var c :| CreateStep(s, kind, Parent(s.objs, path), Basename(path), c, s');
      assert s'.objs[g] == NewObj(kind, g, Parent(s.objs, path));
      EmptyTail(s'.objs[g], s'.data);
    }
  }

  lemma EmptyTail(o: Obj, data: map<int, seq<Byte>>)
    ensures o.entries == [] ==> Tailed(o, data)
  {
  }

  lemma OtherTail(s: Fs, op: Op, s': Fs, r: int, g: int)
    requires Inv(s) && Next(s, op, s', r) && TailZero(s) && g in s'.objs && s'.objs[g].kind.File? && g != Target(s, op)
    ensures Tailed(s'.objs[g], s'.data)
  {
    hide Inv, Next, Tailed, Target;
    if g !in s.objs {
      NewFileTail(s, op, s', r, g);
    } else {
      SameKind(s, op, s', r, g);
      NextIsolated(s, op, s', r, g);
      UntouchedTail(s, s', g);
    }
  }

  /** No file becomes a directory or the other way round. */
  lemma SameKind(s: Fs, op: Op, s': Fs, r: int, g: int)
    requires Inv(s) && Next(s, op, s', r) && g in s.objs && g in s'.objs
    ensures s'.objs[g].kind == s.objs[g].kind
  {
    hide Ownership, BlocksOwned, Covered, TreeOk, Resolve, Parent, Basename, ThroughDirs, WriteDone, Freed;
    match op {
      case Create(path) => CreatedKind(s, File, path, s', r, g);
      case Mkdir(path) => CreatedKind(s, Dir, path, s', r, g);
      case WriteTo(h, src, offset) =>
      case Save(path, src, offset) =>
      case Remove(path) =>
      case Shorten(path, offset) =>
    }
  }

  lemma CreatedKind(s: Fs, kind: Kind, path: string, s': Fs, r: int, g: int)
    requires Inv(s) && CanCreate(s, path) && CreateNext(s, kind, path, s', r) && g in s.objs && g in s'.objs
    ensures s'.objs[g].kind == s.objs[g].kind
  {
    hide Inv, CreateStep, Resolve, Parent, Basename, ThroughDirs;
    if Resolve(s.objs, path) <= 0 {
      AbsentName(s, path);
      var c :| CreateStep(s, kind, Parent(s.objs, path), Basename(path), c, s');
      CreateKeepsInv(s, kind, Parent(s.objs, path), Basename(path), c, s');
      CreateKind(s, kind, Parent(s.objs, path), Basename(path), c, s', g);
    }
  }

  lemma CreateKind(s: Fs, kind: Kind, p: int, name: string, c: int, s': Fs, g: int)
    requires CreateStep(s, kind, p, name, c, s') && c !in s.objs && g in s.objs
    ensures g in s'.objs && s'.objs[g].kind == s.objs[g].kind
  {
  }

  // One step, and runs.

  lemma TargetTail(s: Fs, op: Op, s': Fs, r: int, h: int)
    requires Inv(s) && Next(s, op, s', r) && TailZero(s) && h == Target(s, op) && h in s'.objs && s'.objs[h].kind.File?
    ensures Tailed(s'.objs[h], s'.data) <==> TailClean(s, op)
  {
    hide Inv, Resolve, Tailed, CutClean, CreateNext, WriteStep, SaveNext, Resized, Freed, CutStep, TruncateNext;
    hide CanCreate, CanSave, CanWrite, CanUnlink, CanTruncate;
    HasPath(s, op);
    NegativeNoObject(s, s', op, r);
    match op {
      case Create(path) =>
      case Mkdir(path) =>
      case WriteTo(_, src, offset) =>
        WriteToFile(s, h, src, offset, s');
        WriteTail(s, h, src, offset, s');
      case Save(path, src, offset) => SaveTail(s, path, src, offset, s', r);
      case Remove(path) => GoneTail(s, path, s', r);
      case Shorten(path, offset) => ShortenTail(s, path, offset, s', r);
    }
  }

  lemma NegativeNoObject(s: Fs, s': Fs, op: Op, r: int)
    requires Inv(s) && Next(s, op, s', r)
    ensures forall h :: h in s.objs || h in s'.objs ==> h >= ROOT
  {
    NextKeepsInv(s, op, s', r);
    hide Next, Ownership, BlocksOwned, Covered, TreeOk;
  }

  lemma GoneTail(s: Fs, path: string, s': Fs, r: int)
    requires Inv(s) && CanUnlink(s, path) && UnlinkNext(s, path, s', r) && Resolve(s.objs, path) >= 0
    ensures Resolve(s.objs, path) !in s'.objs
  {
    UnlinkName(s, path);
    hide Inv, Resolve, Parent, Basename, ThroughDirs, Resized, Freed, HasName;
  }

  lemma ShortenTail(s: Fs, path: string, n: nat, s': Fs, r: int)
    requires Inv(s) && Next(s, Shorten(path, n), s', r) && TailZero(s) && |path| >= 1 && Resolve(s.objs, path) >= 0
    ensures var h := Resolve(s.objs, path);
      h in s.objs && h in s'.objs && (Tailed(s'.objs[h], s'.data) <==> CutClean(s.objs[h], s.data, n))
  {
    assert r == 0;
    ShortenIs(s, path, n, s');
    hide Next, Inv, Resolve, CutStep, Tailed, CutClean;
    CutTail(s, Resolve(s.objs, path), n, s');
  }

  /** From zeros behind every end, an operation leads to zeros behind every end exactly when it
      does not hide other bytes in a block it cuts; that can be seen by reading the file before. */
  lemma NextTail(s: Fs, op: Op, s': Fs, r: int)
    requires Inv(s) && Next(s, op, s', r) && TailZero(s)
    ensures TailZero(s') <==> TailClean(s, op)
  {
    hide Inv, Next, Tailed, TailClean, Target;
    forall g | g in s'.objs && s'.objs[g].kind.File? && g != Target(s, op)
      ensures Tailed(s'.objs[g], s'.data)
    {
      OtherTail(s, op, s', r, g);
    }
    var h := Target(s, op);
    if h in s'.objs && s'.objs[h].kind.File? {
      TargetTail(s, op, s', r, h);
    } else {
      NoTarget(s, op, s', r);
    }
  }

  /** Only a file that stays can be shortened. */
  lemma NoTarget(s: Fs, op: Op, s': Fs, r: int)
    requires Inv(s) && Next(s, op, s', r)
    requires !(Target(s, op) in s'.objs && s'.objs[Target(s, op)].kind.File?)
    ensures TailClean(s, op)
  {
    if op.Shorten? {
      hide Inv, CutClean, Resized, Freed, Resolve, ThroughDirs;
      NegativeNoObject(s, s', op, r);
    }
  }

  lemma InitialTail()
    ensures TailZero(InitialFs())
  {
  }

  /** Over every run from a fresh file system: there are zeros behind the end of every file in
      every state exactly when no operation hid other bytes. */
  lemma {:induction false} RunTail(states: seq<Fs>, ops: seq<Op>, results: seq<int>, i: nat)
    requires Run(states, ops, results) && states[0] == InitialFs() && i < |states|
    ensures (forall j :: 0 <= j <= i ==> TailZero(states[j])) <==>
      (forall k :: 0 <= k < i ==> TailClean(states[k], ops[k]))
    decreases i
  {
    hide Inv, Next, TailZero, TailClean;
    InitialInv();
    InitialTail();
    if i > 0 {
      RunTail(states, ops, results, i - 1);
      RunKeepsInv(states, ops, results, i - 1);
      if TailZero(states[i - 1]) {
        NextTail(states[i - 1], ops[i - 1], states[i], results[i - 1]);
      }
    }
  }

  /** Then the gap before a write past the end reads as zeros. */
  lemma GapIsZero(s: Fs, h: int, src: seq<Byte>, offset: nat, s': Fs, p: nat)
    requires Inv(s) && TailZero(s) && WriteStep(s, h, src, offset, s')
    requires s.objs[h].fsize <= p < offset && p < s'.objs[h].fsize
    ensures Stored(s'.objs[h], s'.data) && Content(s'.objs[h], s'.data)[p] == 0
  {
    hide Inv, WriteStep, Tailed;
    WriteToFile(s, h, src, offset, s');
    GapReads(s, h, src, offset, s', p);
    assert RawAt(s.objs[h], s.data, p) == 0 by { TailByte(s.objs[h], s.data, p); }
  }

  lemma TailByte(o: Obj, data: map<int, seq<Byte>>, p: nat)
    requires Tailed(o, data) && p >= o.fsize
    ensures Stored(o, data) && RawAt(o, data, p) == 0
  {
  }
}
