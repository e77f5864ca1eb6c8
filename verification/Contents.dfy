/** What the steps mean for the bytes a reader sees. */
module Contents {
  import opened Disk
  import opened IndexSpec
  import opened Blocks
  import opened StreamWrite
  import opened FileSystem
  import opened Path
  import opened Sfs
  import opened Runs

  /** File g is the same object and holds the same bytes in both states. */
  ghost predicate Untouched(s: Fs, s': Fs, g: int) {
    && g in s.objs && g in s'.objs && s'.objs[g] == s.objs[g]
    && Stored(s.objs[g], s.data) && Stored(s.objs[g], s'.data)
    && Content(s'.objs[g], s'.data) == Content(s.objs[g], s.data)
    && forall p: nat :: RawAt(s'.objs[g], s'.data, p) == RawAt(s.objs[g], s.data, p)
  }

  lemma WriteIsolated(s: Fs, h: int, src: seq<Byte>, offset: nat, s': Fs, g: int)
    requires Inv(s) && WriteStep(s, h, src, offset, s') && g in s.objs && g != h && s.objs[g].kind.File?
    ensures Untouched(s, s', g)
  {
    BlocksOwnedMeansOnce(s.objs, s.data);
    HousedStored(s.objs, s.data, g);
    hide BlocksOwned, Inv, Overlaid, Extended;
    var o := s.objs[g];
    forall i | 0 <= i < |o.entries|
      ensures o.entries[i].num in s'.data && s'.data[o.entries[i].num] == s.data[o.entries[i].num]
    {
      OtherBlock(s, h, src, offset, s', g, i);
    }
    SameBytes(o, s.data, s'.data);
  }

  /** A file that stays, when the data blocks that stay are the same. */
  lemma StaysUntouched(s: Fs, s': Fs, g: int)
    requires Inv(s) && Inv(s') && g in s.objs && g in s'.objs && s'.objs[g] == s.objs[g] && s.objs[g].kind.File?
    requires forall b :: b in s'.data ==> b in s.data && s'.data[b] == s.data[b]
    ensures Untouched(s, s', g)
  {
    HousedStored(s.objs, s.data, g);
    HousedStored(s'.objs, s'.data, g);
    hide Inv;
    SameBytes(s.objs[g], s.data, s'.data);
  }

  lemma CutIsolated(s: Fs, h: int, n: nat, fsize: int, s': Fs, g: int)
    requires Inv(s) && CutStep(s, h, n, fsize, s') && 0 <= fsize <= FCONTENT_MAX_SIZE
    requires g in s.objs && g != h && s.objs[g].kind.File?
    ensures Untouched(s, s', g)
  {
    hide Inv, Resized, Untouched;
    CutKeepsInv(s, h, n, fsize, s');
    StaysUntouched(s, s', g);
  }

  lemma RemoveIsolated(s: Fs, path: string, s': Fs, r: int, g: int)
    requires Inv(s) && Inv(s') && |path| >= 1 && UnlinkNext(s, path, s', r)
    requires g in s.objs && s.objs[g].kind.File? && g != Resolve(s.objs, path)
    ensures Untouched(s, s', g)
  {
    hide Inv, Resized, Unique, Untouched, Resolve, Parent, Basename;
    StaysUntouched(s, s', g);
  }

  lemma CreateIsolated(s: Fs, kind: Kind, path: string, s': Fs, r: int, g: int)
    requires Inv(s) && Inv(s') && CanCreate(s, path) && CreateNext(s, kind, path, s', r) && g in s.objs
      && s.objs[g].kind.File?
    ensures Untouched(s, s', g)
  {
    if Resolve(s.objs, path) <= 0 {
      AbsentName(s, path);
      hide Inv, CreateStep, Untouched, Resolve, Parent, Basename, Proper;
      var p := Parent(s.objs, path);
      var c :| CreateStep(s, kind, p, Basename(path), c, s');
      CreateKeepsInv(s, kind, p, Basename(path), c, s');
      CreateSame(s, kind, p, Basename(path), c, s', g);
    }
    hide Inv, CreateNext, Untouched;
    StaysUntouched(s, s', g);
  }

  lemma CreateSame(s: Fs, kind: Kind, p: int, name: string, c: int, s': Fs, g: int)
    requires CreateStep(s, kind, p, name, c, s') && c !in s.objs && g in s.objs && s.objs[g].kind.File?
    ensures g in s'.objs && s'.objs[g] == s.objs[g] && s'.data == s.data
  {
  }

  lemma SaveIsolated(s: Fs, path: string, src: seq<Byte>, offset: nat, s': Fs, r: int, g: int)
    requires Inv(s) && |path| >= 1 && SaveNext(s, path, src, offset, s', r)
    requires g in s.objs && s.objs[g].kind.File? && g != Resolve(s.objs, path)
    ensures Untouched(s, s', g)
  {
    hide Inv, WriteStep, Resolve, Untouched;
    var h := Resolve(s.objs, path);
    if h < 0 {
      StaysUntouched(s, s', g);
    } else if r >= 0 {
      WriteIsolated(s, h, src, offset, s', g);
    } else {
      var written :| WriteNext(s, h, src, offset, written, r) && Logged(written, s');
      WriteIsolated(s, h, src, offset, written, g);
      assert Untouched(s, s', g) by { LoggedSame(s, written, s', g); }
    }
  }

  lemma LoggedSame(s: Fs, written: Fs, s': Fs, g: int)
    requires Untouched(s, written, g) && Logged(written, s')
    ensures Untouched(s, s', g)
  {
  }

  lemma ShortenIsolated(s: Fs, path: string, offset: nat, s': Fs, r: int, g: int)
    requires Inv(s) && |path| >= 1 && TruncateNext(s, path, offset, s', r)
    requires g in s.objs && s.objs[g].kind.File? && g != Resolve(s.objs, path)
    ensures Untouched(s, s', g)
  {
    hide Inv, CutStep, Resolve, Untouched;
    if Resolve(s.objs, path) >= 0 {
      CutIsolated(s, Resolve(s.objs, path), offset / 512 + 1, Min(offset, FCONTENT_MAX_SIZE), s', g);
    } else {
      StaysUntouched(s, s', g);
    }
  }

  lemma HasPath(s: Fs, op: Op)
    requires Can(s, op)
    ensures op.WriteTo? || |op.path| >= 1
  {
  }

  /** The file an operation names, or -1. */
  ghost function Target(s: Fs, op: Op): int {
    match op
    case WriteTo(h, _, _) => h
    case Save(path, _, _) => if |path| >= 1 then Resolve(s.objs, path) else -1
    case Remove(path) => if |path| >= 1 then Resolve(s.objs, path) else -1
    case Shorten(path, _) => if |path| >= 1 then Resolve(s.objs, path) else -1
    case _ => -1
  }

  /** No operation touches a file that it does not name. */
  lemma NextIsolated(s: Fs, op: Op, s': Fs, r: int, g: int)
    requires Inv(s) && Next(s, op, s', r) && g in s.objs && s.objs[g].kind.File? && g != Target(s, op)
    ensures Untouched(s, s', g)
  {
    hide Inv, CreateNext, SaveNext, UnlinkNext, TruncateNext, WriteStep, Untouched, Resolve;
    hide CanCreate, CanSave, CanWrite, CanUnlink, CanTruncate;
    NextKeepsInv(s, op, s', r);
    HasPath(s, op);
    match op {
      case Create(path) => CreateIsolated(s, File, path, s', r, g);
      case Mkdir(path) => CreateIsolated(s, Dir, path, s', r, g);
      case WriteTo(h, src, offset) => WriteIsolated(s, h, src, offset, s', g);
      case Save(path, src, offset) => SaveIsolated(s, path, src, offset, s', r, g);
      case Remove(path) => RemoveIsolated(s, path, s', r, g);
      case Shorten(path, offset) => ShortenIsolated(s, path, offset, s', r, g);
    }
  }

  lemma OtherBlock(s: Fs, h: int, src: seq<Byte>, offset: nat, s': Fs, g: int, i: nat)
    requires WriteStep(s, h, src, offset, s') && InFile(s.objs, g, i) && g != h && Stored(s.objs[g], s.data)
    requires forall a, j, b, k ::
      (InFile(s.objs, a, j) && InFile(s.objs, b, k) && s.objs[a].entries[j].num == s.objs[b].entries[k].num) ==>
          a == b && j == k
    ensures s.objs[g].entries[i].num in s'.data
    ensures s'.data[s.objs[g].entries[i].num] == s.data[s.objs[g].entries[i].num]
  {
  }

  lemma SameBytes(o: Obj, data: map<int, seq<Byte>>, data': map<int, seq<Byte>>)
    requires Stored(o, data)
    requires forall i :: 0 <= i < |o.entries| ==>
      o.entries[i].num in data' && data'[o.entries[i].num] == data[o.entries[i].num]
    ensures Stored(o, data') && Content(o, data') == Content(o, data)
    ensures forall p: nat :: RawAt(o, data', p) == RawAt(o, data, p)
  {
  }

  /** Byte p of the content after a write, complete or not. */
  lemma ContentAfter(s: Fs, h: int, src: seq<Byte>, offset: nat, s': Fs, p: nat)
    requires Inv(s) && WriteStep(s, h, src, offset, s') && p < s'.objs[h].fsize
    ensures var o, o' := s.objs[h], s'.objs[h];
      Stored(o, s.data) && Stored(o', s'.data) &&
      Content(o', s'.data)[p] == if p < 512 * |o'.entries| then OverlayAt(o, s.data, src, offset, p) else 0
  {
  }

  /** How far the blocks reach after a write that did not run out of blocks:
      to its end, unless that lies past the largest file. */
  lemma WriteReaches(s: Fs, h: int, src: seq<Byte>, offset: nat, s': Fs)
    requires Inv(s) && WriteStep(s, h, src, offset, s')
    requires !RunsOut(|s.objs[h].entries|, |s.chain|, (offset + |src| - 1) / 512 + 1)
    ensures offset + |src| <= 512 * |s'.objs[h].entries| <==> offset + |src| <= FCONTENT_MAX_SIZE
  {
  }

  lemma OverlayReads(o: Obj, o': Obj, data: map<int, seq<Byte>>, data': map<int, seq<Byte>>, src: seq<Byte>,
                     offset: nat)
    requires Overlaid(o, o', data, data', src, offset) && |o.entries| <= |o'.entries|
    requires offset + |src| <= 512 * |o'.entries| && o'.fsize == Max(o.fsize, offset + |src|)
    ensures Content(o', data')[offset..offset + |src|] == src
    ensures forall p: nat :: p < |Content(o, data)| && !(offset <= p < offset + |src|) ==>
              Content(o', data')[p] == Content(o, data)[p]
  {
    forall p: nat | p < o.fsize && !(offset <= p < offset + |src|)
      ensures RawAt(o', data', p) == RawAt(o, data, p)
    {
      if p < 512 * |o'.entries| {
        assert RawAt(o', data', p) == OverlayAt(o, data, src, offset, p);
      }
    }
    forall k | 0 <= k < |src|
      ensures RawAt(o', data', offset + k) == src[k]
    {
      assert RawAt(o', data', offset + k) == OverlayAt(o, data, src, offset, offset + k);
    }
  }

  /** A complete write is read back, and the bytes of the file around it stay. */
  lemma WriteReadsBack(s: Fs, h: int, src: seq<Byte>, offset: nat, s': Fs)
    requires Inv(s) && WriteStep(s, h, src, offset, s')
    requires !RunsOut(|s.objs[h].entries|, |s.chain|, (offset + |src| - 1) / 512 + 1)
    requires offset + |src| <= FCONTENT_MAX_SIZE
    ensures var o, o' := s.objs[h], s'.objs[h];
      && Stored(o, s.data) && Stored(o', s'.data)
      && |Content(o', s'.data)| == Max(o.fsize, offset + |src|)
      && Content(o', s'.data)[offset..offset + |src|] == src
      && forall p: nat :: p < |Content(o, s.data)| && !(offset <= p < offset + |src|) ==>
           Content(o', s'.data)[p] == Content(o, s.data)[p]
  {
    WriteReaches(s, h, src, offset, s');
    assert Metered(s.objs[h]);
    hide Inv, Resized, Overlaid, RunsOut, Reach;
    OverlaidStored(s.objs[h], s'.objs[h], s.data, s'.data, src, offset);
    OverlayReads(s.objs[h], s'.objs[h], s.data, s'.data, src, offset);
  }

  /** A write that runs out of blocks: the whole chain ends up in the file, what fits is
      stored, and the rest of the claimed length reads as zeros. */
  lemma PartialWrite(s: Fs, h: int, src: seq<Byte>, offset: nat, s': Fs)
    requires Inv(s) && WriteStep(s, h, src, offset, s')
    requires RunsOut(|s.objs[h].entries|, |s.chain|, (offset + |src| - 1) / 512 + 1)
    ensures s'.chain == [] && |s'.objs[h].entries| == |s.objs[h].entries| + |s.chain|
    ensures Stored(s.objs[h], s.data) && Stored(s'.objs[h], s'.data) && Inv(s')
    ensures |Content(s'.objs[h], s'.data)| == Min(Max(s.objs[h].fsize, offset + |src|), FCONTENT_MAX_SIZE)
    ensures forall p: nat :: p < s'.objs[h].fsize ==>
      Content(s'.objs[h], s'.data)[p] ==
        if p < 512 * |s'.objs[h].entries| then OverlayAt(s.objs[h], s.data, src, offset, p) else 0
  {
    WriteKeepsInv(s, h, src, offset, s');
    hide Inv, Resized, Overlaid;
    forall p: nat | p < s'.objs[h].fsize
      ensures Stored(s.objs[h], s.data) && Stored(s'.objs[h], s'.data)
      ensures Content(s'.objs[h], s'.data)[p] ==
        if p < 512 * |s'.objs[h].entries| then OverlayAt(s.objs[h], s.data, src, offset, p) else 0
    {
      ContentAfter(s, h, src, offset, s', p);
    }
    OverlaidStored(s.objs[h], s'.objs[h], s.data, s'.data, src, offset);
  }

  lemma OverlaidStored(o: Obj, o': Obj, data: map<int, seq<Byte>>, data': map<int, seq<Byte>>, src: seq<Byte>,
                       offset: nat)
    requires Overlaid(o, o', data, data', src, offset)
    ensures Stored(o, data) && Stored(o', data')
  {
  }

  /** Shortening keeps the bytes before the new end and frees exactly the blocks behind it. */
  lemma TruncateKeepsPrefix(s: Fs, h: int, offset: nat, s': Fs)
    requires Inv(s) && h in s.objs && s.objs[h].kind.File? && offset / 512 < |s.objs[h].entries|
    requires CutStep(s, h, offset / 512 + 1, Min(offset, FCONTENT_MAX_SIZE), s')
    ensures Stored(s.objs[h], s.data) && Stored(s'.objs[h], s'.data)
    ensures |s'.chain| == |s.chain| + |s.objs[h].entries| - (offset / 512 + 1)
    ensures |Content(s'.objs[h], s'.data)| == offset
    ensures forall p: nat :: p < offset ==> Content(s'.objs[h], s'.data)[p] == RawAt(s.objs[h], s.data, p)
    ensures offset <= s.objs[h].fsize ==> Content(s'.objs[h], s'.data) == Content(s.objs[h], s.data)[..offset]
  {
  }

  /** A write past the end: the bytes in between are what the last block held, not zeros. */
  lemma GapReads(s: Fs, h: int, src: seq<Byte>, offset: nat, s': Fs, p: nat)
    requires Inv(s) && WriteStep(s, h, src, offset, s') && s.objs[h].fsize <= p < offset && p < s'.objs[h].fsize
    ensures Stored(s.objs[h], s.data) && Stored(s'.objs[h], s'.data)
    ensures Content(s'.objs[h], s'.data)[p] == RawAt(s.objs[h], s.data, p)
  {
    ContentAfter(s, h, src, offset, s', p);
    hide Inv, Resized, Overlaid;
    assert p >= 512 * |s'.objs[h].entries| ==> p / 512 >= |s.objs[h].entries|;
  }

  /** After shortening to n bytes and writing from a later offset on, the gap shows the old
      bytes of the block that was cut, and zeros only behind it. */
  lemma ShortenThenWrite(s: Fs, path: string, n: nat, s1: Fs, src: seq<Byte>, offset: nat, s2: Fs, r: int, p: nat)
    requires Inv(s) && Next(s, Shorten(path, n), s1, 0)
    requires var h := Resolve(s.objs, path);
      Next(s1, WriteTo(h, src, offset), s2, r) && n <= p < offset && p < s2.objs[h].fsize
    ensures var h := Resolve(s.objs, path);
      h in s.objs && Stored(s.objs[h], s.data) && Stored(s2.objs[h], s2.data) &&
      Content(s2.objs[h], s2.data)[p] == if p / 512 == n / 512 then RawAt(s.objs[h], s.data, p) else 0
  {
    var h := Resolve(s.objs, path);
    ShortenIs(s, path, n, s1);
    hide Inv, CutStep, WriteStep, Resolve, CanWrite, CanTruncate;
    CutKeepsInv(s, h, n / 512 + 1, n, s1);
    CutBytes(s, h, n, s1);
    GapReads(s1, h, src, offset, s2, p);
  }

  lemma ShortenIs(s: Fs, path: string, n: nat, s1: Fs)
    requires Inv(s) && Next(s, Shorten(path, n), s1, 0)
    ensures |path| >= 1
    ensures var h := Resolve(s.objs, path);
      h in s.objs && s.objs[h].kind.File? && n / 512 < |s.objs[h].entries| && n <= FCONTENT_MAX_SIZE && h in s1.objs
      && CutStep(s, h, n / 512 + 1, n, s1)
  {
    hide BlocksOwned, Covered, Resized, Resolve;
    assert |s.objs[Resolve(s.objs, path)].entries| <= FENTRY_MAX_SIZE;
  }

  /** What the blocks hold after shortening. */
  lemma CutBytes(s: Fs, h: int, n: nat, s1: Fs)
    requires Inv(s) && Inv(s1) && CutStep(s, h, n / 512 + 1, n, s1)
    ensures Stored(s.objs[h], s.data) && Stored(s1.objs[h], s1.data) && s1.objs[h].fsize == n
    ensures forall p: nat ::
      RawAt(s1.objs[h], s1.data, p) == if p / 512 <= n / 512 then RawAt(s.objs[h], s.data, p) else 0
  {
    HousedStored(s.objs, s.data, h);
    HousedStored(s1.objs, s1.data, h);
    hide Inv, Resized;
  }

  /** The smallest case: shortened to nothing and written at offset 1, the file shows its old first byte. */
  lemma OldByteShows(s: Fs, path: string, s1: Fs, b: Byte, s2: Fs)
    requires Inv(s) && Next(s, Shorten(path, 0), s1, 0)
    requires Next(s1, WriteTo(Resolve(s.objs, path), [b], 1), s2, 1)
    ensures var h := Resolve(s.objs, path);
      h in s.objs && h in s2.objs && Stored(s.objs[h], s.data) && Stored(s2.objs[h], s2.data) &&
      Content(s2.objs[h], s2.data) == [RawAt(s.objs[h], s.data, 0), b]
  {
    hide Next, Inv, CutStep, WriteStep, Resolve, RunsOut, RawAt, Stored;
    ShortenIs(s, path, 0, s1);
    var h := Resolve(s.objs, path);
    CutKeepsInv(s, h, 1, 0, s1);
    CutBytes(s, h, 0, s1);
    WriteCall(s1, h, [b], 1, s2);
    WriteReadsBack(s1, h, [b], 1, s2);
    GapReads(s1, h, [b], 1, s2, 0);
    var content := Content(s2.objs[h], s2.data);
    assert content[0] == RawAt(s.objs[h], s.data, 0);
    assert content[1..2][0] == b;
  }

  lemma WriteCall(s: Fs, h: int, src: seq<Byte>, offset: nat, s': Fs)
    requires Next(s, WriteTo(h, src, offset), s', |src|)
    ensures WriteStep(s, h, src, offset, s') && |src| >= 1 && h in s.objs && h in s'.objs
    ensures !RunsOut(|s.objs[h].entries|, |s.chain|, (offset + |src| - 1) / 512 + 1)
  {
  }
}
