/** The file system as a whole: its state, the steps the operations take, and
    the invariant every step keeps. */
module FileSystem {
  import opened Disk
  import opened IndexSpec
  import opened Owners
  import opened Attributes
  import opened Blocks
  import opened Bitmap
  import opened StreamWrite
  import opened StreamFree
  import opened Names
  import opened Directory
  import opened Path
  import opened Tree
  import opened Accounting

  datatype Fs = Fs(objs: map<int, Obj>, free: set<int>, chain: seq<int>, data: map<int, seq<Byte>>)

  /** Every block behind the bitmap is either free or holds data, none is both or twice free. */
  ghost predicate Covered(chain: seq<int>, data: map<int, seq<Byte>>) {
    && (forall b {:trigger b in chain} {:trigger b in data} :: INODE_BLK_SIZE < b < MAX_BLOCK_NUM <==>
        b in chain || b in data)
    && (forall b {:trigger data[b]} :: b in data ==> |data[b]| == 512 && b !in chain)
    && Distinct(chain)
  }

  /** The link count of a directory counts its entries, that of a file is 1; no file is too large. */
  predicate Metered(o: Obj) {
    if o.kind.Dir? then o.nlink == |o.entries| && o.fsize == 0 else o.nlink == 1 && 0 <= o.fsize <= FCONTENT_MAX_SIZE
  }

  ghost predicate AllShaped(objs: map<int, Obj>) {
    forall h {:trigger objs[h]} {:trigger h in objs} :: h in objs ==>
      ROOT <= h < BITMAP_NODES && Shaped(objs[h]) && Metered(objs[h])
  }

  /** What holds between any two operations. */
  ghost predicate Inv(s: Fs) {
    && AllShaped(s.objs)
    && Ownership(s.objs, s.free)
    && BlocksOwned(s.objs, s.data)
    && Covered(s.chain, s.data)
    && TreeOk(s.objs)
  }

  // Writing.

  lemma WriteCovers(o: Obj, o': Obj, chain: seq<int>, chain': seq<int>, data: map<int, seq<Byte>>,
                    data': map<int, seq<Byte>>)
    requires Covered(chain, data) && Extended(o, o', chain, chain')
    requires data'.Keys == data.Keys + Firsts(chain, |o'.entries| - |o.entries|)
    requires forall b :: b in data' ==> |data'[b]| == 512
    ensures Covered(chain', data')
  {
    ChainParts(chain, |o'.entries| - |o.entries|);
  }

  lemma ChainParts(chain: seq<int>, t: nat)
    requires t <= |chain| && Distinct(chain)
    ensures forall b :: b in chain <==> b in chain[..t] || b in chain[t..]
    ensures forall b :: b in chain[..t] ==> b !in chain[t..]
    ensures Distinct(chain[t..])
  {
  }

  lemma DataSizes(o: Obj, o': Obj, chain: seq<int>, chain': seq<int>, data: map<int, seq<Byte>>,
                  data': map<int, seq<Byte>>,
                  src: seq<Byte>, offset: nat)
    requires |src| >= 1 && WriteDone(o, o', data, data', chain, chain', src, offset)
    requires forall b :: b in data ==> |data[b]| == 512
    ensures forall b :: b in data' ==> |data'[b]| == 512
  {
  }

  /** The step of fstream_write on file h. */
  ghost predicate WriteStep(s: Fs, h: int, src: seq<Byte>, offset: nat, s': Fs) {
    && h in s.objs && s.objs[h].kind.File? && |src| >= 1 && offset / 512 <= |s.objs[h].entries|
    && h in s'.objs && s'.objs == s.objs[h := s'.objs[h]]
    && FileWritten(s.objs[h], s'.objs[h], s.free, s'.free, s.chain, s'.chain, s.data, s'.data, src, offset)
  }

  lemma WriteKeepsBlocks(s: Fs, h: int, src: seq<Byte>, offset: nat, s': Fs)
    requires Inv(s) && WriteStep(s, h, src, offset, s')
    ensures BlocksOwned(s'.objs, s'.data) && Covered(s'.chain, s'.data)
  {
    hide Ownership, TreeOk, Resized, Overlaid, Homed;
    var o, o' := s.objs[h], s'.objs[h];
    var homes: map<int, Home> :| Homed(s.objs, s.data, homes);
    var w := Job(h, o, homes, s.data, s.chain, 0, []);
    HousedIn(s.objs, s.data, homes, h);
    HomeKeys(s.objs, s.data, homes);
    DataSizes(o, o', s.chain, s'.chain, s.data, s'.data, src, offset);
    WroteHomed(w, s.objs, s'.data, o', s'.chain);
    WriteCovers(o, o', s.chain, s'.chain, s.data, s'.data);
  }

  lemma HomeKeys(objs: map<int, Obj>, data: map<int, seq<Byte>>, homes: map<int, Home>)
    requires Homed(objs, data, homes)
    ensures homes.Keys == data.Keys
  {
  }

  lemma WriteKeepsInv(s: Fs, h: int, src: seq<Byte>, offset: nat, s': Fs)
    requires Inv(s) && WriteStep(s, h, src, offset, s')
    ensures Inv(s')
  {
    hide BlocksOwned, Covered, WriteDone, TreeOk, Ownership, Resized, Shaped;
    WriteKeepsBlocks(s, h, src, offset, s');
    var o, o' := s.objs[h], s'.objs[h];
    ResizedList(o, o', o'.entries, s.free, s'.free);
    ResizeKeepsOwnership(s.objs, s.free, h, o', o'.entries, s'.free);
    SameTreeKeeps(s.objs, s'.objs);
  }

  // Giving blocks back.

  lemma FreedNums(h: int, o: Obj, homes: map<int, Home>, lo: nat, chain: seq<int>, chain': seq<int>,
                  data: map<int, seq<Byte>>, data': map<int, seq<Byte>>)
    requires lo <= |o.entries| && Freed(o.entries, lo, |o.entries|, chain, chain', data, data')
      && Housed(h, o, data, homes)
    requires forall b :: b in data ==> b !in chain
    requires Distinct(chain)
    ensures Distinct(chain')
    ensures forall b :: b in chain' <==> b in chain || b in Nums(o.entries, lo, |o.entries|)
  {
    var t := |o.entries| - lo;
    assert chain' == chain'[..t] + chain;
    forall j, k | 0 <= j < k < |chain'|
      ensures chain'[j] != chain'[k]
    {
      if k < t {
        assert homes[chain'[j]] == Home(h, |o.entries| - 1 - j) && homes[chain'[k]] == Home(h, |o.entries| - 1 - k);
      } else {
        assert chain'[k] == chain[k - t];
        if j < t {
          assert chain'[j] in data;
        } else {
          assert chain'[j] == chain[j - t];
        }
      }
    }
    forall b
      ensures b in chain' <==> b in chain || b in Nums(o.entries, lo, |o.entries|)
    {
      if k :| lo <= k < |o.entries| && o.entries[k].num == b {
        assert chain'[|o.entries| - 1 - k] == b;
      }
      if b in chain'[..t] {
        var j :| 0 <= j < t && chain'[..t][j] == b;
        assert chain'[j] == o.entries[|o.entries| - 1 - j].num;
      }
    }
  }

  lemma FreedCovers(h: int, o: Obj, homes: map<int, Home>, lo: nat, chain: seq<int>, chain': seq<int>,
                    data: map<int, seq<Byte>>, data': map<int, seq<Byte>>)
    requires lo <= |o.entries| && Freed(o.entries, lo, |o.entries|, chain, chain', data, data')
      && Housed(h, o, data, homes)
    requires Covered(chain, data)
    ensures Covered(chain', data')
  {
    FreedNums(h, o, homes, lo, chain, chain', data, data');
    forall b | b in Nums(o.entries, lo, |o.entries|)
      ensures b in data
    {
      var k :| lo <= k < |o.entries| && o.entries[k].num == b;
      assert o.entries[k].num in data;
    }
  }

  /** The step of a truncation of file h that leaves n blocks. */
  ghost predicate CutStep(s: Fs, h: int, n: nat, fsize: int, s': Fs) {
    && h in s.objs && s.objs[h].kind.File? && n <= |s.objs[h].entries|
    && h in s'.objs && s'.objs == s.objs[h := s'.objs[h]]
    && SameMeta(s.objs[h].(fsize := fsize), s'.objs[h])
    && Resized(s.objs[h], s'.objs[h], s.objs[h].entries[..n], s.free, s'.free)
    && Freed(s.objs[h].entries, n, |s.objs[h].entries|, s.chain, s'.chain, s.data, s'.data)
  }

  lemma CutKeepsInv(s: Fs, h: int, n: nat, fsize: int, s': Fs)
    requires Inv(s) && CutStep(s, h, n, fsize, s') && 0 <= fsize <= FCONTENT_MAX_SIZE
    ensures Inv(s')
  {
    hide Covered, TreeOk, Ownership, Homed, Freed;
    var o, o' := s.objs[h], s'.objs[h];
    var homes: map<int, Home> :| Homed(s.objs, s.data, homes);
    HousedIn(s.objs, s.data, homes, h);
    FreedHomed(s.objs, h, homes, n, s.chain, s'.chain, s.data, s'.data, o');
    FreedCovers(h, o, homes, n, s.chain, s'.chain, s.data, s'.data);
    ResizeKeepsOwnership(s.objs, s.free, h, o', o.entries[..n], s'.free);
    SameTreeKeeps(s.objs, s'.objs);
  }

  /** The step of unlink on the file h named `name` in directory p. */
  ghost predicate UnlinkStep(s: Fs, p: int, name: string, h: int, s': Fs) {
    && h in s.objs && s.objs[h].kind.File? && IsDir(s.objs, p) && p in s'.objs
    && HasName(s.objs[p].entries, name)
    && s'.objs == (s.objs - {h})[p := s'.objs[p]]
    && Freed(s.objs[h].entries, 0, |s.objs[h].entries|, s.chain, s'.chain, s.data, s'.data)
    && Removed(s.objs[p], s'.objs[p], FirstNamed(s.objs[p].entries, name), s.free + InodesOf(h, s.objs[h]), s'.free)
  }

  lemma UnlinkKeepsOwnership(s: Fs, p: int, name: string, h: int, s': Fs)
    requires Ownership(s.objs, s.free) && AllShaped(s.objs) && UnlinkStep(s, p, name, h, s') && h != ROOT
    ensures Ownership(s'.objs, s'.free)
  {
    hide Ownership, Resized, Freed;
    DropObject(s.objs, s.free, h);
    ResizeKeepsOwnership(s.objs - {h}, s.free + InodesOf(h, s.objs[h]), p, s'.objs[p],
                         RemoveAt(s.objs[p].entries, FirstNamed(s.objs[p].entries, name)), s'.free);
  }

  lemma UnlinkKeepsBlocks(s: Fs, p: int, name: string, h: int, s': Fs)
    requires BlocksOwned(s.objs, s.data) && Covered(s.chain, s.data) && UnlinkStep(s, p, name, h, s')
    ensures BlocksOwned(s'.objs, s'.data) && Covered(s'.chain, s'.data)
  {
    hide Covered, Homed, Freed, Resized;
    var o := s.objs[h];
    var empty := o.(entries := o.entries[..0]);
    var homes: map<int, Home> :| Homed(s.objs, s.data, homes);
    HousedIn(s.objs, s.data, homes, h);
    FreedHomed(s.objs, h, homes, 0, s.chain, s'.chain, s.data, s'.data, empty);
    FreedCovers(h, o, homes, 0, s.chain, s'.chain, s.data, s'.data);
    BlocksOwnedByList(s.objs[h := empty], s'.objs, s'.data);
  }

  lemma UnlinkKeepsShapes(s: Fs, p: int, name: string, h: int, s': Fs)
    requires AllShaped(s.objs) && UnlinkStep(s, p, name, h, s')
    ensures AllShaped(s'.objs)
  {
    hide Freed;
    var i := FirstNamed(s.objs[p].entries, name);
    ResizedList(s.objs[p], s'.objs[p], RemoveAt(s.objs[p].entries, i), s.free + InodesOf(h, s.objs[h]), s'.free);
    hide Shaped, Resized;
    assert Metered(s'.objs[p]);
  }

  lemma UnlinkKeepsNames(s: Fs, p: int, name: string, h: int, s': Fs)
    requires TreeOk(s.objs) && UnlinkStep(s, p, name, h, s') && Component(s.objs, p, name) == h && name != "."
      && h >= ROOT && p >= ROOT
    ensures TreeOk(s'.objs) && h != ROOT
  {
    hide TreeOk, Freed, Component;
    FileEntry(s.objs, p, name, h);
    var i := FirstNamed(s.objs[p].entries, name);
    ResizedList(s.objs[p], s'.objs[p], RemoveAt(s.objs[p].entries, i), s.free + InodesOf(h, s.objs[h]), s'.free);
    hide Resized, Shaped, RemoveAt;
    UnlinkKeepsTree(s.objs, s'.objs, p, i, h);
  }

  lemma UnlinkRange(s: Fs, p: int, name: string, h: int, s': Fs)
    requires AllShaped(s.objs) && UnlinkStep(s, p, name, h, s')
    ensures h >= ROOT && p >= ROOT
  {
    hide Freed, Removed;
  }

  lemma UnlinkKeepsInv(s: Fs, p: int, name: string, h: int, s': Fs)
    requires Inv(s) && UnlinkStep(s, p, name, h, s') && Component(s.objs, p, name) == h && name != "."
    ensures Inv(s')
  {
    hide Covered, BlocksOwned, Ownership, TreeOk, AllShaped, UnlinkStep, Component;
    UnlinkRange(s, p, name, h, s');
    UnlinkKeepsNames(s, p, name, h, s');
    UnlinkKeepsOwnership(s, p, name, h, s');
    UnlinkKeepsBlocks(s, p, name, h, s');
    UnlinkKeepsShapes(s, p, name, h, s');
  }

  // Creating.

  /** The step of create or mkdir in directory p. */
  ghost predicate CreateStep(s: Fs, kind: Kind, p: int, name: string, c: int, s': Fs) {
    && IsLeast(c, s.free) && IsDir(s.objs, p) && p in s'.objs
    && s'.objs == s.objs[c := NewObj(kind, c, p)][p := s'.objs[p]]
    && Appended(s.objs[p], s'.objs[p], Ent(name, c), s.free - {c}, s'.free)
    && s'.chain == s.chain && s'.data == s.data
  }

  lemma {:induction false} NodesSize(n: nat)
    requires n <= BITMAP_NODES
    ensures |NodesFrom(n)| == BITMAP_NODES - n
    decreases BITMAP_NODES - n
  {
    if n < BITMAP_NODES {
      NodesSize(n + 1);
    }
  }

  lemma SubsetSize(a: set<int>, b: set<int>)
    requires a <= b
    ensures |a| <= |b|
  {
    DisjointSize(a, b - a);
    assert a + (b - a) == b;
  }

  /** A directory never gets near the entries its index could hold: every entry but the
      dot entries has an inode of its own, and there are 1021 of them. */
  lemma DirBound(s: Fs, p: int)
    requires Inv(s) && IsDir(s.objs, p)
    ensures |s.objs[p].entries| < BITMAP_NODES < MaxEntries(Dir)
  {
    hide Ownership, BlocksOwned, Covered, NamesOk;
    var e := s.objs[p].entries;
    assert DirOk(s.objs, p, s.objs[p]);
    var nums := seq(|e| - 2, i requires 0 <= i < |e| - 2 => e[i + 2].num);
    forall i | 0 <= i < |nums|
      ensures ROOT < nums[i] < BITMAP_NODES
    {
      assert ChildOk(s.objs, p, e[i + 2].num);
    }
    SetOfSlice(nums, 0, |nums|);
    NodesSize(ROOT + 1);
    SubsetSize(set k | 0 <= k < |nums| :: nums[k], NodesFrom(ROOT + 1));
  }

  lemma NewShaped(kind: Kind, c: int, p: int)
    ensures Shaped(NewObj(kind, c, p)) && Metered(NewObj(kind, c, p))
  {
  }

  lemma GrownMetered(o: Obj, o': Obj)
    requires Metered(o) && o.kind.Dir? && o'.kind.Dir? && |o.entries| < BITMAP_NODES && o'.fsize == o.fsize
    requires |o'.entries| == |o.entries| + 1 && o'.nlink == LinksPlus(o.nlink, 1)
    ensures Metered(o')
  {
  }

  /** The step of create without the details of the resize. */
  lemma CreateList(s: Fs, kind: Kind, p: int, name: string, c: int, s': Fs)
    requires CreateStep(s, kind, p, name, c, s') && |s.objs[p].entries| < BITMAP_NODES
    ensures s'.objs[p].entries == s.objs[p].entries + [Ent(name, c)] && Shaped(s'.objs[p]) && s'.objs[p].kind.Dir?
    ensures s'.objs[p].pno == s.objs[p].pno && s'.objs[p].nlink == LinksPlus(s.objs[p].nlink, 1)
    ensures s'.objs[p].fsize == s.objs[p].fsize
    ensures Resized(s.objs[p], s'.objs[p], s.objs[p].entries + [Ent(name, c)], s.free - {c}, s'.free)
  {
    var entries := s.objs[p].entries + [Ent(name, c)];
    assert Take(entries, MaxEntries(Dir)) == entries;
  }

  lemma CreateKeepsOwnership(s: Fs, kind: Kind, p: int, name: string, c: int, s': Fs)
    requires Ownership(s.objs, s.free) && AllShaped(s.objs) && CreateStep(s, kind, p, name, c, s')
    requires |s.objs[p].entries| < BITMAP_NODES
    ensures Ownership(s'.objs, s'.free) && c !in s.objs && IsPageNum(c)
  {
    CreateList(s, kind, p, name, c, s');
    hide Ownership, Appended, Resized, LeafCount, ExtCount;
    AddHead(s.objs, s.free, c, NewObj(kind, c, p));
    LeastPage(s.objs, s.free, c);
    ResizeKeepsOwnership(s.objs[c := NewObj(kind, c, p)], s.free - {c}, p, s'.objs[p],
        s.objs[p].entries + [Ent(name, c)], s'.free);
  }

  lemma CreateKeepsShapes(s: Fs, kind: Kind, p: int, name: string, c: int, s': Fs)
    requires AllShaped(s.objs) && CreateStep(s, kind, p, name, c, s') && |s.objs[p].entries| < BITMAP_NODES
      && IsPageNum(c)
    ensures AllShaped(s'.objs)
  {
    CreateList(s, kind, p, name, c, s');
    NewShaped(kind, c, p);
    hide Appended, Shaped, Resized;
    if p != c {
      GrownMetered(s.objs[p], s'.objs[p]);
    }
  }

  lemma CreateKeepsNames(s: Fs, kind: Kind, p: int, name: string, c: int, s': Fs)
    requires TreeOk(s.objs) && CreateStep(s, kind, p, name, c, s') && |s.objs[p].entries| < BITMAP_NODES
    requires !HasName(s.objs[p].entries, name) && GoodName(name) && IsPageNum(c) && c !in s.objs
    ensures TreeOk(s'.objs)
  {
    CreateList(s, kind, p, name, c, s');
    hide TreeOk, Appended, Resized, Shaped, HasName, NewObj;
    CreateKeepsTree(s.objs, s'.objs, kind, p, name, c);
  }

  lemma CreateKeepsBlocks(s: Fs, kind: Kind, p: int, name: string, c: int, s': Fs)
    requires BlocksOwned(s.objs, s.data) && CreateStep(s, kind, p, name, c, s') && |s.objs[p].entries| < BITMAP_NODES
    requires c !in s.objs
    ensures BlocksOwned(s'.objs, s'.data)
  {
    CreateList(s, kind, p, name, c, s');
    hide BlocksOwned, Appended, Resized, Shaped;
    BlocksOwnedByList(s.objs, s'.objs, s.data);
  }

  lemma CreateKeepsInv(s: Fs, kind: Kind, p: int, name: string, c: int, s': Fs)
    requires Inv(s) && CreateStep(s, kind, p, name, c, s')
    requires !HasName(s.objs[p].entries, name) && GoodName(name)
    ensures Inv(s') && c !in s.objs && s'.objs[p].entries == s.objs[p].entries + [Ent(name, c)]
  {
    hide Covered, BlocksOwned, Ownership, TreeOk, AllShaped, Appended, HasName;
    DirBound(s, p);
    CreateKeepsOwnership(s, kind, p, name, c, s');
    CreateKeepsShapes(s, kind, p, name, c, s');
    CreateKeepsNames(s, kind, p, name, c, s');
    CreateKeepsBlocks(s, kind, p, name, c, s');
    CreateList(s, kind, p, name, c, s');
  }

  lemma LeastPage(objs: map<int, Obj>, free: set<int>, c: int)
    requires Ownership(objs, free) && c in free
    ensures IsPageNum(c)
  {
  }
}
