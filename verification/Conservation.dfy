/** Creating a file, writing to it and removing it gives everything back. */
module Conservation {
  import opened Disk
  import opened IndexSpec
  import opened Owners
  import opened Blocks
  import opened StreamWrite
  import opened StreamFree
  import opened Names
  import opened Directory
  import opened Tree
  import opened FileSystem
  import opened Accounting
  import opened Path
  import opened Sfs
  import opened Runs
  import opened Lookups

  ghost function Elements(s: seq<int>): set<int> { set x | x in s }

  ghost function BlocksOf(o: Obj): set<int> { Nums(o.entries, 0, |o.entries|) }

  lemma ExtendedBlocks(o: Obj, o': Obj, chain: seq<int>, chain': seq<int>)
    requires Extended(o, o', chain, chain')
    ensures Elements(chain) + BlocksOf(o) == Elements(chain') + BlocksOf(o')
    ensures |chain| + |o.entries| == |chain'| + |o'.entries|
  {
    var n, t := |o.entries|, |o'.entries| - |o.entries|;
    assert chain == chain[..t] + chain';
    forall x
      ensures x in Elements(chain) + BlocksOf(o) <==> x in Elements(chain') + BlocksOf(o')
    {
      if x in chain[..t] {
        var j :| 0 <= j < t && chain[..t][j] == x;
        assert o'.entries[n + j] == Blk(chain[j]);
      }
      if k :| 0 <= k < |o.entries| && o.entries[k].num == x {
        assert o'.entries[k] == o.entries[k];
      }
      if k :| 0 <= k < |o'.entries| && o'.entries[k].num == x {
        if k >= n {
          assert o'.entries[n + (k - n)] == Blk(chain[k - n]);
        } else {
          assert o'.entries[k] == o.entries[k];
        }
      }
    }
  }

  /** Blocks and inodes only move between the file and the free sets. */
  lemma WriteConserves(s: Fs, h: int, src: seq<Byte>, offset: nat, s': Fs)
    requires Inv(s) && WriteStep(s, h, src, offset, s')
    ensures Inv(s')
    ensures Elements(s'.chain) + BlocksOf(s'.objs[h]) == Elements(s.chain) + BlocksOf(s.objs[h])
    ensures |s'.chain| + |s'.objs[h].entries| == |s.chain| + |s.objs[h].entries|
    ensures s'.free + Pages(s'.objs[h]) == s.free + Pages(s.objs[h])
    ensures s'.objs[h].kind.File?
  {
    WriteKeepsInv(s, h, src, offset, s');
    var o, o' := s.objs[h], s'.objs[h];
    OwnershipMeansApart(s.objs, s.free);
    ExtendedBlocks(o, o', s.chain, s'.chain);
    assert |o.entries| <= |o'.entries|;
    assert Pages(o) !! s.free by { assert InodesOf(h, o) !! s.free; }
    hide Inv, Overlaid, Extended, Elements, BlocksOf, Pages, Resized;
    GrowAccounting(o, o', o'.entries, s.free, s'.free);
  }

  /** Creating the file at a path, any writes to it, complete or not, and removing it. */
  ghost predicate Round(states: seq<Fs>, ops: seq<Op>, results: seq<int>, path: string) {
    && Run(states, ops, results) && Inv(states[0])
    && |ops| >= 2 && ops[0] == Create(path) && results[0] == 0 && ops[|ops| - 1] == Remove(path)
    && forall k {:trigger ops[k]} :: 1 <= k < |ops| - 1 ==>
         WritesTo(ops[k], results[k], path, Resolve(states[1].objs, path))
  }

  /** fstream_write on c, complete or not, or a successful sfs_write on its path. */
  ghost predicate WritesTo(op: Op, r: int, path: string, c: int) {
    (op.WriteTo? && op.inum == c) || (op.Save? && op.path == path && r >= 0)
  }

  lemma RoundIs(states: seq<Fs>, ops: seq<Op>, results: seq<int>, path: string)
    requires Round(states, ops, results, path)
    ensures var n := |ops|;
      && |path| >= 1 && n >= 2 && |states| == n + 1 && |results| == n && Inv(states[0]) && Inv(states[n])
      && Next(states[0], Create(path), states[1], 0) && Next(states[n - 1], Remove(path), states[n], results[n - 1])
  {
    hide Inv;
    assert Next(states[0], ops[0], states[1], results[0]);
    assert Next(states[|ops| - 1], ops[|ops| - 1], states[|ops|], results[|ops| - 1]);
    RunKeepsInv(states, ops, results, |ops|);
  }

  lemma RoundMiddle(states: seq<Fs>, ops: seq<Op>, results: seq<int>, path: string, k: nat)
    requires Round(states, ops, results, path) && 1 <= k < |ops| - 1
    ensures |states| == |ops| + 1 && |results| == |ops| && |path| >= 1
    ensures WritesTo(ops[k], results[k], path, Resolve(states[1].objs, path))
      && Next(states[k], ops[k], states[k + 1], results[k])
  {
  }

  /** What stays during the writes: the path leads to the same file c, and what c owns
      and what is free make up the same blocks and inodes. */
  ghost predicate SameFile(s: Fs, s': Fs, path: string, c: int) {
    && Inv(s') && Proper(s'.objs, path) && Parent(s'.objs, path) == Parent(s.objs, path) && Resolve(s'.objs, path) == c
    && c in s.objs && c in s'.objs && s'.objs[c].kind.File? && s'.objs == s.objs[c := s'.objs[c]]
    && Elements(s'.chain) + BlocksOf(s'.objs[c]) == Elements(s.chain) + BlocksOf(s.objs[c])
    && |s'.chain| + |s'.objs[c].entries| == |s.chain| + |s.objs[c].entries|
    && s'.free + Pages(s'.objs[c]) == s.free + Pages(s.objs[c])
  }

  lemma WritingStep(s: Fs, s1: Fs, s': Fs, path: string, c: int, op: Op, r: int)
    requires SameFile(s, s1, path, c) && Next(s1, op, s', r) && WritesTo(op, r, path, c)
    ensures SameFile(s, s', path, c)
  {
    hide Inv, Next, Elements, BlocksOf, Pages, FileWritten, ThroughDirs, Resolve, Parent;
    FileStepLookup(s1, op, s', r, path);
    IsWrite(s1, op, s', r, path, c);
    WriteConserves(s1, c, op.src, op.offset, s');
  }

  lemma IsWrite(s: Fs, op: Op, s': Fs, r: int, path: string, c: int)
    requires Inv(s) && Next(s, op, s', r) && WritesTo(op, r, path, c) && |path| >= 1 && Resolve(s.objs, path) == c
      && c in s.objs
    ensures WriteStep(s, c, op.src, op.offset, s')
  {
    hide WriteStep, Resolve;
    NotNegative(s, c);
  }

  lemma {:induction false} RoundWrites(states: seq<Fs>, ops: seq<Op>, results: seq<int>, path: string, i: nat)
    requires Round(states, ops, results, path) && 1 <= i < |ops|
    requires SameFile(states[1], states[1], path, Resolve(states[1].objs, path))
    ensures SameFile(states[1], states[i], path, Resolve(states[1].objs, path))
    decreases i
  {
    hide *;
    RoundIs(states, ops, results, path);
    if i > 1 {
      RoundMiddle(states, ops, results, path, i - 1);
      RoundWrites(states, ops, results, path, i - 1);
      WritingStep(states[1], states[i - 1], states[i], path, Resolve(states[1].objs, path), ops[i - 1], results[i - 1]);
    }
  }

  lemma FreedElements(entries: seq<Entry>, chain: seq<int>, chain': seq<int>, data: map<int, seq<Byte>>,
                      data': map<int, seq<Byte>>)
    requires Freed(entries, 0, |entries|, chain, chain', data, data')
    ensures Elements(chain') == Elements(chain) + Nums(entries, 0, |entries|)
    ensures |chain'| == |chain| + |entries|
  {
    var n := |entries|;
    assert chain' == chain'[..n] + chain;
    forall x
      ensures x in chain' <==> x in chain || x in Nums(entries, 0, n)
    {
      if k :| 0 <= k < n && entries[k].num == x {
        assert chain'[n - 1 - k] == x;
      }
      if x in chain'[..n] {
        var j :| 0 <= j < n && chain'[..n][j] == x;
        assert chain'[j] == entries[n - 1 - j].num;
      }
    }
  }

  /** A directory of n entries can take one more and lose it without stranding a page. */
  predicate NoPageStranded(n: nat) {
    n <= 38 || (n - 6) % 8 != 0 || (n - 38) % 512 == 0
  }

  lemma NoPageStrandedIs(n: nat)
    requires n < MaxEntries(Dir)
    ensures NoPageStranded(n) <==>
      LeafCount(Dir, n) == LeafCount(Dir, n + 1) || LeafCount(Dir, n) <= 4 || (LeafCount(Dir, n) - 4) % 64 == 0
    ensures n < 46 ==> NoPageStranded(n)
    ensures n == 46 ==> !NoPageStranded(n)
  {
    var q := (n + 2) / 8;
    if n > 38 && n == 8 * q - 2 {
      assert LeafCount(Dir, n) == q - 1 && LeafCount(Dir, n + 1) == q;
      assert n - 38 == 512 * ((q - 5) / 64) + 8 * ((q - 5) % 64);
    }
  }

  lemma BackToSame(op: Obj, op1: Obj, op2: Obj, e: Entry, f0: set<int>, f1: set<int>, f2: set<int>, f3: set<int>)
    requires Shaped(op) && Resized(op, op1, op.entries + [e], f0, f1) && Resized(op1, op2, op.entries, f2, f3)
    ensures op2.leaves == op.leaves && op2.exts == op.exts
  {
  }

  /** Adding an entry and removing it again: the old list, and of the inodes popped for
      it all but the stranded ones. */
  lemma AppendThenRemove(op: Obj, op1: Obj, op2: Obj, e: Entry, c: int, f0: set<int>, f1: set<int>, f3: set<int>)
    requires Shaped(op) && Unique(op.leaves, op.exts) && Pages(op) !! f0
    requires Resized(op, op1, op.entries + [e], f0, f1) && c !in f0 && c !in Pages(op)
    requires Resized(op1, op2, op.entries, f1 + {c}, f3)
    ensures op2.leaves == op.leaves && op2.exts == op.exts
    ensures Stranded(op1, |op.leaves|) <= f0
    ensures f3 == f0 + {c} - Stranded(op1, |op.leaves|)
  {
    hide Pages, Unique, Released, Stranded, Need, Resized, Taken, ReleasedAll;
    BackToSame(op, op1, op2, e, f0, f1, f1 + {c}, f3);
    ResizedList(op, op1, op.entries + [e], f0, f1);
    ResizedList(op1, op2, op.entries, f1 + {c}, f3);
    GrowAccounting(op, op1, op.entries + [e], f0, f1);
    SamePages(op, op2);
    PagesApart(Pages(op), Taken(op, op1), f0, f1, c);
    ShrinkSplits(op1, op2, op.entries, f1 + {c}, f3);
    RoundTrip(Pages(op), Taken(op, op1), ReleasedAll(op1, |op2.leaves|), Stranded(op1, |op2.leaves|), f0, f1, c);
  }

  lemma PagesApart(pages: set<int>, taken: set<int>, f0: set<int>, f1: set<int>, c: int)
    requires pages !! f0 && c !in f0 && c !in pages && f1 <= f0 && taken == f0 - f1
    ensures pages + taken !! f1 + {c}
  {
  }

  lemma RoundTrip(pages: set<int>, taken: set<int>, back: set<int>, lost: set<int>, f0: set<int>, f1: set<int>, c: int)
    requires pages + taken == pages + back + lost && pages !! back !! lost && pages !! f0
    requires f1 <= f0 && taken == f0 - f1 && c !in f0
    ensures lost <= f0 && f1 + {c} + back == f0 + {c} - lost
  {
  }

  // The whole round.

  /** The state after create, writes and unlink. */
  lemma CreateWriteUnlinkParent(s0: Fs, p: int, name: string, c: int, s1: Fs, sk: Fs, s': Fs)
    requires Inv(s0) && CreateStep(s0, File, p, name, c, s1) && c !in s0.objs && Inv(s1)
    requires !HasName(s0.objs[p].entries, name) && GoodName(name)
    requires c in sk.objs && sk.objs == s1.objs[c := sk.objs[c]] && sk.free + Pages(sk.objs[c]) == s1.free
    requires UnlinkStep(sk, p, name, c, s')
    ensures var op := s0.objs[p];
      && s'.objs.Keys == s0.objs.Keys && s'.objs[p].entries == op.entries
      && s'.objs[p].leaves == op.leaves && s'.objs[p].exts == op.exts
      && s'.objs == s0.objs[p := s'.objs[p]]
      && Stranded(s1.objs[p], |op.leaves|) <= s0.free
      && s'.free == s0.free - Stranded(s1.objs[p], |op.leaves|)
  {
    hide Inv, Freed, Resized, Unique, FirstNamed, Pages;
    var op, op1, op2 := s0.objs[p], s1.objs[p], s'.objs[p];
    SameParentList(s0, p, name, c, s1);
    ParentApart(s0, p);
    assert sk.free + InodesOf(c, sk.objs[c]) == s1.free + {c};
    ResizedList(op1, op2, op.entries, s1.free + {c}, s'.free);
    AppendThenRemove(op, op1, op2, Ent(name, c), c, s0.free - {c}, s1.free, s'.free);
  }

  /** The entry that create appends is the one unlink finds. */
  lemma SameParentList(s0: Fs, p: int, name: string, c: int, s1: Fs)
    requires Inv(s0) && CreateStep(s0, File, p, name, c, s1)
    requires !HasName(s0.objs[p].entries, name) && GoodName(name)
    ensures var op, op1 := s0.objs[p], s1.objs[p];
      && Take(op.entries + [Ent(name, c)], MaxEntries(Dir)) == op.entries + [Ent(name, c)]
      && op1.entries == op.entries + [Ent(name, c)]
      && FirstNamed(op1.entries, name) == |op.entries|
      && RemoveAt(op1.entries, |op.entries|) == op.entries
  {
    DirBound(s0, p);
    hide Ownership, BlocksOwned, Covered;
    var op, op1 := s0.objs[p], s1.objs[p];
    assert Take(op.entries + [Ent(name, c)], MaxEntries(Dir)) == op.entries + [Ent(name, c)];
    assert DirOk(s0.objs, p, op);
    AppendNames(op.entries, Ent(name, c));
    FirstNamedIs(op1.entries, name, |op.entries|);
    assert RemoveAt(op1.entries, |op.entries|) == op.entries;
  }

  lemma ParentApart(s: Fs, p: int)
    requires Inv(s) && p in s.objs
    ensures Shaped(s.objs[p]) && Unique(s.objs[p].leaves, s.objs[p].exts)
    ensures Pages(s.objs[p]) !! s.free && p !in s.free
    ensures forall c :: c in s.free ==> c !in Pages(s.objs[p])
  {
  }

  /** The blocks and the rest of the free inodes. */
  lemma UnlinkReturnsBlocks(s: Fs, p: int, name: string, c: int, s': Fs)
    requires UnlinkStep(s, p, name, c, s')
    ensures Elements(s'.chain) == Elements(s.chain) + BlocksOf(s.objs[c])
    ensures |s'.chain| == |s.chain| + |s.objs[c].entries|
  {
    hide Removed;
    FreedElements(s.objs[c].entries, s.chain, s'.chain, s.data, s'.data);
  }

  /** Create and remove of c named `name` in p, with only writes to c between them. */
  lemma CreateUnlink(s: Fs, p: int, name: string, c: int, s1: Fs, sk: Fs, s': Fs, path: string)
    requires Inv(s) && CreateStep(s, File, p, name, c, s1) && !HasName(s.objs[p].entries, name) && GoodName(name)
    requires SameFile(s1, sk, path, c) && UnlinkStep(sk, p, name, c, s')
    ensures s'.objs.Keys == s.objs.Keys && s'.objs == s.objs[p := s'.objs[p]]
    ensures s'.objs[p].entries == s.objs[p].entries && s'.objs[p].leaves == s.objs[p].leaves
      && s'.objs[p].exts == s.objs[p].exts
    ensures Elements(s'.chain) == Elements(s.chain) && |s'.chain| == |s.chain|
    ensures s'.free <= s.free && (s'.free == s.free <==> NoPageStranded(|s.objs[p].entries|))
  {
    hide Inv, UnlinkStep, Elements, Pages, Stranded, HasName, Resized, Unique, LeafCount, ExtCount, NoPageStranded;
    hide Resolve, Parent, Proper;
    ParentApart(s, p);
    DirBound(s, p);
    CreateKeepsInv(s, File, p, name, c, s1);
    assert NewObj(File, c, p).entries == [];
    EmptyObj(s1.objs[c]);
    CreateWriteUnlinkParent(s, p, name, c, s1, sk, s');
    UnlinkReturnsBlocks(sk, p, name, c, s');
    NoPageStrandedIs(|s.objs[p].entries|);
    SameParentList(s, p, name, c, s1);
    ParentStrands(s.objs[p], s1.objs[p], Ent(name, c), s.free - {c}, s1.free);
  }

  /** The metadata of the parent is back as well. */
  lemma SameParent(s: Fs, p: int, name: string, c: int, s1: Fs, sk: Fs, s': Fs)
    requires Inv(s) && Inv(s') && CreateStep(s, File, p, name, c, s1) && UnlinkStep(sk, p, name, c, s')
    requires p in sk.objs && sk.objs[p] == s1.objs[p] && s'.objs == s.objs[p := s'.objs[p]]
    requires s'.objs[p].entries == s.objs[p].entries && s'.objs[p].leaves == s.objs[p].leaves
      && s'.objs[p].exts == s.objs[p].exts
    ensures s'.objs == s.objs
  {
    hide Ownership, BlocksOwned, Covered, TreeOk, Freed, FirstNamed;
    assert Metered(s.objs[p]) && Metered(s'.objs[p]);
    assert s'.objs[p] == s.objs[p];
  }

  /** Create, any writes and remove: all objects, the set of free blocks and their number
      are as before, and so is the set of free inodes exactly when the parent directory
      did not strand a page on the way. */
  lemma CreateWriteRemove(states: seq<Fs>, ops: seq<Op>, results: seq<int>, path: string)
    requires Round(states, ops, results, path)
    ensures var s, s' := states[0], states[|ops|];
      && results[|ops| - 1] == 0 && s'.objs == s.objs
      && Elements(s'.chain) == Elements(s.chain) && |s'.chain| == |s.chain|
      && s'.free <= s.free
      && Parent(s.objs, path) in s.objs
      && (s'.free == s.free <==> NoPageStranded(|s.objs[Parent(s.objs, path)].entries|))
  {
    hide *;
    RoundIs(states, ops, results, path);
    var n := |ops|;
    var s, s1, sk, s' := states[0], states[1], states[n - 1], states[n];
    RoundStarts(s, path, s1);
    var p, name, c := Parent(s.objs, path), Basename(path), Resolve(s1.objs, path);
    RoundWrites(states, ops, results, path, n - 1);
    RoundEnds(s1, sk, path, c, s', results[n - 1]);
    CreateUnlink(s, p, name, c, s1, sk, s', path);
    SameParent(s, p, name, c, s1, sk, s');
  }

  lemma CreateCall(s: Fs, path: string, s1: Fs)
    requires Next(s, Create(path), s1, 0)
    ensures |path| >= 1 && CanCreate(s, path) && CreateNext(s, File, path, s1, 0) && Resolve(s.objs, path) <= 0
    ensures Proper(s.objs, path)
  {
  }

  lemma NewFile(s: Fs, p: int, name: string, c: int, s1: Fs)
    requires CreateStep(s, File, p, name, c, s1) && c !in s.objs
    ensures p in s.objs && p != c && c in s1.objs && s1.objs[c] == NewObj(File, c, p) && s1.objs[c].kind.File?
  {
  }

  lemma WritingStarts(s: Fs, path: string, c: int)
    requires Inv(s) && |path| >= 1 && Proper(s.objs, path) && Resolve(s.objs, path) == c && c in s.objs
      && s.objs[c].kind.File?
    ensures SameFile(s, s, path, c)
  {
  }

  lemma RoundStarts(s: Fs, path: string, s1: Fs)
    requires Inv(s) && Next(s, Create(path), s1, 0)
    ensures |path| >= 1
    ensures var p, c := Parent(s.objs, path), Resolve(s1.objs, path);
      && CreateStep(s, File, p, Basename(path), c, s1) && SameFile(s1, s1, path, c)
      && p in s.objs && !HasName(s.objs[p].entries, Basename(path)) && GoodName(Basename(path))
      && Parent(s1.objs, path) == p && p != c
  {
    hide *;
    CreateCall(s, path, s1);
    AbsentName(s, path);
    CreateThenLookup(s, File, path, s1);
    var p, c := Parent(s.objs, path), Resolve(s1.objs, path);
    CreateKeepsInv(s, File, p, Basename(path), c, s1);
    NewFile(s, p, Basename(path), c, s1);
    WritingStarts(s1, path, c);
  }

  lemma RoundEnds(s1: Fs, sk: Fs, path: string, c: int, s': Fs, r: int)
    requires |path| >= 1 && SameFile(s1, sk, path, c) && Next(sk, Remove(path), s', r)
    ensures r == 0 && UnlinkStep(sk, Parent(s1.objs, path), Basename(path), c, s')
    ensures Parent(s1.objs, path) != c && IsDir(sk.objs, Parent(s1.objs, path))
    ensures Parent(s1.objs, path) in s1.objs && Parent(s1.objs, path) in sk.objs
      && sk.objs[Parent(s1.objs, path)] == s1.objs[Parent(s1.objs, path)]
  {
    hide UnlinkStep, Elements, BlocksOf, Basename, ThroughDirs;
    NotNegative(sk, c);
  }

  lemma NotNegative(s: Fs, h: int)
    requires Inv(s) && h in s.objs
    ensures h >= ROOT
  {
  }

  lemma EmptyObj(o: Obj)
    requires o.entries == [] && o.leaves == [] && o.exts == []
    ensures BlocksOf(o) == {} && Pages(o) == {}
  {
  }

  lemma ParentStrands(op: Obj, op1: Obj, e: Entry, f0: set<int>, f1: set<int>)
    requires op.kind.Dir? && Resized(op, op1, op.entries + [e], f0, f1) && |op.leaves| == LeafCount(Dir, |op.entries|)
    ensures Stranded(op1, |op.leaves|) == {} <==>
      LeafCount(Dir, |op.entries|) == LeafCount(Dir, |op.entries| + 1) || |op.leaves| <= 4
          || (|op.leaves| - 4) % 64 == 0
  {
    NeedMonotonic(Dir, |op.entries|, |op.entries| + 1);
    NothingStranded(op1, |op.leaves|);
  }
}
