/** Giving the last blocks of a file back (stream.c:67-74). */
module StreamFree {
  import opened Disk
  import opened IndexSpec
  import opened IndexRead
  import opened IndexWrite
  import opened FreeBlock
  import opened Owners
  import opened Attributes
  import opened Blocks
  import opened StreamWrite

  ghost function Nums(entries: seq<Entry>, lo: int, hi: int): set<int>
    requires 0 <= lo <= hi <= |entries|
  {
    set k | lo <= k < hi :: entries[k].num
  }

  /** Blocks lo up to i of the list have gone to the free chain, the last one on top. */
  ghost predicate Freed(entries: seq<Entry>, lo: int, i: int, chain: seq<int>, chain': seq<int>,
                        data: map<int, seq<Byte>>, data': map<int, seq<Byte>>)
    requires 0 <= lo <= i <= |entries|
  {
    && |chain'| == |chain| + (i - lo)
    && chain'[i - lo..] == chain
    && (forall j {:trigger chain'[j]} :: 0 <= j < i - lo ==> chain'[j] == entries[i - 1 - j].num)
    && data' == data - Nums(entries, lo, i)
  }

  lemma FreedNone(entries: seq<Entry>, lo: nat, chain: seq<int>, data: map<int, seq<Byte>>)
    requires lo <= |entries|
    ensures Freed(entries, lo, lo, chain, chain, data, data)
  {
  }

  lemma FreeNext(h: int, o: Obj, homes: map<int, Home>, lo: nat, i: nat, chain: seq<int>, chain': seq<int>,
                 data: map<int, seq<Byte>>, data': map<int, seq<Byte>>)
    requires lo <= i < |o.entries| && Freed(o.entries, lo, i, chain, chain', data, data') && Housed(h, o, data, homes)
    ensures o.entries[i].num in data'
    ensures Freed(o.entries, lo, i + 1, chain, [o.entries[i].num] + chain', data, data' - {o.entries[i].num})
  {
  }

  ghost predicate Freeing(m: Machine, h: int, lo: int, i: int, chain: seq<int>, data: map<int, seq<Byte>>,
                          homes: map<int, Home>)
    requires h in m.objs && 0 <= lo <= i <= |m.objs[h].entries|
    reads m
  {
    Indexed(m) && Housed(h, m.objs[h], data, homes) && Freed(m.objs[h].entries, lo, i, chain, m.chain, data, m.data)
  }

  method FreeOne(m: Machine, h: int, b: int, ghost lo: nat, ghost i: nat, ghost chain: seq<int>,
                 ghost data: map<int, seq<Byte>>,
                 ghost homes: map<int, Home>)
    requires h in m.objs && lo <= i < |m.objs[h].entries| && b == m.objs[h].entries[i].num
    requires Freeing(m, h, lo, i, chain, data, homes)
    modifies m`blocks, m`blockBuf, m`super, m`nodes, m`chain, m`data
    ensures Freeing(m, h, lo, i + 1, chain, data, homes)
  {
    hide DiskOk, Rep, Ownership, Freed, Housed;
    ghost var nodes := m.nodes;
    DataNums(m, b);
    FreeNext(h, m.objs[h], homes, lo, i, chain, m.chain, data, m.data);
    var _ := Push(m, b);
    assert Rep(m.nodes, m.objs) by {
      NodesLength(m);
      SuperKeepsRep(nodes, m.nodes, m.objs);
    }
  }

  method FreeBlocks(m: Machine, h: int, lo: nat, hi: nat, ghost homes: map<int, Home>)
    requires h in m.objs && lo <= hi == |m.objs[h].entries| <= m.f.Length && m.f[..hi] == m.objs[h].entries
    requires Freeing(m, h, lo, lo, m.chain, m.data, homes)
    modifies m`blocks, m`blockBuf, m`super, m`nodes, m`chain, m`data
    ensures Freeing(m, h, lo, hi, old(m.chain), old(m.data), homes)
  {
    hide Freeing;
    for i := lo to hi
      invariant Freeing(m, h, lo, i, old(m.chain), old(m.data), homes)
      invariant m.f[..hi] == m.objs[h].entries
    {
      assert m.f[i] == m.f[..hi][i];
      FreeOne(m, h, m.f[i].num, lo, i, old(m.chain), old(m.data), homes);
    }
  }

  /** The remaining blocks keep their homes. */
  lemma FreedHomed(objs: map<int, Obj>, h: int, homes: map<int, Home>, lo: nat, chain: seq<int>, chain': seq<int>,
                   data: map<int, seq<Byte>>, data': map<int, seq<Byte>>, o': Obj)
    requires Homed(objs, data, homes) && h in objs && objs[h].kind.File? && lo <= |objs[h].entries|
    requires Freed(objs[h].entries, lo, |objs[h].entries|, chain, chain', data, data')
    requires o'.kind.File? && o'.entries == objs[h].entries[..lo]
    ensures BlocksOwned(objs[h := o'], data')
  {
    var gone := Nums(objs[h].entries, lo, |objs[h].entries|);
    var homes' := homes - gone;
    assert Housed(h, objs[h], data, homes);
    assert Housed(h, o', data', homes') by {
      forall i | 0 <= i < lo
        ensures o'.entries[i].num !in gone
      {
        assert homes[objs[h].entries[i].num] == Home(h, i);
      }
    }
    forall g | g in objs && g != h && objs[g].kind.File?
      ensures Housed(g, objs[g], data', homes')
    {
      assert Housed(g, objs[g], data, homes);
    }
    forall b | b in homes'
      ensures HomeOk(objs[h := o'], b, homes'[b])
    {
      assert HomeOk(objs, b, homes[b]);
    }
    assert Homed(objs[h := o'], data', homes');
  }

  /** What fstream_free does: the list is cut at n, the blocks behind it are free. */
  ghost predicate FileCut(o: Obj, o': Obj, n: int, free: set<int>, free': set<int>, chain: seq<int>, chain': seq<int>,
                          data: map<int, seq<Byte>>, data': map<int, seq<Byte>>)
    requires 0 <= n <= |o.entries|
  {
    && SameMeta(o, o')
    && Resized(o, o', o.entries[..n], free, free')
    && Freed(o.entries, n, |o.entries|, chain, chain', data, data')
  }

  method Free(m: Machine, inum: int, newBSize: nat)
    requires Indexed(m) && inum in m.objs && m.objs[inum].kind.File? && BlocksOwned(m.objs, m.data)
    requires newBSize <= |m.objs[inum].entries|
    modifies m`blocks, m`blockBuf, m`super, m`nodes, m`nodeBuf, m`chain, m`data, m`errno, m`freeNodes, m`objs, m.f
    ensures Indexed(m) && BlocksOwned(m.objs, m.data) && m.errno == old(m.errno)
    ensures inum in m.objs && m.objs == old(m.objs)[inum := m.objs[inum]]
    ensures FileCut(old(m.objs[inum]), m.objs[inum], newBSize, old(m.freeNodes), m.freeNodes,
                    old(m.chain), m.chain, old(m.data), m.data)
    ensures m.f.Length == FENTRY_MAX_SIZE && m.f[..newBSize] == m.objs[inum].entries
  {
    hide DiskOk, Rep, Ownership, Resized, Freed, Homed, Need;
    var bSize := IndexRead.Listing(m, File, inum);
    ghost var objs, o := m.objs, m.objs[inum];
    ghost var homes: map<int, Home> :| Homed(m.objs, m.data, homes);
    FreedNone(o.entries, newBSize, m.chain, m.data);
    HousedIn(m.objs, m.data, homes, inum);
    FreeBlocks(m, inum, newBSize, bSize, homes);
    NeedMonotonic(File, newBSize, bSize);
    ghost var free1 := m.freeNodes;
    FitsFile(m, inum);
    ListingSet(m, File, inum, newBSize);
    ResizedList(o, m.objs[inum], m.f[..newBSize], free1, m.freeNodes);
    assert m.f[..newBSize] == o.entries[..newBSize];
    FreedHomed(objs, inum, homes, newBSize, old(m.chain), m.chain, old(m.data), m.data, m.objs[inum]);
  }

  lemma HousedIn(objs: map<int, Obj>, data: map<int, seq<Byte>>, homes: map<int, Home>, h: int)
    requires Homed(objs, data, homes) && h in objs && objs[h].kind.File?
    ensures Housed(h, objs[h], data, homes)
  {
  }

  lemma FitsFile(m: Machine, h: int)
    requires Indexed(m) && h in m.objs
    ensures |m.objs[h].entries| <= MaxEntries(m.objs[h].kind) && m.f.Length == FENTRY_MAX_SIZE
    ensures Shaped(m.objs[h])
  {
  }
}
