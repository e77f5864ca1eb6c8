/** Adding, removing and finding directory entries (inode.c:495-524, path.c:16-25). */
module Directory {
  import opened Disk
  import opened IndexSpec
  import opened IndexWrite
  import opened Owners
  import opened Attributes
  import opened Names

  /** A full directory of 2085 entries refuses the new one but still counts it as a link. */
  ghost predicate Appended(o: Obj, o': Obj, e: Entry, free: set<int>, free': set<int>) {
    && Resized(o, o', Take(o.entries + [e], MaxEntries(Dir)), free, free')
    && SameMeta(o.(nlink := LinksPlus(o.nlink, 1)), o')
  }

  ghost predicate Removed(o: Obj, o': Obj, i: int, free: set<int>, free': set<int>)
    requires 0 <= i < |o.entries|
  {
    && Resized(o, o', RemoveAt(o.entries, i), free, free')
    && SameMeta(o.(nlink := LinksPlus(o.nlink, -1)), o')
  }

  lemma DirFits(m: Machine, h: int)
    requires Indexed(m) && h in m.objs && m.objs[h].kind.Dir?
    ensures |m.objs[h].entries| < DENTRY_MAX_SIZE == m.d.Length
  {
  }

  /** listing_set followed by the change of the link count. */
  method SetAndCount(m: Machine, inum: int, newsize: nat, delta: int)
    requires Indexed(m) && inum in m.objs && m.objs[inum].kind.Dir?
    requires |m.freeNodes| + Need(Dir, |m.objs[inum].entries|) >= Need(Dir, Min(newsize, MaxEntries(Dir)))
    modifies m`blocks, m`nodes, m`nodeBuf, m`freeNodes, m`errno, m`objs
    ensures Indexed(m) && inum in m.objs && m.objs == old(m.objs)[inum := m.objs[inum]]
    ensures m.d.Length == DENTRY_MAX_SIZE
    ensures Resized(old(m.objs[inum]), m.objs[inum], m.d[..Min(newsize, MaxEntries(Dir))], old(m.freeNodes),
      m.freeNodes)
    ensures SameMeta(old(m.objs[inum]).(nlink := LinksPlus(old(m.objs[inum]).nlink, delta)), m.objs[inum])
    ensures m.errno == if newsize > MaxEntries(Dir) then -EFBIG else old(m.errno)
  {
    hide DiskOk, Rep, Ownership, Need, Resized;
    ghost var o, free := m.objs[inum], m.freeNodes;
    ListingSet(m, Dir, inum, newsize);
    ghost var o1 := m.objs[inum];
    AddLinks(m, inum, delta);
    ResizedToMeta(o, o1, m.objs[inum], m.d[..Min(newsize, MaxEntries(Dir))], free, m.freeNodes);
  }

  lemma ResizedToMeta(o: Obj, o1: Obj, o': Obj, entries: seq<Entry>, free: set<int>, free': set<int>)
    requires SameIndex(o1, o')
    ensures Resized(o, o1, entries, free, free') <==> Resized(o, o', entries, free, free')
  {
  }

  lemma CutList(d: seq<Entry>, entries: seq<Entry>, n: nat)
    requires |entries| <= |d| && d[..|entries|] == entries
    ensures d[..Min(|entries|, n)] == Take(entries, n)
  {
  }

  method Append(m: Machine, inum: int, item: Entry)
    requires Indexed(m) && inum in m.objs && m.objs[inum].kind.Dir?
    requires |m.freeNodes| + Need(Dir, |m.objs[inum].entries|)
             >= Need(Dir, Min(|m.objs[inum].entries| + 1, MaxEntries(Dir)))
    modifies m`blocks, m`nodes, m`nodeBuf, m`freeNodes, m`errno, m`objs, m.d
    ensures Indexed(m) && inum in m.objs && m.objs == old(m.objs)[inum := m.objs[inum]]
    ensures Appended(old(m.objs[inum]), m.objs[inum], item, old(m.freeNodes), m.freeNodes)
    ensures m.errno == if |old(m.objs[inum]).entries| == MaxEntries(Dir) then -EFBIG else old(m.errno)
  {
    hide DiskOk, Rep, Ownership, Need, Resized;
    DirFits(m, inum);
    ghost var entries := m.objs[inum].entries;
    var size := IndexRead.Listing(m, Dir, inum);
    m.d[size] := item;
    assert m.d[..size + 1] == entries + [item];
    CutList(m.d[..], entries + [item], MaxEntries(Dir));
    SetAndCount(m, inum, size + 1, 1);
  }

  /** The match in dnode_remove: the last entry is copied over it and the list is cut. */
  method RemoveHere(m: Machine, inum: int, i: nat, size: nat)
    requires Indexed(m) && inum in m.objs && m.objs[inum].kind.Dir?
    requires i < size == |m.objs[inum].entries| <= m.d.Length && m.d[..size] == m.objs[inum].entries
    modifies m`blocks, m`nodes, m`nodeBuf, m`freeNodes, m`errno, m`objs, m.d
    ensures Indexed(m) && inum in m.objs && m.objs == old(m.objs)[inum := m.objs[inum]] && m.errno == old(m.errno)
    ensures Removed(old(m.objs[inum]), m.objs[inum], i, old(m.freeNodes), m.freeNodes)
    ensures m.d[..size] == old(m.objs[inum]).entries[i := old(m.objs[inum]).entries[size - 1]]
  {
    DirFits(m, inum);
    NeedMonotonic(Dir, size - 1, size);
    hide DiskOk, Rep, Ownership, Need, Resized;
    ghost var entries := m.objs[inum].entries;
    assert entries[size - 1] == m.d[size - 1];
    m.d[i] := m.d[size - 1];
    assert m.d[..size] == entries[i := entries[size - 1]];
    assert m.d[..size - 1] == RemoveAt(entries, i);
    SetAndCount(m, inum, size - 1, -1);
  }

  /** The list while dnode_remove runs: nothing found yet, or found at `at` and
      the stale tail still in the cache. */
  ghost predicate Searching(m: Machine, inum: int, o: Obj, free: set<int>, objs: map<int, Obj>, name: string, j: int,
                            at: int)
    reads m, m.d
  {
    && Indexed(m) && inum in objs && objs[inum] == o && j <= |o.entries| <= m.d.Length && -1 <= at < j
    && if at < 0 then
         m.objs == objs && m.freeNodes == free && m.d[..|o.entries|] == o.entries
         && forall k :: 0 <= k < j ==> !StrnEq(NameOf(o.entries[k]), name, 13)
       else
         inum in m.objs && m.objs == objs[inum := m.objs[inum]] && Removed(o, m.objs[inum], at, free, m.freeNodes)
         && m.d[..|o.entries|] == o.entries[at := o.entries[|o.entries| - 1]]
         && StrnEq(NameOf(o.entries[at]), name, 13)
  }

  /** After the match no other entry matches. */
  lemma NoSecondMatch(entries: seq<Entry>, name: string, at: nat, j: nat)
    requires NamesOk(entries) && at < j < |entries| && StrnEq(NameOf(entries[at]), name, 13)
    ensures !StrnEq(NameOf(entries[j]), name, 13)
  {
  }

  method Remove(m: Machine, inum: int, filename: string)
    requires Indexed(m) && inum in m.objs && m.objs[inum].kind.Dir? && NamesOk(m.objs[inum].entries)
    modifies m`blocks, m`nodes, m`nodeBuf, m`freeNodes, m`errno, m`objs, m.d
    ensures Indexed(m) && m.errno == old(m.errno)
    ensures inum in m.objs && m.objs == old(m.objs)[inum := m.objs[inum]]
    ensures var o, i := old(m.objs[inum]), FirstNamed(old(m.objs[inum]).entries, Take(filename, NAME_MAX));
      if i < |o.entries| then Removed(o, m.objs[inum], i, old(m.freeNodes), m.freeNodes)
      else m.objs[inum] == o && m.freeNodes == old(m.freeNodes)
  {
    hide DiskOk, Rep, Ownership, Removed, StrnEq, FirstNamed;
    DirFits(m, inum);
    ghost var o, objs, free := m.objs[inum], m.objs, m.freeNodes;
    var size := IndexRead.Listing(m, Dir, inum);
    ghost var at := -1;
    for j := 0 to size
      invariant Searching(m, inum, o, free, objs, filename, j, at) && m.errno == old(m.errno)
    {
      if at >= 0 {
        assert m.d[j] == m.d[..size][j];
        NoSecondMatch(o.entries, filename, at, j);
      } else {
        assert m.d[j] == m.d[..size][j];
      }
      if StrnEq(NameOf(m.d[j]), filename, 13) {
        RemoveHere(m, inum, j, size);
        at := j;
      }
    }
    SearchEnds(o.entries, filename, at);
  }

  lemma SearchEnds(entries: seq<Entry>, name: string, at: int)
    requires NamesOk(entries) && -1 <= at < |entries|
    requires if at < 0 then forall k :: 0 <= k < |entries| ==> !StrnEq(NameOf(entries[k]), name, 13)
             else StrnEq(NameOf(entries[at]), name, 13)
    ensures FirstNamed(entries, Take(name, NAME_MAX)) == if at < 0 then |entries| else at
  {
  }

  /** One path component, as _path_to_inum_elem resolves it. */
  function Component(objs: map<int, Obj>, dir: int, name: string): int {
    if dir < 2 then -1
    else if name == "." then dir
    else if dir in objs then Lookup(objs[dir].entries, name)
    else -1
  }

  lemma NameLengths(entries: seq<Entry>)
    requires NamesOk(entries)
    ensures forall i :: 0 <= i < |entries| ==> |NameOf(entries[i])| <= NAME_MAX
  {
  }

  method PathElem(m: Machine, path: string, destInum: int) returns (r: int)
    requires Indexed(m)
    requires destInum in m.objs && m.objs[destInum].kind.Dir? && NamesOk(m.objs[destInum].entries)
    modifies m`nodeBuf, m.d
    ensures r == Component(m.objs, destInum, path)
  {
    if destInum < 2 { return -1; }
    if path == "." { return destInum; }
    hide DiskOk, Rep, Ownership, NamesOk, StrnEq;
    DirFits(m, destInum);
    NameLengths(m.objs[destInum].entries);
    ghost var entries := m.objs[destInum].entries;
    var size := IndexRead.Listing(m, Dir, destInum);
    for i := 0 to size
      invariant m.d[..size] == entries
      invariant forall k :: 0 <= k < i ==> NameOf(entries[k]) != path
    {
      assert m.d[i] == m.d[..size][i] == entries[i];
      StoredNameEq(path, NameOf(entries[i]));
      if StrnEq(path, NameOf(m.d[i]), 14) {
        FirstNamedIs(entries, path, i);
        return m.d[i].num;
      }
    }
    return -1;
  }
}
