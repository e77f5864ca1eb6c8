/** The name space: what the entries of all directories say about the objects. */
module Tree {
  import opened Disk
  import opened IndexSpec
  import opened Names
  import opened Directory
  import opened Path

  /** An entry that is not a dot entry names an object that has this directory as parent. */
  ghost predicate ChildOk(objs: map<int, Obj>, p: int, c: int) {
    c in objs && c != ROOT && objs[c].pno == p
  }

  ghost predicate DirOk(objs: map<int, Obj>, p: int, o: Obj) {
    && 2 <= |o.entries| && NamesOk(o.entries)
    && o.entries[0] == Ent(".", p) && o.entries[1] == Ent("..", o.pno) && IsDir(objs, o.pno)
    && (forall i {:trigger o.entries[i]} :: 2 <= i < |o.entries| ==> ChildOk(objs, p, o.entries[i].num))
    && (forall i, j {:trigger o.entries[i], o.entries[j]} :: 2 <= i < j < |o.entries| ==>
        o.entries[i].num != o.entries[j].num)
  }

  /** Every object but the root is named in its parent directory. */
  ghost predicate Named(objs: map<int, Obj>, h: int, o: Obj) {
    h == ROOT || (IsDir(objs, o.pno) && exists i {:trigger objs[o.pno].entries[i]} ::
      2 <= i < |objs[o.pno].entries| && objs[o.pno].entries[i].num == h)
  }

  /** Parents come before their children: there is no cycle of directories. */
  ghost predicate Ranked(objs: map<int, Obj>, rank: map<int, nat>) {
    && objs.Keys <= rank.Keys
    && forall h {:trigger objs[h]} :: h in objs && h != ROOT ==> objs[h].pno in objs && rank[objs[h].pno] < rank[h]
  }

  ghost predicate Grounded(objs: map<int, Obj>) {
    exists rank :: Ranked(objs, rank)
  }

  ghost predicate TreeOk(objs: map<int, Obj>) {
    && IsDir(objs, ROOT) && Grounded(objs)
    && (forall p {:trigger DirOk(objs, p, objs[p])} :: p in objs && objs[p].kind.Dir? ==> DirOk(objs, p, objs[p]))
    && (forall h {:trigger Named(objs, h, objs[h])} :: h in objs ==> Named(objs, h, objs[h]))
  }

  lemma TreeNames(objs: map<int, Obj>)
    requires TreeOk(objs)
    ensures AllNamesOk(objs)
  {
    forall h | h in objs && objs[h].kind.Dir?
      ensures NamesOk(objs[h].entries)
    {
      assert DirOk(objs, h, objs[h]);
    }
  }

  /** Objects keep kind, parent and, if directories, their entries. */
  ghost predicate SameTree(objs: map<int, Obj>, objs': map<int, Obj>) {
    && objs'.Keys == objs.Keys
    && forall g {:trigger objs'[g]} {:trigger objs[g]} :: g in objs ==>
         objs'[g].kind == objs[g].kind && objs'[g].pno == objs[g].pno
         && (objs[g].kind.Dir? ==> objs'[g].entries == objs[g].entries)
  }

  lemma SameTreeKeeps(objs: map<int, Obj>, objs': map<int, Obj>)
    requires TreeOk(objs) && SameTree(objs, objs')
    ensures TreeOk(objs')
  {
    var rank :| Ranked(objs, rank);
    assert Ranked(objs', rank);
    forall p | p in objs' && objs'[p].kind.Dir?
      ensures DirOk(objs', p, objs'[p])
    {
      assert DirOk(objs, p, objs[p]);
    }
    forall h | h in objs'
      ensures Named(objs', h, objs'[h])
    {
      assert Named(objs, h, objs[h]);
    }
  }

  /** What an object looks like when it is created. */
  function NewObj(kind: Kind, c: int, p: int): Obj {
    match kind
    case File => Obj(File, p, 1, 0, [], [], [])
    case Dir => Obj(Dir, p, 2, 0, [Ent(".", c), Ent("..", p)], [], [])
  }

  /** The inode of a new object: fnode_init and dnode_init set the rest to zero. */
  function NewHead(kind: Kind, inum: int, pnum: int): Inode {
    match kind
    case File => Head(Meta(File, inum, pnum, 0, 1, 0), seq(24, _ => Blk(0)), seq(4, _ => 0), seq(4, _ => 0))
    case Dir => Head(Meta(Dir, inum, pnum, 2, 2, 0), [Ent(".", inum), Ent("..", pnum)] + seq(4, _ => Ent("", 0)),
                     seq(4, _ => 0), seq(4, _ => 0))
  }

  lemma NewHeadRep(nodes: seq<Inode>, kind: Kind, inum: int, pnum: int)
    requires |nodes| == SLOT_COUNT && ROOT <= inum < BITMAP_NODES
    ensures ObjRep(nodes[inum := NewHead(kind, inum, pnum)], inum, NewObj(kind, inum, pnum))
  {
  }

  lemma OtherDirKept(objs: map<int, Obj>, objs': map<int, Obj>, q: int)
    requires q in objs && objs[q].kind.Dir? && DirOk(objs, q, objs[q])
    requires forall g :: g in objs ==> g in objs' && objs'[g].kind == objs[g].kind && objs'[g].pno == objs[g].pno
    requires objs'[q].entries == objs[q].entries
    ensures DirOk(objs', q, objs'[q])
  {
  }

  /** The parent with the new entry. */
  lemma ParentAfterCreate(objs: map<int, Obj>, objs': map<int, Obj>, p: int, name: string, c: int)
    requires p in objs && objs[p].kind.Dir? && DirOk(objs, p, objs[p]) && c !in objs && c != ROOT
    requires !HasName(objs[p].entries, name) && GoodName(name)
    requires forall g :: g in objs ==> g in objs' && objs'[g].kind == objs[g].kind && objs'[g].pno == objs[g].pno
    requires objs'[p].entries == objs[p].entries + [Ent(name, c)]
    requires c in objs' && objs'[c].pno == p
    ensures DirOk(objs', p, objs'[p])
  {
  }

  lemma NewKinds(kind: Kind, c: int, p: int)
    ensures NewObj(kind, c, p).kind == kind && NewObj(kind, c, p).pno == p
  {
  }

  lemma NewDirOk(objs: map<int, Obj>, c: int, p: int)
    requires IsDir(objs, p)
    ensures DirOk(objs, c, NewObj(Dir, c, p))
  {
  }

  lemma CreateGrounded(objs: map<int, Obj>, objs': map<int, Obj>, p: int, c: int)
    requires Grounded(objs) && p in objs && c !in objs
    requires objs'.Keys == objs.Keys + {c} && objs'[c].pno == p
    requires forall g :: g in objs ==> objs'[g].pno == objs[g].pno
    ensures Grounded(objs')
  {
    var rank :| Ranked(objs, rank);
    assert Ranked(objs', rank[c := rank[p] + 1]);
  }

  lemma CreateKeepsTree(objs: map<int, Obj>, objs': map<int, Obj>, kind: Kind, p: int, name: string, c: int)
    requires TreeOk(objs) && IsDir(objs, p) && c !in objs && c != ROOT
    requires !HasName(objs[p].entries, name) && GoodName(name)
    requires objs'.Keys == objs.Keys + {c} && objs'[c] == NewObj(kind, c, p)
    requires forall g :: g in objs ==> objs'[g].kind == objs[g].kind && objs'[g].pno == objs[g].pno
    requires forall g :: g in objs && g != p ==> objs'[g].entries == objs[g].entries
    requires objs'[p].entries == objs[p].entries + [Ent(name, c)]
    ensures TreeOk(objs')
  {
    hide DirOk, Named, NewObj, HasName, Grounded;
    assert DirOk(objs, p, objs[p]);
    NewKinds(kind, c, p);
    CreateGrounded(objs, objs', p, c);
    ParentAfterCreate(objs, objs', p, name, c);
    forall q | q in objs' && objs'[q].kind.Dir?
      ensures DirOk(objs', q, objs'[q])
    {
      if q == c {
        NewDirOk(objs', c, p);
      } else if q != p {
        assert DirOk(objs, q, objs[q]);
        OtherDirKept(objs, objs', q);
      }
    }
    forall h | h in objs'
      ensures Named(objs', h, objs'[h])
    {
      NamedAfterCreate(objs, objs', p, name, c, h);
    }
  }

  lemma NamedAfterCreate(objs: map<int, Obj>, objs': map<int, Obj>, p: int, name: string, c: int, h: int)
    requires TreeOk(objs) && IsDir(objs, p) && c !in objs
    requires objs'.Keys == objs.Keys + {c} && objs'[c].pno == p
    requires forall g :: g in objs ==> objs'[g].kind == objs[g].kind && objs'[g].pno == objs[g].pno
    requires forall g :: g in objs && g != p ==> objs'[g].entries == objs[g].entries
    requires objs'[p].entries == objs[p].entries + [Ent(name, c)]
    requires h in objs'
    requires DirOk(objs, p, objs[p])
    ensures Named(objs', h, objs'[h])
  {
    if h == c {
      assert objs'[p].entries[|objs[p].entries|] == Ent(name, c);
    } else if h != ROOT {
      assert Named(objs, h, objs[h]);
      var q := objs[h].pno;
      var i :| 2 <= i < |objs[q].entries| && objs[q].entries[i].num == h;
      assert objs'[q].entries[i] == objs[q].entries[i];
    }
  }

  /** The parent without the entry. */
  lemma ParentAfterRemove(objs: map<int, Obj>, objs': map<int, Obj>, p: int, i: nat, h: int)
    requires p in objs && objs[p].kind.Dir? && DirOk(objs, p, objs[p])
    requires 2 <= i < |objs[p].entries| && objs[p].entries[i].num == h && h in objs && objs[h].kind.File?
    requires forall g :: g in objs && g != h ==>
      g in objs' && objs'[g].kind == objs[g].kind && objs'[g].pno == objs[g].pno
    requires objs'[p].entries == RemoveAt(objs[p].entries, i)
    ensures DirOk(objs', p, objs'[p])
  {
  }

  lemma OtherAfterRemove(objs: map<int, Obj>, objs': map<int, Obj>, q: int, p: int, h: int)
    requires TreeOk(objs) && IsDir(objs, q) && q != p && h in objs && objs[h].kind.File? && objs[h].pno == p
    requires forall g :: g in objs && g != h ==>
      g in objs' && objs'[g].kind == objs[g].kind && objs'[g].pno == objs[g].pno
    requires objs'[q].entries == objs[q].entries
    ensures DirOk(objs', q, objs'[q])
  {
    assert DirOk(objs, q, objs[q]);
    forall k | 2 <= k < |objs[q].entries|
      ensures ChildOk(objs', q, objs[q].entries[k].num)
    {
      assert ChildOk(objs, q, objs[q].entries[k].num);
    }
  }

  lemma NamedAfterRemove(objs: map<int, Obj>, objs': map<int, Obj>, p: int, i: nat, h: int, g: int)
    requires TreeOk(objs) && IsDir(objs, p)
    requires 2 <= i < |objs[p].entries| && objs[p].entries[i].num == h && h in objs && objs[h].kind.File?
    requires objs'.Keys == objs.Keys - {h}
    requires forall g :: g in objs && g != h ==> objs'[g].kind == objs[g].kind && objs'[g].pno == objs[g].pno
    requires forall g :: g in objs && g != h && g != p ==> objs'[g].entries == objs[g].entries
    requires objs'[p].entries == RemoveAt(objs[p].entries, i)
    requires g in objs'
    ensures Named(objs', g, objs'[g])
  {
    if g != ROOT {
      assert Named(objs, g, objs[g]);
      var q := objs[g].pno;
      var k :| 2 <= k < |objs[q].entries| && objs[q].entries[k].num == g;
      if q == p {
        var e, e' := objs[p].entries, objs'[p].entries;
        var k' := if k == |e| - 1 then i else k;
        assert e'[k'] == e[k];
      } else {
        assert objs'[q].entries[k] == objs[q].entries[k];
      }
    }
  }

  /** A file is nobody's parent. */
  lemma RemoveGrounded(objs: map<int, Obj>, objs': map<int, Obj>, h: int)
    requires TreeOk(objs) && h in objs && objs[h].kind.File?
    requires objs'.Keys == objs.Keys - {h}
    requires forall g :: g in objs && g != h ==> objs'[g].pno == objs[g].pno
    ensures Grounded(objs')
  {
    var rank :| Ranked(objs, rank);
    forall g | g in objs' && g != ROOT
      ensures objs'[g].pno in objs'
    {
      assert Named(objs, g, objs[g]);
    }
    assert Ranked(objs', rank);
  }

  /** A file goes, and with it the one entry that names it. */
  lemma UnlinkKeepsTree(objs: map<int, Obj>, objs': map<int, Obj>, p: int, i: nat, h: int)
    requires TreeOk(objs) && IsDir(objs, p)
    requires 2 <= i < |objs[p].entries| && objs[p].entries[i].num == h && h in objs && objs[h].kind.File?
    requires objs'.Keys == objs.Keys - {h}
    requires forall g :: g in objs && g != h ==> objs'[g].kind == objs[g].kind && objs'[g].pno == objs[g].pno
    requires forall g :: g in objs && g != h && g != p ==> objs'[g].entries == objs[g].entries
    requires objs'[p].entries == RemoveAt(objs[p].entries, i)
    ensures TreeOk(objs')
  {
    assert DirOk(objs, p, objs[p]);
    assert ChildOk(objs, p, objs[p].entries[i].num);
    RemoveGrounded(objs, objs', h);
    ParentAfterRemove(objs, objs', p, i, h);
    forall q | q in objs' && objs'[q].kind.Dir?
      ensures DirOk(objs', q, objs'[q])
    {
      if q != p {
        OtherAfterRemove(objs, objs', q, p, h);
      }
    }
    forall g | g in objs'
      ensures Named(objs', g, objs'[g])
    {
      NamedAfterRemove(objs, objs', p, i, h, g);
    }
  }

  /** An entry that leads to a file is not a dot entry and names only this file. */
  lemma FileEntry(objs: map<int, Obj>, p: int, name: string, h: int)
    requires TreeOk(objs) && IsDir(objs, p) && p >= ROOT && Component(objs, p, name) == h
    requires h in objs && h >= ROOT && objs[h].kind.File?
    ensures 2 <= FirstNamed(objs[p].entries, name) < |objs[p].entries|
    ensures objs[p].entries[FirstNamed(objs[p].entries, name)].num == h && objs[h].pno == p && h != ROOT
    ensures GoodName(name)
  {
    assert DirOk(objs, p, objs[p]);
    var i := FirstNamed(objs[p].entries, name);
    assert i < |objs[p].entries|;
    assert NameFits(objs[p].entries[i]);
    assert i >= 2 ==> ChildOk(objs, p, objs[p].entries[i].num);
  }
}
