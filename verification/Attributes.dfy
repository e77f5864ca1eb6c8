/** Reading and changing the metadata of an inode (inode.c:61-119, 502-505, 518-521). */
module Attributes {
  import opened Disk
  import opened IndexSpec
  import opened InodeIo
  import opened Owners

  /** Two objects with the same list in the same pages. */
  ghost predicate SameIndex(o: Obj, o': Obj) {
    o' == o.(pno := o'.pno, nlink := o'.nlink, fsize := o'.fsize)
  }

  /** A resize does not depend on the metadata. */
  lemma ResizedMeta(o: Obj, o1: Obj, o': Obj, entries: seq<Entry>, free: set<int>, free': set<int>)
    requires SameIndex(o, o1)
    ensures Resized(o, o', entries, free, free') <==> Resized(o1, o', entries, free, free')
  {
  }

  lemma MetaKeepsOwnership(objs: map<int, Obj>, free: set<int>, h: int, o': Obj)
    requires Ownership(objs, free) && h in objs && SameIndex(objs[h], o')
    ensures Ownership(objs[h := o'], free)
  {
    var roles :| Owned(objs, free, roles);
    assert Assigned(h, objs[h], roles);
    forall j | j in roles
      ensures RoleOk(objs[h := o'], j, roles[j])
    {
      assert RoleOk(objs, j, roles[j]);
    }
    assert Owned(objs[h := o'], free, roles);
  }

  lemma MetaKeepsRep(objs: map<int, Obj>, free: set<int>, nodes: seq<Inode>, h: int, o': Obj)
    requires Rep(nodes, objs) && Ownership(objs, free) && h in objs && SameIndex(objs[h], o')
    ensures ROOT <= h < BITMAP_NODES && nodes[h].Head?
    ensures Rep(nodes[h := nodes[h].(meta := nodes[h].meta.(pno := o'.pno, nlink := o'.nlink, fsize := o'.fsize))],
      objs[h := o'])
  {
  }

  /** Everything the operations above the index layer rely on. */
  ghost predicate Indexed(m: Machine)
    reads m
  {
    m.Sound() && m.Formatted() && Rep(m.nodes, m.objs) && Ownership(m.objs, m.freeNodes)
  }

  /** inode_get_attr_upc: the size of a directory is its number of entries. */
  method GetAttr(m: Machine, inum: int) returns (kind: Kind, nlink: int, size: int)
    requires Indexed(m) && inum in m.objs
    modifies m`nodeBuf
    ensures kind == m.objs[inum].kind && nlink == m.objs[inum].nlink
    ensures size == if kind.Dir? then |m.objs[inum].entries| else m.objs[inum].fsize
  {
    assert ObjRep(m.nodes, inum, m.objs[inum]);
    var x := InodeLoad(m, inum);
    kind, nlink := x.meta.kind, x.meta.nlink;
    size := if kind.Dir? then x.meta.size else x.meta.fsize;
  }

  /** The metadata after inode_set_attr_upc; None is the C null pointer. */
  function MetaSet(meta: Meta, nlink: Option<int>, size: Option<int>): Meta {
    var sized :=
      if size.None? then meta
      else if meta.kind.Dir? then meta.(size := Min(size.value, DENTRY_MAX_SIZE) % 0x1_0000)
      else meta.(fsize := Min(size.value, FCONTENT_MAX_SIZE) % 0x1_0000_0000);
    if nlink.None? then sized else sized.(nlink := nlink.value % 0x1_0000)
  }

  /** Values in range are stored as they are, a size that is too large is cut, and what is not given stays. */
  lemma MetaSetStores(meta: Meta, nlink: Option<int>, size: Option<int>)
    requires nlink.Some? ==> 0 <= nlink.value < 0x1_0000
    requires size.Some? ==> 0 <= size.value
    ensures var now := MetaSet(meta, nlink, size);
      && now.kind == meta.kind && now.ino == meta.ino && now.pno == meta.pno
      && now.nlink == (if nlink.Some? then nlink.value else meta.nlink)
      && now.size == (if size.Some? && meta.kind.Dir? then Min(size.value, DENTRY_MAX_SIZE) else meta.size)
      && now.fsize == (if size.Some? && meta.kind.File? then Min(size.value, FCONTENT_MAX_SIZE) else meta.fsize)
  {
  }

  /** inode_set_attr_upc, at the level of inodes: the list of a directory is not touched with its size. */
  method SetAttr(m: Machine, inum: int, nlink: Option<int>, size: Option<int>)
    requires m.Sound() && m.Formatted() && 1 <= inum < SLOT_COUNT && m.nodes[inum].Head?
    modifies m`blocks, m`nodes, m`nodeBuf
    ensures m.Sound() && m.Formatted()
    ensures m.nodes == old(m.nodes)[inum := old(m.nodes)[inum].(meta := MetaSet(old(m.nodes)[inum].meta, nlink, size))]
  {
    hide DiskOk;
    NodesLength(m);
    var x := InodeLoad(m, inum);
    if x.meta.kind.Dir? {
      if size.Some? {
        var v := if size.value > DENTRY_MAX_SIZE then DENTRY_MAX_SIZE else size.value;
        x := x.(meta := x.meta.(size := v % 0x1_0000));
      }
    } else {
      if size.Some? {
        var v := if size.value > FCONTENT_MAX_SIZE then FCONTENT_MAX_SIZE else size.value;
        x := x.(meta := x.meta.(fsize := v % 0x1_0000_0000));
      }
    }
    if nlink.Some? {
      x := x.(meta := x.meta.(nlink := nlink.value % 0x1_0000));
    }
    InodeDump(m, inum, x);
  }

  lemma NodesLength(m: Machine)
    requires m.Sound()
    ensures |m.nodes| == SLOT_COUNT && forall k :: 0 <= k < |m.chain| ==> m.chain[k] > 0
  {
  }

  /** The size of a file, as the streams set it: cut at the largest one. */
  method SetFsize(m: Machine, inum: int, fsize: nat)
    requires Indexed(m) && inum in m.objs && m.objs[inum].kind.File?
    modifies m`blocks, m`nodes, m`nodeBuf, m`objs
    ensures Indexed(m)
    ensures m.objs == old(m.objs)[inum := old(m.objs)[inum].(fsize := Min(fsize, FCONTENT_MAX_SIZE))]
  {
    ghost var o' := m.objs[inum].(fsize := Min(fsize, FCONTENT_MAX_SIZE));
    hide DiskOk, Rep, Ownership, MetaSet;
    HeadMeta(m.nodes, m.objs, inum);
    MetaSized(m.nodes[inum].meta, fsize);
    MetaKeepsRep(m.objs, m.freeNodes, m.nodes, inum, o');
    MetaKeepsOwnership(m.objs, m.freeNodes, inum, o');
    SetAttr(m, inum, None, Some(fsize));
    m.objs := m.objs[inum := o'];
  }

  lemma MetaSized(meta: Meta, fsize: nat)
    requires meta.kind.File?
    ensures MetaSet(meta, None, Some(fsize)) == meta.(fsize := Min(fsize, FCONTENT_MAX_SIZE))
  {
  }

  lemma HeadMeta(nodes: seq<Inode>, objs: map<int, Obj>, h: int)
    requires Rep(nodes, objs) && h in objs
    ensures |nodes| == SLOT_COUNT && ROOT <= h < BITMAP_NODES && nodes[h].Head?
    ensures var o := objs[h]; nodes[h].meta == Meta(o.kind, h, o.pno, |o.entries|, o.nlink, o.fsize)
  {
    assert ObjRep(nodes, h, objs[h]);
  }

  function LinksPlus(nlink: int, delta: int): int { (nlink + delta) % 0x1_0000 }

  /** The 16-bit link count goes up or down by one. */
  method AddLinks(m: Machine, inum: int, delta: int)
    requires Indexed(m) && inum in m.objs
    modifies m`blocks, m`nodes, m`nodeBuf, m`objs
    ensures Indexed(m)
    ensures m.objs == old(m.objs)[inum := old(m.objs)[inum].(nlink := LinksPlus(old(m.objs)[inum].nlink, delta))]
  {
    ghost var o' := m.objs[inum].(nlink := LinksPlus(m.objs[inum].nlink, delta));
    hide DiskOk, Rep, Ownership;
    HeadMeta(m.nodes, m.objs, inum);
    MetaKeepsRep(m.objs, m.freeNodes, m.nodes, inum, o');
    MetaKeepsOwnership(m.objs, m.freeNodes, inum, o');
    var x := InodeLoad(m, inum);
    x := x.(meta := x.meta.(nlink := LinksPlus(x.meta.nlink, delta)));
    InodeDump(m, inum, x);
    m.objs := m.objs[inum := o'];
  }
}
