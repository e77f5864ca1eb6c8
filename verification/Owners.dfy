/** Which inode serves which object: heads, leaf pages and extension pages of all
    objects are pairwise distinct and none of them is free. */
module Owners {
  import opened Disk
  import opened IndexSpec

  /** All objects lie in the inode slots. */
  ghost predicate Rep(nodes: seq<Inode>, objs: map<int, Obj>) {
    && |nodes| == SLOT_COUNT
    && forall h {:trigger objs[h]} {:trigger h in objs} :: h in objs ==> ObjRep(nodes, h, objs[h])
  }

  datatype Role = HeadRole | LeafRole(owner: int, k: int) | ExtRole(owner: int, e: int)

  ghost predicate RoleOk(objs: map<int, Obj>, j: int, r: Role) {
    match r
    case HeadRole => j in objs
    case LeafRole(h, k) => h in objs && 0 <= k < |objs[h].leaves| && objs[h].leaves[k] == j
    case ExtRole(h, e) => h in objs && 0 <= e < |objs[h].exts| && objs[h].exts[e] == j
  }

  ghost predicate Assigned(h: int, o: Obj, roles: map<int, Role>) {
    && ROOT <= h < BITMAP_NODES
    && h in roles && roles[h] == HeadRole
    && (forall k {:trigger o.leaves[k]} :: 0 <= k < |o.leaves| ==>
          IsPageNum(o.leaves[k]) && o.leaves[k] in roles && roles[o.leaves[k]] == LeafRole(h, k))
    && (forall e {:trigger o.exts[e]} :: 0 <= e < |o.exts| ==>
          IsPageNum(o.exts[e]) && o.exts[e] in roles && roles[o.exts[e]] == ExtRole(h, e))
  }

  ghost predicate Owned(objs: map<int, Obj>, free: set<int>, roles: map<int, Role>) {
    && (forall h {:trigger objs[h]} {:trigger h in objs} :: h in objs ==> Assigned(h, objs[h], roles))
    && (forall j {:trigger roles[j]} :: j in roles ==> RoleOk(objs, j, roles[j]))
    && (forall x {:trigger x in free} :: x in free ==> IsPageNum(x) && x !in roles)
  }

  /** Every owned inode has one role, and no free inode has any. */
  ghost predicate Ownership(objs: map<int, Obj>, free: set<int>) {
    exists roles :: Owned(objs, free, roles)
  }

  /** The inodes of an object: its own and its pages. */
  ghost function InodesOf(h: int, o: Obj): set<int> {
    Pages(o) + {h}
  }

  function OwnerOf(j: int, r: Role): int {
    match r
    case HeadRole => j
    case LeafRole(h, _) => h
    case ExtRole(h, _) => h
  }

  /** One object: each of its inodes has the role that names it. */
  lemma AssignedOwns(h: int, o: Obj, roles: map<int, Role>)
    requires Assigned(h, o, roles)
    ensures ROOT <= h < BITMAP_NODES && Unique(o.leaves, o.exts) && h !in Pages(o)
    ensures forall x :: x in InodesOf(h, o) ==>
      ROOT <= x < BITMAP_NODES && x in roles && OwnerOf(x, roles[x]) == h && (x != h ==> roles[x] != HeadRole)
  {
  }

  /** Spelled out without roles. */
  lemma OwnershipMeansApart(objs: map<int, Obj>, free: set<int>)
    requires Ownership(objs, free)
    ensures forall h :: h in objs ==>
      Unique(objs[h].leaves, objs[h].exts) && h !in Pages(objs[h]) && InodesOf(h, objs[h]) !! free
    ensures forall g, h :: g in objs && h in objs && g != h ==> InodesOf(g, objs[g]) !! InodesOf(h, objs[h])
  {
    hide Assigned, RoleOk, Unique, Pages, InodesOf;
    var roles :| Owned(objs, free, roles);
    forall h | h in objs
      ensures Unique(objs[h].leaves, objs[h].exts) && h !in Pages(objs[h]) && InodesOf(h, objs[h]) !! free
    {
      AssignedOwns(h, objs[h], roles);
    }
    forall g, h | g in objs && h in objs && g != h
      ensures InodesOf(g, objs[g]) !! InodesOf(h, objs[h])
    {
      AssignedOwns(g, objs[g], roles);
      AssignedOwns(h, objs[h], roles);
    }
  }

  /** Objects whose inodes were not written still lie where they did. */
  lemma UntouchedRep(nodes: seq<Inode>, nodes': seq<Inode>, h: int, o: Obj)
    requires |nodes| == SLOT_COUNT && |nodes'| == SLOT_COUNT && ObjRep(nodes, h, o)
    requires forall j :: j in InodesOf(h, o) && 0 <= j < SLOT_COUNT ==> nodes'[j] == nodes[j]
    ensures ObjRep(nodes', h, o)
  {
  }

  /** Where the inodes of an object and its resized version can be. */
  lemma ResizedApart(objs: map<int, Obj>, free: set<int>, h: int, o': Obj, entries: seq<Entry>, free': set<int>, g: int)
    requires Ownership(objs, free) && h in objs && g in objs && g != h
    requires Resized(objs[h], o', entries, free, free')
    ensures InodesOf(g, objs[g]) !! InodesOf(h, o')
  {
    OwnershipMeansApart(objs, free);
    assert Pages(o') <= Pages(objs[h]) + free;
  }

  /** The roles after a resize of h: those of the pages it gave up go, the popped ones come. */
  ghost function RolesAfter(objs: map<int, Obj>, roles: map<int, Role>, h: int, o': Obj): map<int, Role>
    requires h in objs
  {
    map j | j in (roles.Keys - Pages(objs[h])) + Pages(o') ::
      if j in o'.leaves then LeafRole(h, IndexOf(o'.leaves, j))
      else if j in o'.exts then ExtRole(h, IndexOf(o'.exts, j))
      else roles[j]
  }

  ghost function IndexOf(s: seq<int>, x: int): (i: int)
    requires x in s
    ensures 0 <= i < |s| && s[i] == x
  {
    var i :| 0 <= i < |s| && s[i] == x;
    i
  }

  /** Released pages belonged to the object and do not any more. */
  lemma ReleasedGone(o: Obj, o': Obj, entries: seq<Entry>, free: set<int>, free': set<int>)
    requires Shaped(o) && Unique(o.leaves, o.exts) && Resized(o, o', entries, free, free')
    ensures ReleasedAll(o, |o'.leaves|) <= Pages(o)
    ensures ReleasedAll(o, |o'.leaves|) !! Pages(o')
  {
  }

  /** A page of the resized object was its own before or was free. */
  lemma ResizedPage(objs: map<int, Obj>, free: set<int>, roles: map<int, Role>, h: int, o': Obj, entries: seq<Entry>,
                    free': set<int>, x: int)
    requires Owned(objs, free, roles) && h in objs && Shaped(objs[h]) && Resized(objs[h], o', entries, free, free')
    requires x in Pages(o')
    ensures IsPageNum(x) && x !in objs && (x in roles ==> x in Pages(objs[h])) && x !in free'
  {
    var o := objs[h];
    assert Assigned(h, o, roles);
    ReleasedGone(o, o', entries, free, free');
    if x !in Pages(o) {
      assert x in Taken(o, o');
    }
  }

  lemma AssignedAfter(objs: map<int, Obj>, free: set<int>, roles: map<int, Role>, h: int, o': Obj,
                      entries: seq<Entry>, free': set<int>)
    requires Owned(objs, free, roles) && h in objs && Shaped(objs[h]) && Resized(objs[h], o', entries, free, free')
    ensures Assigned(h, o', RolesAfter(objs, roles, h, o'))
  {
    assert Assigned(h, objs[h], roles);
    forall x | x in o'.leaves || x in o'.exts
      ensures IsPageNum(x) && x != h
    {
      assert x in Pages(o');
      ResizedPage(objs, free, roles, h, o', entries, free', x);
    }
  }

  lemma OtherAssigned(objs: map<int, Obj>, roles: map<int, Role>, h: int, o': Obj, g: int)
    requires h in objs && g in objs && g != h
    requires Assigned(h, objs[h], roles) && Assigned(g, objs[g], roles)
    requires forall x :: x in Pages(o') ==> x !in objs && (x in roles ==> x in Pages(objs[h]))
    ensures Assigned(g, objs[g], RolesAfter(objs, roles, h, o'))
  {
  }

  lemma RolesOkAfter(objs: map<int, Obj>, roles: map<int, Role>, h: int, o': Obj)
    requires h in objs && (forall j {:trigger roles[j]} :: j in roles ==> RoleOk(objs, j, roles[j]))
    ensures forall j :: j in RolesAfter(objs, roles, h, o') ==>
      RoleOk(objs[h := o'], j, RolesAfter(objs, roles, h, o')[j])
  {
  }

  lemma FreeAfter(objs: map<int, Obj>, free: set<int>, roles: map<int, Role>, h: int, o': Obj, entries: seq<Entry>,
                  free': set<int>)
    requires Owned(objs, free, roles) && h in objs && Shaped(objs[h]) && Resized(objs[h], o', entries, free, free')
    ensures forall x :: x in free' ==> IsPageNum(x) && x !in RolesAfter(objs, roles, h, o')
  {
  }

  lemma ResizeKeepsRoles(objs: map<int, Obj>, free: set<int>, roles: map<int, Role>, h: int, o': Obj,
                         entries: seq<Entry>, free': set<int>)
    requires Owned(objs, free, roles) && h in objs && Shaped(objs[h]) && Resized(objs[h], o', entries, free, free')
    ensures Owned(objs[h := o'], free', RolesAfter(objs, roles, h, o'))
  {
    hide RolesAfter, Resized, Shaped, Assigned, RoleOk, Pages;
    var roles' := RolesAfter(objs, roles, h, o');
    AssignedAfter(objs, free, roles, h, o', entries, free');
    RolesOkAfter(objs, roles, h, o');
    FreeAfter(objs, free, roles, h, o', entries, free');
    forall g | g in objs && g != h
      ensures Assigned(g, objs[g], roles')
    {
      forall x | x in Pages(o')
        ensures x !in objs && (x in roles ==> x in Pages(objs[h]))
      {
        ResizedPage(objs, free, roles, h, o', entries, free', x);
      }
      OtherAssigned(objs, roles, h, o', g);
    }
  }

  lemma ResizeKeepsOwnership(objs: map<int, Obj>, free: set<int>, h: int, o': Obj, entries: seq<Entry>, free': set<int>)
    requires Ownership(objs, free) && h in objs && Shaped(objs[h]) && Resized(objs[h], o', entries, free, free')
    ensures Ownership(objs[h := o'], free')
  {
    var roles :| Owned(objs, free, roles);
    ResizeKeepsRoles(objs, free, roles, h, o', entries, free');
  }

  /** Roles that go or come elsewhere do not matter to an object. */
  lemma AssignedKept(g: int, o: Obj, roles: map<int, Role>, roles': map<int, Role>)
    requires Assigned(g, o, roles)
    requires forall j :: j in InodesOf(g, o) && j in roles ==> j in roles' && roles'[j] == roles[j]
    ensures Assigned(g, o, roles')
  {
  }

  /** A role is right as long as its owner is what it was. */
  lemma RoleKept(objs: map<int, Obj>, objs': map<int, Obj>, j: int, r: Role)
    requires RoleOk(objs, j, r) && OwnerOf(j, r) in objs' && OwnerOf(j, r) in objs
    requires objs'[OwnerOf(j, r)] == objs[OwnerOf(j, r)]
    ensures RoleOk(objs', j, r)
  {
  }

  lemma RoleOwner(objs: map<int, Obj>, j: int, r: Role)
    requires RoleOk(objs, j, r)
    ensures OwnerOf(j, r) in objs && j in InodesOf(OwnerOf(j, r), objs[OwnerOf(j, r)])
  {
  }

  lemma NewHeadAssigned(c: int, o: Obj, roles: map<int, Role>)
    requires IsPageNum(c) && c in roles && roles[c] == HeadRole && o.leaves == [] && o.exts == []
    ensures Assigned(c, o, roles)
  {
  }

  /** A popped inode becomes the head of a new object without pages. */
  lemma AddHead(objs: map<int, Obj>, free: set<int>, c: int, o: Obj)
    requires Ownership(objs, free) && c in free && o.leaves == [] && o.exts == []
    ensures c !in objs && Ownership(objs[c := o], free - {c})
  {
    hide Assigned, RoleOk, InodesOf;
    var roles :| Owned(objs, free, roles);
    var objs', roles' := objs[c := o], roles[c := HeadRole];
    NoHead(objs, free, roles, c);
    NewHeadAssigned(c, o, roles');
    forall g | g in objs
      ensures Assigned(g, objs[g], roles')
    {
      AssignedKept(g, objs[g], roles, roles');
    }
    forall j | j in roles
      ensures RoleOk(objs', j, roles'[j])
    {
      RoleOwner(objs, j, roles[j]);
      RoleKept(objs, objs', j, roles[j]);
    }
    HeadRoleOk(objs', c);
    assert Owned(objs', free - {c}, roles');
  }

  lemma NoHead(objs: map<int, Obj>, free: set<int>, roles: map<int, Role>, c: int)
    requires Owned(objs, free, roles) && c in free
    ensures c !in objs
  {
  }

  lemma HeadRoleOk(objs: map<int, Obj>, c: int)
    requires c in objs
    ensures RoleOk(objs, c, HeadRole)
  {
  }

  /** An object goes: its inode and its pages become free. */
  lemma DropObject(objs: map<int, Obj>, free: set<int>, h: int)
    requires Ownership(objs, free) && h in objs && h != ROOT
    ensures Ownership(objs - {h}, free + InodesOf(h, objs[h]))
  {
    OwnershipMeansApart(objs, free);
    DropRoles(objs, free, h);
  }

  lemma DropRoles(objs: map<int, Obj>, free: set<int>, h: int)
    requires Ownership(objs, free) && h in objs && h != ROOT
    requires forall g :: g in objs && g != h ==> InodesOf(g, objs[g]) !! InodesOf(h, objs[h])
    ensures Ownership(objs - {h}, free + InodesOf(h, objs[h]))
  {
    hide Assigned, RoleOk, InodesOf;
    var roles :| Owned(objs, free, roles);
    var gone := InodesOf(h, objs[h]);
    var objs', roles' := objs - {h}, roles - gone;
    forall g | g in objs && g != h
      ensures Assigned(g, objs[g], roles')
    {
      AssignedKept(g, objs[g], roles, roles');
    }
    forall j | j in roles'
      ensures RoleOk(objs', j, roles'[j])
    {
      RoleOwner(objs, j, roles[j]);
      RoleKept(objs, objs', j, roles[j]);
    }
    AssignedOwns(h, objs[h], roles);
    assert ROOT !in gone by { RootStays(objs, free, roles, h); }
    assert Owned(objs', free + gone, roles');
  }

  lemma RootStays(objs: map<int, Obj>, free: set<int>, roles: map<int, Role>, h: int)
    requires Owned(objs, free, roles) && h in objs && h != ROOT
    ensures ROOT !in InodesOf(h, objs[h])
  {
    assert Assigned(h, objs[h], roles);
  }
}
