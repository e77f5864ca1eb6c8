/** What the operations do to the paths: they resolve as before, except the one
    that was created or removed. */
module Lookups {
  import opened Disk
  import opened IndexSpec
  import opened Owners
  import opened Blocks
  import opened Names
  import opened Directory
  import opened Path
  import opened Tree
  import opened StreamWrite
  import opened StreamFree
  import opened FileSystem
  import opened Sfs
  import opened Runs

  /** Every step from directory to directory is the same in both states. */
  ghost predicate SameWays(objs: map<int, Obj>, objs': map<int, Obj>) {
    && (forall q :: IsDir(objs, q) ==> IsDir(objs', q))
    && forall q, w {:trigger Component(objs, q, w)} :: IsDir(objs, q) && IsDir(objs, Component(objs, q, w)) ==>
         Component(objs', q, w) == Component(objs, q, w)
  }

  lemma {:induction false} WalkSame(objs: map<int, Obj>, objs': map<int, Obj>, dir: int, words: seq<string>)
    requires SameWays(objs, objs') && ThroughDirs(objs, dir, words)
    ensures ThroughDirs(objs', dir, words) && Walk(objs', dir, words) == Walk(objs, dir, words)
    decreases |words|
  {
    if words != [] {
      WalkSame(objs, objs', Component(objs, dir, words[0]), words[1..]);
    }
  }

  lemma ResolveSame(objs: map<int, Obj>, objs': map<int, Obj>, path: string)
    requires SameWays(objs, objs') && Proper(objs, path)
    ensures Proper(objs', path) && Parent(objs', path) == Parent(objs, path)
    ensures IsDir(objs, Parent(objs, path))
  {
    WalkSame(objs, objs', ROOT, ParentWords(path));
    ThroughEnds(objs, ROOT, ParentWords(path));
  }

  /** One component, after an entry was added to directory p. */
  lemma ComponentAfterCreate(objs: map<int, Obj>, objs': map<int, Obj>, p: int, e: Entry, q: int, w: string)
    requires IsDir(objs, p) && NamesOk(objs[p].entries) && NameFits(e) && !HasName(objs[p].entries, NameOf(e))
    requires p in objs' && objs'[p].entries == objs[p].entries + [e]
    requires IsDir(objs, q) && q in objs' && (q != p ==> objs'[q].entries == objs[q].entries)
    ensures Component(objs', q, w) ==
      if q == p && w == NameOf(e) && w != "." && p >= 2 then e.num else Component(objs, q, w)
  {
    AppendNames(objs[p].entries, e);
  }

  lemma ComponentAfterRemove(objs: map<int, Obj>, objs': map<int, Obj>, p: int, i: nat, q: int, w: string)
    requires IsDir(objs, p) && NamesOk(objs[p].entries) && i < |objs[p].entries|
    requires p in objs' && objs'[p].entries == RemoveAt(objs[p].entries, i)
    requires IsDir(objs, q) && q in objs' && (q != p ==> objs'[q].entries == objs[q].entries)
    ensures Component(objs', q, w) ==
      if q == p && w == NameOf(objs[p].entries[i]) && w != "." then -1 else Component(objs, q, w)
  {
    RemoveAtNames(objs[p].entries, i);
  }

  lemma NamesAndNumbers(s: Fs, p: int)
    requires Inv(s) && IsDir(s.objs, p)
    ensures NamesOk(s.objs[p].entries) && -1 !in s.objs && forall h :: h in s.objs ==> h >= ROOT
  {
    hide Ownership, BlocksOwned, Covered;
    assert DirOk(s.objs, p, s.objs[p]);
  }

  lemma CreateWays(s: Fs, kind: Kind, p: int, name: string, c: int, s': Fs)
    requires Inv(s) && CreateStep(s, kind, p, name, c, s') && c !in s.objs
    requires !HasName(s.objs[p].entries, name) && GoodName(name) && name != "."
    ensures SameWays(s.objs, s'.objs)
    ensures forall q, w :: IsDir(s.objs, q) ==>
      Component(s'.objs, q, w) == if q == p && w == name then c else Component(s.objs, q, w)
  {
    hide Inv, Component, HasName, NamesOk, Appended, GoodName, Resized, Shaped;
    DirBound(s, p);
    CreateList(s, kind, p, name, c, s');
    NamesAndNumbers(s, p);
    var e := Ent(name, c);
    forall q, w | IsDir(s.objs, q)
      ensures Component(s'.objs, q, w) == if q == p && w == name then c else Component(s.objs, q, w)
    {
      ComponentAfterCreate(s.objs, s'.objs, p, e, q, w);
    }
    AbsentComponent(s.objs, p, name);
  }

  lemma AbsentComponent(objs: map<int, Obj>, p: int, name: string)
    requires IsDir(objs, p) && !HasName(objs[p].entries, name)
    ensures name != "." ==> Component(objs, p, name) == -1
  {
  }

  /** After create or mkdir the path leads to the popped inode, and every other path
      leads where it did, or still nowhere. */
  lemma CreateThenLookup(s: Fs, kind: Kind, path: string, s': Fs)
    requires Inv(s) && CanCreate(s, path) && CreateNext(s, kind, path, s', 0)
    ensures var p, name, c := Parent(s.objs, path), Basename(path), Resolve(s'.objs, path);
      && CreateStep(s, kind, p, name, c, s')
      && forall other :: Proper(s.objs, other) ==>
           && Proper(s'.objs, other) && Parent(s'.objs, other) == Parent(s.objs, other)
           && Resolve(s'.objs, other)
              == if Parent(s.objs, other) == p && Basename(other) == name then c else Resolve(s.objs, other)
  {
    hide Inv, CreateStep, ThroughDirs, Parent, Basename, Component, HasName, GoodName;
    var p, name := Parent(s.objs, path), Basename(path);
    AbsentName(s, path);
    var c :| CreateStep(s, kind, p, name, c, s');
    CreateKeepsInv(s, kind, p, name, c, s');
    NotDot(s, p, name);
    CreateWays(s, kind, p, name, c, s');
    forall other | Proper(s.objs, other)
      ensures Proper(s'.objs, other) && Parent(s'.objs, other) == Parent(s.objs, other)
      ensures Resolve(s'.objs, other)
        == if Parent(s.objs, other) == p && Basename(other) == name then c else Resolve(s.objs, other)
    {
      ResolveSame(s.objs, s'.objs, other);
    }
  }

  /** "." and "" name no entry that is missing. */
  lemma NotDot(s: Fs, p: int, name: string)
    requires Inv(s) && IsDir(s.objs, p) && !HasName(s.objs[p].entries, name) && GoodName(name)
    ensures name != "." && name != ""
  {
    assert DirOk(s.objs, p, s.objs[p]);
    assert NameOf(s.objs[p].entries[0]) == ".";
  }

  lemma UnlinkWays(s: Fs, p: int, name: string, h: int, s': Fs)
    requires Inv(s) && UnlinkStep(s, p, name, h, s') && Component(s.objs, p, name) == h && name != "."
    ensures SameWays(s.objs, s'.objs) && IsDir(s.objs, p)
    ensures forall q, w :: IsDir(s.objs, q) ==>
      Component(s'.objs, q, w) == if q == p && w == name then -1 else Component(s.objs, q, w)
  {
    hide Inv, Component, Freed, NamesOk, Lookup, FirstNamed, RemoveAt;
    NamesAndNumbers(s, p);
    var i := FirstNamed(s.objs[p].entries, name);
    forall q, w | IsDir(s.objs, q)
      ensures Component(s'.objs, q, w) == if q == p && w == name then -1 else Component(s.objs, q, w)
    {
      ComponentAfterRemove(s.objs, s'.objs, p, i, q, w);
    }
  }

  /** After unlink the path leads nowhere, and every other path leads where it did. */
  lemma UnlinkThenLookup(s: Fs, path: string, s': Fs)
    requires Inv(s) && CanUnlink(s, path) && Resolve(s.objs, path) >= 0 && UnlinkNext(s, path, s', 0)
    ensures var p, name := Parent(s.objs, path), Basename(path);
      forall other :: Proper(s.objs, other) ==>
        && Proper(s'.objs, other) && Parent(s'.objs, other) == Parent(s.objs, other)
        && Resolve(s'.objs, other)
           == if Parent(s.objs, other) == p && Basename(other) == name then -1 else Resolve(s.objs, other)
  {
    hide Inv, ThroughDirs, Parent, Basename, Component, UnlinkStep;
    var p, name, h := Parent(s.objs, path), Basename(path), Resolve(s.objs, path);
    UnlinkName(s, path);
    UnlinkWays(s, p, name, h, s');
    forall other | Proper(s.objs, other)
      ensures Proper(s'.objs, other) && Parent(s'.objs, other) == Parent(s.objs, other)
      ensures Resolve(s'.objs, other)
        == if Parent(s.objs, other) == p && Basename(other) == name then -1 else Resolve(s.objs, other)
    {
      ResolveSame(s.objs, s'.objs, other);
    }
  }

  // Files only.

  lemma SameTreeWays(objs: map<int, Obj>, objs': map<int, Obj>)
    requires SameTree(objs, objs')
    ensures SameWays(objs, objs')
    ensures forall q, w :: IsDir(objs, q) ==> Component(objs', q, w) == Component(objs, q, w)
  {
  }

  lemma WriteSameTree(s: Fs, h: int, src: seq<Byte>, offset: nat, s': Fs)
    requires WriteStep(s, h, src, offset, s')
    ensures SameTree(s.objs, s'.objs)
  {
    hide WriteDone, Resized;
  }

  lemma SaveSameTree(s: Fs, path: string, src: seq<Byte>, offset: nat, s': Fs, r: int)
    requires |path| >= 1 && SaveNext(s, path, src, offset, s', r)
    ensures SameTree(s.objs, s'.objs)
  {
    hide WriteStep, Resolve;
    var h := Resolve(s.objs, path);
    if h >= 0 && r >= 0 {
      WriteSameTree(s, h, src, offset, s');
    } else if h >= 0 {
      var written :| WriteNext(s, h, src, offset, written, r) && Logged(written, s');
      WriteSameTree(s, h, src, offset, written);
    }
  }

  lemma CutSameTree(s: Fs, h: int, n: nat, fsize: int, s': Fs)
    requires CutStep(s, h, n, fsize, s')
    ensures SameTree(s.objs, s'.objs)
  {
    hide Resized, Freed;
  }

  /** Writing to a file and shortening one leave every path as it was. */
  lemma FileStepLookup(s: Fs, op: Op, s': Fs, r: int, path: string)
    requires Next(s, op, s', r) && (op.WriteTo? || op.Save? || op.Shorten?) && Proper(s.objs, path)
    ensures Proper(s'.objs, path) && Parent(s'.objs, path) == Parent(s.objs, path)
    ensures Resolve(s'.objs, path) == Resolve(s.objs, path)
  {
    FileStepTree(s, op, s', r);
    hide Next, Component, ThroughDirs, Basename, Parent;
    SameTreeWays(s.objs, s'.objs);
    ResolveSame(s.objs, s'.objs, path);
  }

  lemma FileStepTree(s: Fs, op: Op, s': Fs, r: int)
    requires Next(s, op, s', r) && (op.WriteTo? || op.Save? || op.Shorten?)
    ensures SameTree(s.objs, s'.objs)
  {
    hide WriteStep, CutStep, SaveNext, Resolve, SameTree;
    match op {
      case WriteTo(h, src, offset) => WriteSameTree(s, h, src, offset, s');
      case Save(path, src, offset) => SaveSameTree(s, path, src, offset, s', r);
      case Shorten(path, offset) =>
        if Resolve(s.objs, path) >= 0 {
          CutSameTree(s, Resolve(s.objs, path), offset / 512 + 1, Min(offset, FCONTENT_MAX_SIZE), s');
        } else {
          SameTreeItself(s.objs);
        }
    }
  }

  lemma SameTreeItself(objs: map<int, Obj>)
    ensures SameTree(objs, objs)
  {
  }
}
