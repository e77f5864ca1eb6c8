/** Every object has exactly one name: the entries that lead to it from the root. */
module Naming {
  import opened Disk
  import opened Names
  import opened Directory
  import opened Path
  import opened Tree

  /** A component that is not a dot entry. */
  predicate PlainWord(w: string) {
    GoodName(w) && w != "." && w != ".."
  }

  /** The words lead from the root through directories to h. */
  ghost predicate Leads(objs: map<int, Obj>, words: seq<string>, h: int) {
    && (forall k :: 0 <= k < |words| ==> PlainWord(words[k]))
    && (words != [] ==> ThroughDirs(objs, ROOT, words[..|words| - 1]))
    && Walk(objs, ROOT, words) == h
  }

  function PathOf(words: seq<string>): (path: string)
    ensures |path| >= 1
  {
    if words == [] then "/" else "/" + Join(words)
  }

  /** The path that is made of these words leads to h, and no other words do. */
  ghost predicate NamedBy(objs: map<int, Obj>, words: seq<string>, h: int) {
    && Leads(objs, words, h)
    && Proper(objs, PathOf(words)) && Resolve(objs, PathOf(words)) == h
    && forall other :: Leads(objs, other, h) ==> other == words
  }

  // There is a name.

  lemma {:induction false} ThroughAll(objs: map<int, Obj>, dir: int, words: seq<string>)
    requires words != [] ==> ThroughDirs(objs, dir, words[..|words| - 1])
    requires IsDir(objs, Walk(objs, dir, words))
    ensures ThroughDirs(objs, dir, words)
    decreases |words|
  {
    if |words| == 1 {
      assert ThroughDirs(objs, dir, words[..0]);
      assert Walk(objs, dir, words) == Walk(objs, Component(objs, dir, words[0]), words[1..]);
    } else if |words| > 1 {
      assert words[..|words| - 1][1..] == words[1..][..|words| - 2];
      ThroughAll(objs, Component(objs, dir, words[0]), words[1..]);
    }
  }

  lemma LeadsOn(objs: map<int, Obj>, words: seq<string>, p: int, w: string)
    requires Leads(objs, words, p) && IsDir(objs, p) && PlainWord(w)
    ensures Leads(objs, words + [w], Component(objs, p, w))
  {
    ThroughAll(objs, ROOT, words);
    WalkSnoc(objs, ROOT, words, w);
    assert (words + [w])[..|words|] == words;
  }

  /** The entry that names an object in its parent. */
  lemma EntryOf(objs: map<int, Obj>, h: int) returns (w: string)
    requires TreeOk(objs) && h in objs && h != ROOT && objs[h].pno >= ROOT
    ensures IsDir(objs, objs[h].pno) && PlainWord(w) && Component(objs, objs[h].pno, w) == h
  {
    assert Named(objs, h, objs[h]);
    var p := objs[h].pno;
    assert DirOk(objs, p, objs[p]);
    var e := objs[p].entries;
    var i :| 2 <= i < |e| && e[i].num == h;
    w := NameOf(e[i]);
    FirstNamedIs(e, w, i);
    assert NameOf(e[0]) == "." && NameOf(e[1]) == "..";
  }

  lemma {:induction false} FindName(objs: map<int, Obj>, rank: map<int, nat>, h: int) returns (words: seq<string>)
    requires TreeOk(objs) && Ranked(objs, rank) && h in objs && forall g :: g in objs ==> g >= ROOT
    ensures Leads(objs, words, h)
    decreases rank[h]
  {
    if h == ROOT {
      words := [];
    } else {
      hide TreeOk;
      words := FindName(objs, rank, objs[h].pno);
      var w := EntryOf(objs, h);
      LeadsOn(objs, words, objs[h].pno, w);
      words := words + [w];
    }
  }

  // There is no other.

  /** A word that is no dot entry leads to a child. */
  lemma ChildOf(objs: map<int, Obj>, p: int, w: string, h: int)
    requires TreeOk(objs) && IsDir(objs, p) && p >= ROOT && PlainWord(w) && Component(objs, p, w) == h && h in objs
      && h >= 0
    ensures h != ROOT && objs[h].pno == p
    ensures var e := objs[p].entries; exists i :: 2 <= i < |e| && e[i].num == h && NameOf(e[i]) == w
  {
    assert DirOk(objs, p, objs[p]);
    var e := objs[p].entries;
    var i := FirstNamed(e, w);
    assert NameOf(e[0]) == "." && NameOf(e[1]) == "..";
    assert i >= 2 && e[i].num == h && ChildOk(objs, p, h);
  }

  lemma SameWord(objs: map<int, Obj>, p: int, w: string, w': string, h: int)
    requires TreeOk(objs) && IsDir(objs, p) && p >= ROOT && PlainWord(w) && PlainWord(w') && h in objs && h >= 0
    requires Component(objs, p, w) == h && Component(objs, p, w') == h
    ensures w == w'
  {
    ChildOf(objs, p, w, h);
    ChildOf(objs, p, w', h);
    assert DirOk(objs, p, objs[p]);
  }

  lemma {:induction false} ThroughShorter(objs: map<int, Obj>, dir: int, words: seq<string>)
    requires ThroughDirs(objs, dir, words) && words != []
    ensures ThroughDirs(objs, dir, words[..|words| - 1])
    decreases |words|
  {
    if |words| > 1 {
      assert words[..|words| - 1][1..] == words[1..][..|words| - 2];
      ThroughShorter(objs, Component(objs, dir, words[0]), words[1..]);
    }
  }

  lemma LeadsBack(objs: map<int, Obj>, words: seq<string>, h: int)
    requires Leads(objs, words, h) && words != []
    ensures var front, w := words[..|words| - 1], words[|words| - 1];
      var p := Walk(objs, ROOT, front);
      IsDir(objs, p) && Leads(objs, front, p) && PlainWord(w) && Component(objs, p, w) == h
  {
    var front, w := words[..|words| - 1], words[|words| - 1];
    ThroughEnds(objs, ROOT, front);
    if front != [] {
      ThroughShorter(objs, ROOT, front);
    }
    WalkSnoc(objs, ROOT, front, w);
    assert front + [w] == words;
  }

  lemma {:induction false} OneName(objs: map<int, Obj>, words: seq<string>, other: seq<string>, h: int)
    requires TreeOk(objs) && h in objs && forall g :: g in objs ==> g >= ROOT
    requires Leads(objs, words, h) && Leads(objs, other, h)
    ensures words == other
    decreases |words|
  {
    hide TreeOk, PlainWord;
    if words != [] {
      LeadsBack(objs, words, h);
      var p := Walk(objs, ROOT, words[..|words| - 1]);
      ChildOf(objs, p, words[|words| - 1], h);
      if other != [] {
        LeadsBack(objs, other, h);
        ChildOf(objs, Walk(objs, ROOT, other[..|other| - 1]), other[|other| - 1], h);
        OneName(objs, words[..|words| - 1], other[..|other| - 1], p);
        SameWord(objs, p, words[|words| - 1], other[|other| - 1], h);
        assert words == words[..|words| - 1] + [words[|words| - 1]];
        assert other == other[..|other| - 1] + [other[|other| - 1]];
      }
    } else if other != [] {
      LeadsBack(objs, other, h);
      ChildOf(objs, Walk(objs, ROOT, other[..|other| - 1]), other[|other| - 1], h);
    }
  }

  // As a path.

  /** Words that make a path: no slash, no NUL, and something at the end. */
  predicate PathWords(words: seq<string>) {
    && |words| >= 1 && words[|words| - 1] != ""
    && forall k :: 0 <= k < |words| ==> NoSlash(words[k]) && NoNul(words[k])
  }

  lemma {:induction false} JoinEnds(words: seq<string>)
    requires PathWords(words)
    ensures var s := Join(words); |s| >= 1 && s[|s| - 1] != '/' && NoNul(s)
  {
    if |words| > 1 {
      JoinEnds(words[1..]);
      var w, rest := words[0], Join(words[1..]);
      assert Join(words) == w + "/" + rest;
      assert NoNul(w) && NoNul(rest);
    }
  }

  lemma WordsOfPath(words: seq<string>)
    requires PathWords(words)
    ensures Words("/" + Join(words)) == words && Words("/" + Join(words) + "/") == words
    ensures NoNul("/" + Join(words))
  {
    JoinEnds(words);
    SplitJoin(words);
    var path := "/" + Join(words);
    assert Stripped(path) == Join(words);
    assert Stripped(path + "/") == Join(words);
  }

  /** A path leads along its words, with a trailing slash or without. */
  lemma PathWalks(objs: map<int, Obj>, words: seq<string>)
    requires PathWords(words)
    ensures var path, front := "/" + Join(words), words[..|words| - 1];
      && Parent(objs, path) == Walk(objs, ROOT, front) && Parent(objs, path + "/") == Walk(objs, ROOT, front)
      && Resolve(objs, path) == Walk(objs, ROOT, words) && Resolve(objs, path + "/") == Walk(objs, ROOT, words)
      && (Proper(objs, path) <==> ThroughDirs(objs, ROOT, front))
  {
    hide Walk, ThroughDirs, Words, Component, PathWords;
    WordsOfPath(words);
    LastNotEmpty(words);
    var front, w := words[..|words| - 1], words[|words| - 1];
    WalkSnoc(objs, ROOT, front, w);
    assert front + [w] == words;
  }

  lemma LastNotEmpty(words: seq<string>)
    requires PathWords(words)
    ensures |words| >= 1 && words[|words| - 1] != ""
  {
  }

  /** One trailing slash is ignored. */
  lemma TrailingSlash(objs: map<int, Obj>, path: string)
    requires |path| >= 2 && path[|path| - 1] != '/'
    ensures Proper(objs, path + "/") <==> Proper(objs, path)
    ensures Resolve(objs, path + "/") == Resolve(objs, path) && Parent(objs, path + "/") == Parent(objs, path)
  {
    hide ThroughDirs, Walk, Split, Component;
    var longer := path + "/";
    assert Stripped(longer) == path[1..] == Stripped(path);
    assert NoNul(longer) <==> NoNul(path) by {
      assert forall k :: 0 <= k < |path| ==> longer[k] == path[k];
    }
  }

  lemma RootPath(objs: map<int, Obj>)
    requires IsDir(objs, ROOT)
    ensures Proper(objs, "/") && Resolve(objs, "/") == ROOT
  {
    assert Stripped("/") == "" && Split("") == [""];
  }

  lemma GoodWords(words: seq<string>)
    requires words != [] && forall k :: 0 <= k < |words| ==> GoodName(words[k])
    ensures PathWords(words)
  {
  }

  lemma PathLeads(objs: map<int, Obj>, words: seq<string>, h: int)
    requires Leads(objs, words, h) && IsDir(objs, ROOT)
    ensures Proper(objs, PathOf(words)) && Resolve(objs, PathOf(words)) == h
  {
    if words == [] {
      RootPath(objs);
    } else {
      GoodWords(words);
      PathWalks(objs, words);
    }
  }

  lemma EveryObjectNamed(objs: map<int, Obj>, h: int)
    requires TreeOk(objs) && h in objs && forall g :: g in objs ==> g >= ROOT
    ensures exists words :: NamedBy(objs, words, h)
  {
    var rank :| Ranked(objs, rank);
    var words := FindName(objs, rank, h);
    PathLeads(objs, words, h);
    forall other | Leads(objs, other, h)
      ensures other == words
    {
      OneName(objs, words, other, h);
    }
    assert NamedBy(objs, words, h);
  }
}
