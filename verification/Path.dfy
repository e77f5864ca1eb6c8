/** From a path to an inode: the in-place tokenizer (path.c:27-50). */
module Path {
  import opened Disk
  import opened Owners
  import opened Attributes
  import opened Names
  import opened Directory

  // A path is its components.

  /** Characters before the first slash. */
  function Word(s: string): (n: nat)
    ensures n <= |s|
    ensures n < |s| ==> s[n] == '/'
    ensures forall k :: 0 <= k < n ==> s[k] != '/'
  {
    if s == "" || s[0] == '/' then 0 else 1 + Word(s[1..])
  }

  function Split(s: string): (words: seq<string>)
    ensures |words| >= 1
    decreases |s|
  {
    var n := Word(s);
    if n == |s| then [s] else [s[..n]] + Split(s[n + 1..])
  }

  function Join(words: seq<string>): string
    requires |words| >= 1
  {
    if |words| == 1 then words[0] else words[0] + "/" + Join(words[1..])
  }

  predicate NoSlash(s: string) { forall k :: 0 <= k < |s| ==> s[k] != '/' }

  lemma WordOfWord(w: string, rest: string)
    requires NoSlash(w)
    ensures Word(w) == |w| && Word(w + "/" + rest) == |w|
  {
    var s := w + "/" + rest;
    assert s[|w|] == '/' && forall k :: 0 <= k < |w| ==> s[k] == w[k];
  }

  lemma {:induction false} SplitJoin(words: seq<string>)
    requires |words| >= 1 && forall k :: 0 <= k < |words| ==> NoSlash(words[k])
    ensures Split(Join(words)) == words
  {
    if |words| == 1 {
      WordOfWord(words[0], "");
    } else {
      var rest := Join(words[1..]);
      WordOfWord(words[0], rest);
      SplitJoin(words[1..]);
      var s := words[0] + "/" + rest;
      assert s[..|words[0]|] == words[0] && s[|words[0]| + 1..] == rest;
    }
  }

  lemma {:induction false} SplitStep(s: string)
    ensures var n := Word(s);
      Split(s) == if n == |s| then [s] else [s[..n]] + Split(s[n + 1..])
  {
  }

  lemma {:induction false} JoinStep(w: string, words: seq<string>)
    requires |words| >= 1
    ensures Join([w]) == w && Join([w] + words) == w + "/" + Join(words)
  {
    assert ([w] + words)[1..] == words;
  }

  lemma {:induction false} JoinSplit(s: string)
    ensures Join(Split(s)) == s
    decreases |s|
  {
    hide Split, Join;
    SplitStep(s);
    var n := Word(s);
    if n < |s| {
      var w, rest := s[..n], s[n + 1..];
      JoinSplit(rest);
      JoinStep(w, Split(rest));
      assert s == w + "/" + rest;
    } else {
      JoinStep(s, [s]);
    }
  }

  // Resolving components one after the other.

  function Walk(objs: map<int, Obj>, dir: int, words: seq<string>): int
    decreases |words|
  {
    if words == [] then dir else Walk(objs, Component(objs, dir, words[0]), words[1..])
  }

  predicate IsDir(objs: map<int, Obj>, h: int) { h in objs && objs[h].kind.Dir? }

  /** Every component is looked up in a directory, and leads to one. */
  predicate ThroughDirs(objs: map<int, Obj>, dir: int, words: seq<string>)
    decreases |words|
  {
    IsDir(objs, dir) && (words != [] ==> ThroughDirs(objs, Component(objs, dir, words[0]), words[1..]))
  }

  lemma {:induction false} WalkSnoc(objs: map<int, Obj>, dir: int, words: seq<string>, w: string)
    ensures Walk(objs, dir, words + [w]) == Component(objs, Walk(objs, dir, words), w)
    decreases |words|
  {
    if words == [] {
      assert [w][1..] == [];
    } else {
      assert (words + [w])[1..] == words[1..] + [w];
      WalkSnoc(objs, Component(objs, dir, words[0]), words[1..], w);
    }
  }

  lemma {:induction false} ThroughPrefix(objs: map<int, Obj>, dir: int, words: seq<string>, n: nat)
    requires ThroughDirs(objs, dir, words) && n <= |words|
    ensures IsDir(objs, Walk(objs, dir, words[..n]))
    decreases n
  {
    if n > 0 {
      assert words[..n][1..] == words[1..][..n - 1];
      ThroughPrefix(objs, Component(objs, dir, words[0]), words[1..], n - 1);
    }
  }

  lemma {:induction false} ThroughEnds(objs: map<int, Obj>, dir: int, words: seq<string>)
    requires ThroughDirs(objs, dir, words)
    ensures IsDir(objs, Walk(objs, dir, words))
    decreases |words|
  {
    if words != [] {
      ThroughEnds(objs, Component(objs, dir, words[0]), words[1..]);
    }
  }

  /** The path as the loop sees it: the leading slash and one trailing slash gone. */
  function Stripped(path: string): string
    requires |path| >= 1
  {
    var cut := if path[|path| - 1] == '/' then path[..|path| - 1] else path;
    if cut == "" then "" else cut[1..]
  }

  function Words(path: string): (words: seq<string>)
    requires |path| >= 1
    ensures |words| >= 1
  {
    Split(Stripped(path))
  }

  /** All components but the last. */
  function ParentWords(path: string): seq<string>
    requires |path| >= 1
  {
    Words(path)[..|Words(path)| - 1]
  }

  function Basename(path: string): string
    requires |path| >= 1
  {
    Words(path)[|Words(path)| - 1]
  }

  function Parent(objs: map<int, Obj>, path: string): int
    requires |path| >= 1
  {
    Walk(objs, ROOT, ParentWords(path))
  }

  /** Where a path leads; the last component may be empty or not exist. */
  function Resolve(objs: map<int, Obj>, path: string): int
    requires |path| >= 1
  {
    if Basename(path) == "" then Parent(objs, path) else Component(objs, Parent(objs, path), Basename(path))
  }

  /** The path is absolute, a C string, and its parent resolves. */
  predicate Proper(objs: map<int, Obj>, path: string) {
    && |path| >= 1 && path[0] == '/'
    && (forall k :: 0 <= k < |path| ==> path[k] != '\0')
    && ThroughDirs(objs, ROOT, ParentWords(path))
  }

  predicate NoNul(s: string) { forall k :: 0 <= k < |s| ==> s[k] != '\0' }

  lemma {:induction false} WordsPlain(s: string)
    requires NoNul(s)
    ensures forall i :: 0 <= i < |Split(s)| ==> NoSlash(Split(s)[i]) && NoNul(Split(s)[i])
    decreases |s|
  {
    var n := Word(s);
    if n < |s| {
      WordsPlain(s[n + 1..]);
    }
  }

  /** A component of a path has neither slash nor NUL. */
  lemma BasenamePlain(path: string)
    requires |path| >= 1 && NoNul(path)
    ensures NoSlash(Basename(path)) && NoNul(Basename(path))
  {
    WordsPlain(Stripped(path));
  }

  /** strrchr(path, '/') + 1, or the whole string. */
  function AfterLastSlash(s: string): string
    decreases |s|
  {
    var n := Word(s);
    if n == |s| then s else AfterLastSlash(s[n + 1..])
  }

  lemma {:induction false} LastWord(s: string)
    ensures AfterLastSlash(s) == Split(s)[|Split(s)| - 1]
    decreases |s|
  {
    var n := Word(s);
    if n < |s| {
      LastWord(s[n + 1..]);
    }
  }

  /** sfs.c takes the name from the last slash, path.c from the tokens: the same without a trailing slash. */
  lemma {:induction false} BasenameIs(path: string)
    requires |path| >= 1 && path[0] == '/' && path[|path| - 1] != '/'
    ensures AfterLastSlash(path) == Basename(path)
  {
    hide Split;
    assert Word(path) == 0 && AfterLastSlash(path) == AfterLastSlash(path[1..]);
    assert Stripped(path) == path[1..];
    LastWord(path[1..]);
  }

  // The tokenizer. A C string in the buffer reaches to the next NUL.

  function CStr(a: seq<char>, from: nat): string
    requires from <= |a|
    decreases |a| - from
  {
    if from == |a| || a[from] == '\0' then "" else [a[from]] + CStr(a, from + 1)
  }

  lemma {:induction false} CStrIs(a: seq<char>, from: nat, to: nat)
    requires from <= to < |a| && a[to] == '\0' && forall k :: from <= k < to ==> a[k] != '\0'
    ensures CStr(a, from) == a[from..to]
    decreases |a| - from
  {
    if from < to {
      CStrIs(a, from + 1, to);
      assert a[from..to] == [a[from]] + a[from + 1..to];
    }
  }

  /** What the buffer holds while `tail` advances: from `head` on it is still the path. */
  ghost predicate Cursor(a: seq<char>, s: string, head: nat, tail: nat) {
    && |a| >= |s| + 2 && 1 <= head <= tail <= |s| + 1
    && a[head..|s| + 1] == s[head - 1..]
    && a[|s| + 1] == '\0'
    && (forall k :: 0 <= k < |s| ==> s[k] != '\0')
    && NoSlash(s[head - 1..tail - 1])
  }

  lemma CursorAt(a: seq<char>, s: string, head: nat, tail: nat)
    requires Cursor(a, s, head, tail)
    ensures 1 <= head <= tail <= |s| + 1 && tail < |a|
    ensures tail <= |s| ==> a[tail] == s[tail - 1] && a[tail] != '\0'
    ensures tail == |s| + 1 ==>
      a[tail] == '\0' && CStr(a, head) == s[head - 1..] && Split(s[head - 1..]) == [s[head - 1..]]
    ensures tail <= |s| && s[tail - 1] != '/' ==> Cursor(a, s, head, tail + 1)
  {
    if tail <= |s| {
      assert a[head..|s| + 1][tail - head] == s[head - 1..][tail - head];
      assert s[head - 1..tail] == s[head - 1..tail - 1] + [s[tail - 1]];
    } else {
      assert forall k :: head <= k <= |s| ==> a[k] == a[head..|s| + 1][k - head] == s[head - 1..][k - head];
      CStrIs(a, head, tail);
      assert s[head - 1..tail - 1] == s[head - 1..];
      WordOfWord(s[head - 1..], "");
    }
  }

  /** Cutting at a slash ends the component and leaves the rest of the path. */
  lemma CursorCut(a: seq<char>, s: string, head: nat, tail: nat)
    requires Cursor(a, s, head, tail) && tail <= |s| && s[tail - 1] == '/'
    ensures CStr(a[tail := '\0'], head) == s[head - 1..tail - 1]
    ensures Split(s[head - 1..]) == [s[head - 1..tail - 1]] + Split(s[tail..])
    ensures Cursor(a[tail := '\0'], s, tail + 1, tail + 1)
  {
    var cut := a[tail := '\0'];
    assert forall k :: head <= k <= |s| ==> a[k] == a[head..|s| + 1][k - head] == s[head - 1..][k - head];
    CStrIs(cut, head, tail);
    assert cut[head..tail] == s[head - 1..tail - 1];
    var rest, w := s[head - 1..], s[head - 1..tail - 1];
    WordOfWord(w, s[tail..]);
    assert rest == w + "/" + s[tail..];
    assert rest[..|w|] == w && rest[|w| + 1..] == s[tail..];
    assert cut[tail + 1..|s| + 1] == s[tail..];
  }

  /** The components `done` have been walked, the rest of the path is still to come. */
  ghost predicate Walked(objs: map<int, Obj>, s: string, head: nat, inum: int, done: seq<string>) {
    && 1 <= head <= |s| + 1
    && Split(s) == done + Split(s[head - 1..])
    && inum == Walk(objs, ROOT, done)
    && ThroughDirs(objs, ROOT, Split(s)[..|Split(s)| - 1])
  }

  lemma WalkedDir(objs: map<int, Obj>, s: string, head: nat, inum: int, done: seq<string>)
    requires Walked(objs, s, head, inum, done)
    ensures IsDir(objs, inum)
  {
    var words := Split(s)[..|Split(s)| - 1];
    assert words[..|done|] == done;
    ThroughPrefix(objs, ROOT, words, |done|);
  }

  lemma WalkedOn(objs: map<int, Obj>, s: string, head: nat, inum: int, done: seq<string>, tail: nat)
    requires Walked(objs, s, head, inum, done) && head <= tail <= |s|
    requires Split(s[head - 1..]) == [s[head - 1..tail - 1]] + Split(s[tail..])
    ensures Walked(objs, s, tail + 1, Component(objs, inum, s[head - 1..tail - 1]), done + [s[head - 1..tail - 1]])
  {
    var w := s[head - 1..tail - 1];
    WalkSnoc(objs, ROOT, done, w);
    assert done + ([w] + Split(s[tail..])) == (done + [w]) + Split(s[tail..]);
  }

  lemma WalkedAll(objs: map<int, Obj>, path: string, s: string, head: nat, inum: int, done: seq<string>)
    requires |path| >= 1 && s == Stripped(path) && Walked(objs, s, head, inum, done)
    requires Split(s[head - 1..]) == [s[head - 1..]]
    ensures inum == Parent(objs, path) && Basename(path) == s[head - 1..]
  {
  }

  lemma WalkStarts(objs: map<int, Obj>, path: string)
    requires Proper(objs, path)
    ensures Walked(objs, Stripped(path), 1, ROOT, [])
  {
  }

  const PATH_MAX := 4096

  ghost predicate AllNamesOk(objs: map<int, Obj>) {
    forall h :: h in objs && objs[h].kind.Dir? ==> NamesOk(objs[h].entries)
  }

  /** strcpy into the buffer, then the trailing slash is cut. */
  method CopyPath(path: string) returns (dup: array<char>)
    requires 1 <= |path| < PATH_MAX && path[0] == '/' && forall k :: 0 <= k < |path| ==> path[k] != '\0'
    ensures fresh(dup) && Cursor(dup[..], Stripped(path), 1, 1)
  {
    dup := new char[PATH_MAX](_ => '\0');
    forall k | 0 <= k < |path| {
      dup[k] := path[k];
    }
    dup[|path|] := '\0';
    if dup[|path| - 1] == '/' {
      dup[|path| - 1] := '\0';
    }
    ghost var s := Stripped(path);
    assert forall k :: 0 <= k < |s| ==> s[k] == path[k + 1];
    assert dup[1..|s| + 1] == s;
  }

  /** One turn of the loop: a slash ends a component, which is resolved. */
  method Advance(m: Machine, dup: array<char>, head: nat, tail: nat, inum: int, ghost s: string,
                 ghost done: seq<string>)
      returns (head': nat, inum': int, ghost done': seq<string>)
    requires Indexed(m) && AllNamesOk(m.objs) && tail < dup.Length
    requires Cursor(dup[..], s, head, tail) && Walked(m.objs, s, head, inum, done) && tail <= |s|
    modifies m`nodeBuf, m.d, dup
    ensures head' <= tail + 1 && Cursor(dup[..], s, head', tail + 1) && Walked(m.objs, s, head', inum', done')
  {
    hide Cursor, Walked, DiskOk, Rep, Ownership, Split, CStr;
    head', inum', done' := head, inum, done;
    ghost var a := dup[..];
    CursorAt(a, s, head, tail);
    if dup[tail] == '/' {
      dup[tail] := '\0';
      assert dup[..] == a[tail := '\0'];
      CursorCut(a, s, head, tail);
      WalkedDir(m.objs, s, head, inum, done);
      WalkedOn(m.objs, s, head, inum, done, tail);
      inum' := PathElem(m, CStr(dup[..], head), inum);
      head' := tail + 1;
      done' := done + [s[head - 1..tail - 1]];
    }
  }

  method PathToInum(m: Machine, path: string) returns (inum: int, parent: int)
    requires Indexed(m) && AllNamesOk(m.objs)
    requires Proper(m.objs, path) && |path| < PATH_MAX
    modifies m`nodeBuf, m.d
    ensures parent == Parent(m.objs, path)
    ensures inum == Resolve(m.objs, path)
  {
    hide Cursor, Walked, DiskOk, Rep, Ownership, Stripped, Split, Parent, Basename;
    inum := ROOT;
    ghost var s, done := Stripped(path), [];
    WalkStarts(m.objs, path);
    var dup := CopyPath(path);
    var head, tail := 1, 1;
    CursorAt(dup[..], s, head, tail);
    while dup[tail] != '\0'
      invariant 1 <= tail < dup.Length && tail <= |s| + 1 && Cursor(dup[..], s, head, tail)
      invariant dup[tail] == '\0' <==> tail == |s| + 1
      invariant Walked(m.objs, s, head, inum, done)
      decreases |s| - tail
    {
      head, inum, done := Advance(m, dup, head, tail, inum, s, done);
      tail := tail + 1;
      CursorAt(dup[..], s, head, tail);
    }
    CursorAt(dup[..], s, head, tail);
    WalkedAll(m.objs, path, s, head, inum, done);
    WalkedDir(m.objs, s, head, inum, done);
    parent := inum;
    if head != tail {
      inum := PathElem(m, CStr(dup[..], head), inum);
    }
  }
}
