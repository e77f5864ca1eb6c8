/** Names in a directory and how C compares them. */
module Names {
  import opened Disk
  import opened IndexSpec

  const NAME_MAX := 13

  /** di_ent_c: 14 bytes are copied and the last one is zeroed, so 13 characters stay. */
  function DirEnt(filename: string, inum: int): Entry {
    Ent(Take(filename, NAME_MAX), inum)
  }

  /** strncmp(a, b, n) == 0 for strings without NUL inside. */
  predicate StrnEq(a: string, b: string, n: nat) {
    Take(a, n) == Take(b, n)
  }

  function NameOf(e: Entry): string {
    if e.Ent? then e.name else ""
  }

  /** A name that can be a component of a path and fits into an entry. */
  predicate GoodName(name: string) {
    && 1 <= |name| <= NAME_MAX
    && forall k :: 0 <= k < |name| ==> name[k] != '/' && name[k] != '\0'
  }

  predicate NameFits(e: Entry) {
    e.Ent? && GoodName(e.name)
  }

  ghost predicate NamesOk(entries: seq<Entry>) {
    && (forall i {:trigger entries[i]} :: 0 <= i < |entries| ==> NameFits(entries[i]))
    && (forall i, j {:trigger entries[i], entries[j]} :: 0 <= i < j < |entries| ==>
        NameOf(entries[i]) != NameOf(entries[j]))
  }

  /** Position of the first entry with a name, or the length. */
  function FirstNamed(entries: seq<Entry>, name: string): (i: nat)
    ensures i <= |entries|
    ensures i < |entries| ==> NameOf(entries[i]) == name
    ensures forall k :: 0 <= k < i ==> NameOf(entries[k]) != name
  {
    if entries == [] then 0
    else if NameOf(entries[0]) == name then 0
    else 1 + FirstNamed(entries[1..], name)
  }

  predicate HasName(entries: seq<Entry>, name: string) {
    FirstNamed(entries, name) < |entries|
  }

  function Lookup(entries: seq<Entry>, name: string): int {
    var i := FirstNamed(entries, name);
    if i < |entries| then entries[i].num else -1
  }

  /** With distinct names the entry is the only one. */
  lemma FirstNamedIs(entries: seq<Entry>, name: string, i: nat)
    requires NamesOk(entries) && i < |entries| && NameOf(entries[i]) == name
    ensures FirstNamed(entries, name) == i
  {
  }

  /** Comparing 14 characters with a stored name is comparing the whole name. */
  lemma StoredNameEq(name: string, stored: string)
    requires |stored| <= NAME_MAX
    ensures StrnEq(name, stored, 14) <==> name == stored
    ensures StrnEq(stored, name, 13) <==> Take(name, NAME_MAX) == stored
  {
  }

  /** The last entry moves into the gap. */
  function RemoveAt(entries: seq<Entry>, i: nat): seq<Entry>
    requires i < |entries|
  {
    entries[i := entries[|entries| - 1]][..|entries| - 1]
  }

  lemma Cancel<T>(a: multiset<T>, b: multiset<T>, y: T)
    requires a + multiset{y} == b + multiset{y}
    ensures a == b
  {
    assert a == (a + multiset{y}) - multiset{y};
    assert b == (b + multiset{y}) - multiset{y};
  }

  lemma SplitLast<T>(s: seq<T>)
    requires s != []
    ensures multiset(s) == multiset(s[..|s| - 1]) + multiset{s[|s| - 1]}
  {
    assert s == s[..|s| - 1] + [s[|s| - 1]];
  }

  /** Removing loses exactly the one entry. */
  lemma RemoveAtMultiset(entries: seq<Entry>, i: nat)
    requires i < |entries|
    ensures multiset(RemoveAt(entries, i)) == multiset(entries) - multiset{entries[i]}
  {
    var last := entries[|entries| - 1];
    var left := multiset(entries) - multiset{entries[i]};
    SplitLast(entries[i := last]);
    assert multiset(entries[i := last]) == left + multiset{last};
    Cancel(multiset(RemoveAt(entries, i)), left, last);
  }

  /** Names stay distinct, the other names still lead to the same inodes, the removed one is gone. */
  lemma RemoveAtNames(entries: seq<Entry>, i: nat)
    requires NamesOk(entries) && i < |entries|
    ensures NamesOk(RemoveAt(entries, i))
    ensures !HasName(RemoveAt(entries, i), NameOf(entries[i]))
    ensures forall name :: name != NameOf(entries[i]) ==> Lookup(RemoveAt(entries, i), name) == Lookup(entries, name)
  {
    var rest := RemoveAt(entries, i);
    forall k | 0 <= k < |rest|
      ensures rest[k] == entries[if k == i then |entries| - 1 else k]
    {
    }
    forall name | name != NameOf(entries[i])
      ensures Lookup(rest, name) == Lookup(entries, name)
    {
      RemoveAtOther(entries, i, name);
    }
  }

  lemma RemoveAtOther(entries: seq<Entry>, i: nat, name: string)
    requires NamesOk(entries) && i < |entries| && name != NameOf(entries[i]) && NamesOk(RemoveAt(entries, i))
    ensures Lookup(RemoveAt(entries, i), name) == Lookup(entries, name)
  {
    var rest := RemoveAt(entries, i);
    var j := FirstNamed(entries, name);
    if j < |entries| {
      var k := if j == |entries| - 1 then i else j;
      assert rest[k] == entries[j];
      FirstNamedIs(rest, name, k);
    } else {
      assert forall k :: 0 <= k < |rest| ==> rest[k] == entries[if k == i then |entries| - 1 else k];
    }
  }

  lemma AppendNames(entries: seq<Entry>, e: Entry)
    requires NamesOk(entries) && NameFits(e) && !HasName(entries, NameOf(e))
    ensures NamesOk(entries + [e])
    ensures Lookup(entries + [e], NameOf(e)) == e.num
    ensures forall name :: name != NameOf(e) ==> Lookup(entries + [e], name) == Lookup(entries, name)
  {
    var longer := entries + [e];
    FirstNamedIs(longer, NameOf(e), |entries|);
    forall name | name != NameOf(e)
      ensures Lookup(longer, name) == Lookup(entries, name)
    {
      var j := FirstNamed(entries, name);
      if j < |entries| {
        FirstNamedIs(longer, name, j);
      } else {
        assert forall k :: 0 <= k < |entries| ==> longer[k] == entries[k];
      }
    }
  }
}
