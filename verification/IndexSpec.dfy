/** What an inode index stores: the shape of the three levels, how an object
    lies in the inode slots, and what a resize does to the pages.

    A file has 24 direct slots and 32 per page, a directory 6 and 8. Leaf pages
    are numbered through: 0..3 hang off the head, page 4 + 64*e + j is number j
    of extension page e. */
module IndexSpec {
  import opened Disk

  function Direct(kind: Kind): int { if kind.File? then 24 else 6 }

  function PerPage(kind: Kind): int { if kind.File? then 32 else 8 }

  /** Where leaf page k starts in the list. */
  function Start(kind: Kind, k: int): int { if kind.File? then 24 + 32 * k else 6 + 8 * k }

  function MaxEntries(kind: Kind): int { if kind.File? then FENTRY_MAX_SIZE else DENTRY_MAX_SIZE - 1 }

  function LeafCount(kind: Kind, n: nat): nat { if kind.File? then (n + 7) / 32 else (n + 1) / 8 }

  function ExtCount(leaves: nat): nat { (leaves + 59) / 64 }

  /** Inodes needed besides the head. */
  function Need(kind: Kind, n: nat): nat { LeafCount(kind, n) + ExtCount(LeafCount(kind, n)) }

  /** A page is in use exactly when it starts inside the list. */
  lemma LeafCountExact(kind: Kind, n: nat, k: nat)
    ensures Start(kind, k) < n <==> k < LeafCount(kind, n)
  {
  }

  lemma ExtCountExact(leaves: nat, e: nat)
    ensures 4 + 64 * e < leaves <==> e < ExtCount(leaves)
  {
  }

  lemma NeedMonotonic(kind: Kind, m: nat, n: nat)
    requires m <= n
    ensures LeafCount(kind, m) <= LeafCount(kind, n) && Need(kind, m) <= Need(kind, n)
  {
  }

  function CeilDiv(a: nat, b: nat): nat
    requires b > 0
  {
    (a + b - 1) / b
  }

  lemma ExtCountFormula(kind: Kind, n: nat)
    ensures ExtCount(LeafCount(kind, n)) ==
      CeilDiv(Max(n - Direct(kind) - 4 * PerPage(kind), 0), 64 * PerPage(kind))
  {
  }

  /** The closed formula, from the numbers of the design: one page per PerPage
      entries past the direct slots, plus one extension page per 64 pages past the fourth. */
  lemma NeedFormula(kind: Kind, n: nat)
    ensures
      var past := Max(n - Direct(kind), 0);
      var deep := Max(n - Direct(kind) - 4 * PerPage(kind), 0);
      Need(kind, n) == Min(4, CeilDiv(past, PerPage(kind)))
                       + CeilDiv(deep, 64 * PerPage(kind)) + CeilDiv(deep, PerPage(kind))
  {
    ExtCountFormula(kind, n);
    var past := Max(n - Direct(kind), 0);
    var deep := Max(n - Direct(kind) - 4 * PerPage(kind), 0);
    assert LeafCount(kind, n) == CeilDiv(past, PerPage(kind));
    assert CeilDiv(past, PerPage(kind)) == Min(4, CeilDiv(past, PerPage(kind))) + CeilDiv(deep, PerPage(kind));
  }

  // How an object lies in the slots: each node holds a prefix of its share.

  function Take<T>(s: seq<T>, n: int): seq<T>
    requires 0 <= n
  {
    s[..Min(n, |s|)]
  }

  function Share<T>(s: seq<T>, lo: int, hi: int): seq<T>
    requires 0 <= lo <= hi
  {
    s[Min(lo, |s|)..Min(hi, |s|)]
  }

  predicate Shaped(o: Obj) {
    && |o.entries| <= MaxEntries(o.kind)
    && |o.leaves| == LeafCount(o.kind, |o.entries|)
    && |o.exts| == ExtCount(|o.leaves|)
  }

  ghost predicate HeadRep(x: Inode, h: int, o: Obj) {
    && x.Head?
    && x.meta == Meta(o.kind, h, o.pno, |o.entries|, o.nlink, o.fsize)
    && |x.direct| == Direct(o.kind) && |x.pages| == 4 && |x.exts| == 4
    && Take(o.entries, Direct(o.kind)) <= x.direct
    && Take(o.leaves, 4) <= x.pages
    && o.exts <= x.exts
  }

  ghost predicate PageRep(x: Inode, o: Obj, k: int)
    requires 0 <= k
  {
    && x.Page?
    && |x.entries| == PerPage(o.kind)
    && Share(o.entries, Start(o.kind, k), Start(o.kind, k + 1)) <= x.entries
  }

  ghost predicate ExtRep(x: Inode, leaves: seq<int>, e: int)
    requires 0 <= e
  {
    && x.Ext?
    && |x.nums| == 64
    && Share(leaves, 4 + 64 * e, 68 + 64 * e) <= x.nums
  }

  predicate IsPageNum(j: int) { ROOT < j < BITMAP_NODES }

  ghost predicate ObjRep(nodes: seq<Inode>, h: int, o: Obj)
    requires |nodes| == SLOT_COUNT
  {
    && Shaped(o)
    && ROOT <= h < BITMAP_NODES
    && HeadRep(nodes[h], h, o)
    && (forall k {:trigger o.leaves[k]} :: 0 <= k < |o.leaves| ==>
          IsPageNum(o.leaves[k]) && PageRep(nodes[o.leaves[k]], o, k))
    && (forall e {:trigger o.exts[e]} :: 0 <= e < |o.exts| ==>
          IsPageNum(o.exts[e]) && ExtRep(nodes[o.exts[e]], o.leaves, e))
  }

  ghost predicate Distinct(s: seq<int>) {
    forall j, k {:trigger s[j], s[k]} :: 0 <= j < k < |s| ==> s[j] != s[k]
  }

  ghost predicate Apart(s: seq<int>, t: seq<int>) {
    forall j, k {:trigger s[j], t[k]} :: 0 <= j < |s| && 0 <= k < |t| ==> s[j] != t[k]
  }

  /** No inode serves twice in one index. */
  ghost predicate Unique(leaves: seq<int>, exts: seq<int>) {
    Distinct(leaves) && Distinct(exts) && Apart(leaves, exts)
  }

  ghost function Pages(o: Obj): set<int> {
    (set x | x in o.leaves) + (set x | x in o.exts)
  }

  /** The first leaf that a shrink to c leaves gives back: in the last extension
      page that stays, nothing is released. */
  function Kept(c: nat): nat {
    if c <= 4 then c else 4 + 64 * ExtCount(c)
  }

  /** Pages given back by a resize to c leaves, among the first i leaves and first e extension pages. */
  ghost function Released(o: Obj, c: nat, i: int, e: int): set<int> {
    (set k | Kept(c) <= k < Min(i, |o.leaves|) :: o.leaves[k])
    + (set x | ExtCount(c) <= x < Min(e, |o.exts|) :: o.exts[x])
  }

  ghost function ReleasedAll(o: Obj, c: nat): set<int> {
    Released(o, c, |o.leaves|, |o.exts|)
  }

  ghost function Taken(o: Obj, o': Obj): set<int> {
    Pages(o') - Pages(o)
  }

  ghost predicate SameMeta(o: Obj, o': Obj) {
    o'.kind == o.kind && o'.pno == o.pno && o'.nlink == o.nlink && o'.fsize == o.fsize
  }

  /** What listing_set does to an object and to the set of free inodes; the metadata is apart. */
  ghost predicate Resized(o: Obj, o': Obj, entries: seq<Entry>, free: set<int>, free': set<int>) {
    && o'.kind == o.kind && o'.entries == entries
    && Shaped(o')
    && (o.leaves <= o'.leaves || o'.leaves <= o.leaves)
    && (o.exts <= o'.exts || o'.exts <= o.exts)
    && Unique(o'.leaves, o'.exts)
    && Taken(o, o') <= free
    && free' == (free - Taken(o, o')) + ReleasedAll(o, |o'.leaves|)
  }

  lemma ResizedList(o: Obj, o': Obj, entries: seq<Entry>, free: set<int>, free': set<int>)
    requires Resized(o, o', entries, free, free')
    ensures o'.entries == entries && Shaped(o') && o'.kind == o.kind && Unique(o'.leaves, o'.exts)
  {
  }

  /** Setting the size it has takes and gives back nothing. */
  lemma SameSize(o: Obj, o': Obj, entries: seq<Entry>, free: set<int>, free': set<int>)
    requires Shaped(o) && |entries| == |o.entries| && Resized(o, o', entries, free, free')
    ensures o'.leaves == o.leaves && o'.exts == o.exts && free' == free
  {
  }

  lemma SamePages(o: Obj, o': Obj)
    requires o'.leaves == o.leaves && o'.exts == o.exts
    ensures Pages(o') == Pages(o)
  {
  }
}
