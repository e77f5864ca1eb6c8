/** Writing a range of bytes of a file (stream.c:30-65). */
module StreamWrite {
  import opened Disk
  import opened IndexSpec
  import opened IndexRead
  import opened IndexWrite
  import opened FreeBlock
  import opened Owners
  import opened Attributes
  import opened Blocks
  import opened StreamRead

  /** Where block k of a write ends up in the buffer. */
  function Chunk(buf: seq<Byte>, k: int): seq<Byte>
    requires 0 <= k && 512 * (k + 1) <= |buf|
  {
    buf[512 * k..512 * (k + 1)]
  }

  /** The fixed part of a write: the file, its homes, the disk before, the filled buffer. */
  datatype Job = Job(h: int, o: Obj, homes: map<int, Home>, data: map<int, seq<Byte>>, chain: seq<int>,
                     bStart: nat, buf: seq<Byte>)
  {
    function Old(): nat { |o.entries| }

    ghost predicate Ok() {
      && Housed(h, o, data, homes)
      && homes.Keys == data.Keys
      && (forall b :: b in chain ==> b !in data)
      && Distinct(chain)
      && bStart <= Old() <= FENTRY_MAX_SIZE
    }
  }

  /** How many blocks have been allocated when the loop stands at i. */
  function Fresh(w: Job, i: int): int { Max(0, i - w.Old()) }

  /** The cache once blocks up to i have been dealt with. */
  ghost predicate Cached(w: Job, i: int, f: seq<Entry>) {
    && |f| == FENTRY_MAX_SIZE && w.Old() <= FENTRY_MAX_SIZE && i <= FENTRY_MAX_SIZE
    && Fresh(w, i) <= |w.chain|
    && f[..w.Old()] == w.o.entries
    && forall j {:trigger w.chain[j]} :: 0 <= j < Fresh(w, i) ==> f[w.Old() + j] == Blk(w.chain[j])
  }

  /** The data blocks once those up to i have been written. */
  ghost predicate Landed(w: Job, i: int, f: seq<Entry>, data: map<int, seq<Byte>>)
    requires |f| == FENTRY_MAX_SIZE && i <= FENTRY_MAX_SIZE && 512 * (i - w.bStart) <= |w.buf|
    requires Fresh(w, i) <= |w.chain|
  {
    && (forall b {:trigger b in data} :: b in data <==> b in w.data || b in w.chain[..Fresh(w, i)])
    && (forall k {:trigger f[k]} :: w.bStart <= k < i ==>
          f[k].num in data && data[f[k].num] == Chunk(w.buf, k - w.bStart))
    && (forall b {:trigger data[b]} :: b in w.data ==>
          b in data
              && (data[b] == w.data[b] || (b in w.homes && w.homes[b].file == w.h && w.bStart <= w.homes[b].pos < i)))
  }

  ghost predicate Wrote(w: Job, i: int, f: seq<Entry>, chain: seq<int>, data: map<int, seq<Byte>>) {
    && w.Ok() && w.bStart <= i && 512 * (i - w.bStart) <= |w.buf|
    && Cached(w, i, f)
    && chain == w.chain[Fresh(w, i)..]
    && Landed(w, i, f, data)
  }

  /** Block i exists: it is overwritten. */
  lemma Overwrite(w: Job, i: int, f: seq<Entry>, chain: seq<int>, data: map<int, seq<Byte>>)
    requires Wrote(w, i, f, chain, data) && i < w.Old() && 512 * (i + 1 - w.bStart) <= |w.buf|
    ensures f[i].num in data
    ensures Wrote(w, i + 1, f, chain, data[f[i].num := Chunk(w.buf, i - w.bStart)])
  {
  }

  /** Block i is new: it comes from the top of the chain. */
  lemma Extend(w: Job, i: int, f: seq<Entry>, chain: seq<int>, data: map<int, seq<Byte>>)
    requires Wrote(w, i, f, chain, data) && w.Old() <= i < FENTRY_MAX_SIZE && 512 * (i + 1 - w.bStart) <= |w.buf|
    requires chain != []
    ensures Wrote(w, i + 1, f[i := Blk(chain[0])], chain[1..], data[chain[0] := Chunk(w.buf, i - w.bStart)])
  {
  }

  /** The superblock's slot belongs to no object. */
  lemma SuperKeepsRep(nodes: seq<Inode>, nodes': seq<Inode>, objs: map<int, Obj>)
    requires Rep(nodes, objs) && |nodes'| == SLOT_COUNT && nodes' == nodes[0 := nodes'[0]]
    ensures Rep(nodes', objs)
  {
  }

  /** The globals during the loop that writes the blocks. */
  ghost predicate Writing(m: Machine, w: Job, i: int)
    reads m, m.f
  {
    Indexed(m) && Wrote(w, i, m.f[..], m.chain, m.data)
  }

  lemma WritingNow(w: Job, i: int, f: seq<Entry>, chain: seq<int>, data: map<int, seq<Byte>>)
    requires Wrote(w, i, f, chain, data)
    ensures |f| == FENTRY_MAX_SIZE && Fresh(w, i) + |chain| == |w.chain| && w.Old() <= FENTRY_MAX_SIZE
    ensures i < w.Old() ==> f[i].num in data
  {
  }

  /** One turn of the loop; false when the free chain is empty. */
  method WriteBlock(m: Machine, i: nat, bSize: nat, chunk: seq<Byte>, ghost w: Job) returns (ok: bool)
    requires Writing(m, w, i) && bSize == w.Old() && w.bStart <= i < FENTRY_MAX_SIZE
    requires 512 * (i + 1 - w.bStart) <= |w.buf| && chunk == Chunk(w.buf, i - w.bStart)
    modifies m`blocks, m`blockBuf, m`super, m`nodes, m`chain, m`data, m`errno, m.f
    ensures ok <==> i < bSize || old(m.chain) != []
    ensures ok ==> Writing(m, w, i + 1) && m.errno == old(m.errno) && i + 1 - w.Old() <= |w.chain|
    ensures !ok ==> Writing(m, w, i) && m.errno == -ENOSPC && i - w.Old() == |w.chain|
  {
    hide DiskOk, Rep, Ownership, Wrote, ObjRep;
    ok := true;
    WritingNow(w, i, m.f[..], m.chain, m.data);
    assert m.Sound();
    ghost var f, nodes := m.f[..], m.nodes;
    assert f[i] == m.f[i];
    if i < bSize {
      Overwrite(w, i, f, m.chain, m.data);
      BlockWrite(m, m.f[i].num, chunk);
      assert m.f[..] == f;
    } else {
      if m.chain != [] {
        Extend(w, i, f, m.chain, m.data);
      }
      var blknum := Allocate(m, Some(chunk));
      assert Rep(m.nodes, m.objs) by {
        NodesLength(m);
        SuperKeepsRep(nodes, m.nodes, m.objs);
      }
      if blknum < 0 {
        assert m.f[..] == f;
        ok := false;
      } else {
        m.f[i] := Blk(blknum);
        assert m.f[..] == f[i := Blk(blknum)];
      }
    }
  }

  /** Blocks of the file after a write up to block bEnd with `spare` free blocks at hand. */
  function Reach(n: nat, spare: nat, bEnd: nat): nat {
    Max(n, Min(Min(bEnd, FENTRY_MAX_SIZE), n + spare))
  }

  /** The free chain runs out before the write is done. */
  predicate RunsOut(n: nat, spare: nat, bEnd: nat) {
    n + spare < Min(bEnd, FENTRY_MAX_SIZE)
  }

  lemma LoopEnds(n: nat, spare: nat, bStart: nat, i: nat, bEnd: nat, broken: bool)
    requires bStart <= n <= FENTRY_MAX_SIZE && bStart <= i <= FENTRY_MAX_SIZE && i - n <= spare && bStart < bEnd
    requires broken ==> i < bEnd && i < FENTRY_MAX_SIZE && i - n == spare
    requires !broken ==> i <= bEnd && i >= Min(bEnd, FENTRY_MAX_SIZE)
    ensures Max(n, i) == Reach(n, spare, bEnd)
    ensures broken <==> RunsOut(n, spare, bEnd)
    ensures i < n ==> i == bEnd
  {
  }

  /** One turn of the loop with the buffer pointer. */
  method WriteAt(m: Machine, i: nat, ptr: nat, bSize: nat, blkbuf: seq<Byte>, ghost w: Job) returns (ok: bool)
    requires Writing(m, w, i) && bSize == w.Old() && w.bStart <= i < FENTRY_MAX_SIZE
    requires w.buf == blkbuf && ptr == 512 * (i - w.bStart) && ptr + 512 <= |blkbuf|
    modifies m`blocks, m`blockBuf, m`super, m`nodes, m`chain, m`data, m`errno, m.f
    ensures ok ==> Writing(m, w, i + 1) && m.errno == old(m.errno) && i + 1 - bSize <= |w.chain|
    ensures !ok ==> Writing(m, w, i) && m.errno == -ENOSPC && i - bSize == |w.chain|
  {
    hide Writing;
    var chunk := blkbuf[ptr..ptr + 512];
    assert chunk == Chunk(w.buf, i - w.bStart);
    ok := WriteBlock(m, i, bSize, chunk, w);
  }

  method WriteBlocks(m: Machine, blkbuf: seq<Byte>, bStart: nat, bSize: nat, bEnd: nat, ghost w: Job) returns (i: nat)
    requires Writing(m, w, bStart) && w.bStart == bStart < bEnd && w.buf == blkbuf && bSize == w.Old()
    requires |blkbuf| == 512 * (bEnd - bStart) && bStart <= bSize <= FENTRY_MAX_SIZE
    modifies m`blocks, m`blockBuf, m`super, m`nodes, m`chain, m`data, m`errno, m.f
    ensures Writing(m, w, i) && bStart <= i
    ensures Max(bSize, i) == Reach(bSize, |w.chain|, bEnd) && (i < bSize ==> i == bEnd)
    ensures m.errno == if RunsOut(bSize, |w.chain|, bEnd) then -ENOSPC else old(m.errno)
  {
    hide Writing, Reach, RunsOut;
    i := bStart;
    var ptr := 0;
    var ok := true;
    while i < bEnd && i < FENTRY_MAX_SIZE
      invariant bStart <= i <= bEnd && i <= FENTRY_MAX_SIZE && ptr == 512 * (i - bStart)
      invariant Writing(m, w, i) && m.errno == old(m.errno) && i - bSize <= |w.chain|
    {
      ok := WriteAt(m, i, ptr, bSize, blkbuf, w);
      if !ok {
        break;
      }
      i, ptr := i + 1, ptr + 512;
    }
    LoopEnds(bSize, |w.chain|, bStart, i, bEnd, !ok);
  }

  // What the loop has done to the bytes of the file.

  ghost predicate Overlaid(o: Obj, o': Obj, data: map<int, seq<Byte>>, data': map<int, seq<Byte>>, src: seq<Byte>,
                           offset: nat) {
    && Stored(o, data) && Stored(o', data')
    && forall p: nat :: p < 512 * |o'.entries| ==> RawAt(o', data', p) == OverlayAt(o, data, src, offset, p)
  }

  ghost predicate BufferFor(w: Job, src: seq<Byte>, offset: nat)
    requires Stored(w.o, w.data)
  {
    && 512 * w.bStart <= offset
    && forall q {:trigger w.buf[q]} :: 0 <= q < |w.buf| ==>
        w.buf[q] == OverlayAt(w.o, w.data, src, offset, 512 * w.bStart + q)
  }

  /** Block k of the file afterwards, whichever way it went. */
  lemma BlockAfter(w: Job, i: nat, f: seq<Entry>, chain: seq<int>, data: map<int, seq<Byte>>, k: nat)
    requires Wrote(w, i, f, chain, data) && k < Max(w.Old(), i)
    requires forall b :: b in data ==> |data[b]| == 512
    ensures k < |f| && f[k].num in data && 512 * (i - w.bStart) <= |w.buf|
    ensures w.bStart <= k < i ==> data[f[k].num] == Chunk(w.buf, k - w.bStart)
    ensures !(w.bStart <= k < i) ==> k < w.Old() && data[f[k].num] == w.data[w.o.entries[k].num]
  {
  }

  lemma ByteInChunk(w: Job, i: nat, f: seq<Entry>, chain: seq<int>, data: map<int, seq<Byte>>, src: seq<Byte>,
                    offset: nat, k: nat, r: nat)
    requires Wrote(w, i, f, chain, data) && w.bStart <= k < i && r < 512
    requires forall b :: b in data ==> |data[b]| == 512
    requires Stored(w.o, w.data) && BufferFor(w, src, offset)
    ensures k < |f| && f[k].num in data && data[f[k].num][r] == OverlayAt(w.o, w.data, src, offset, 512 * k + r)
  {
  }

  lemma ByteKept(w: Job, i: nat, f: seq<Entry>, chain: seq<int>, data: map<int, seq<Byte>>, src: seq<Byte>,
                 offset: nat, k: nat, r: nat)
    requires Wrote(w, i, f, chain, data) && k < Max(w.Old(), i) && !(w.bStart <= k < i) && r < 512
    requires forall b :: b in data ==> |data[b]| == 512
    requires Stored(w.o, w.data) && 512 * w.bStart <= offset
    requires i < w.Old() ==> offset + |src| <= 512 * i
    ensures k < |f| && f[k].num in data && data[f[k].num][r] == OverlayAt(w.o, w.data, src, offset, 512 * k + r)
  {
  }

  /** Byte r of block k afterwards. */
  lemma ByteAfter(w: Job, i: nat, f: seq<Entry>, chain: seq<int>, data: map<int, seq<Byte>>, o': Obj,
                  src: seq<Byte>, offset: nat, k: nat, r: nat)
    requires Wrote(w, i, f, chain, data) && k < Max(w.Old(), i) && r < 512
    requires forall b :: b in data ==> |data[b]| == 512
    requires Stored(w.o, w.data) && BufferFor(w, src, offset)
    requires i < w.Old() ==> offset + |src| <= 512 * i
    requires Max(w.Old(), i) <= |f| && o'.entries == f[..Max(w.Old(), i)] && Stored(o', data)
    ensures RawAt(o', data, 512 * k + r) == OverlayAt(w.o, w.data, src, offset, 512 * k + r)
  {
    hide Wrote, OverlayAt;
    RawInBlock(o', data, k, r);
    assert o'.entries[k] == f[k];
    if w.bStart <= k < i {
      ByteInChunk(w, i, f, chain, data, src, offset, k, r);
    } else {
      ByteKept(w, i, f, chain, data, src, offset, k, r);
    }
  }

  /** The file's list after the write. */
  ghost predicate Extended(o: Obj, o': Obj, chain: seq<int>, chain': seq<int>) {
    var n, n' := |o.entries|, |o'.entries|;
    && n <= n' <= n + |chain|
    && o.entries <= o'.entries
    && (forall j {:trigger chain[j]} :: 0 <= j < n' - n ==> o'.entries[n + j] == Blk(chain[j]))
    && chain' == chain[n' - n..]
  }

  ghost function Firsts(s: seq<int>, n: int): set<int>
    requires 0 <= n <= |s|
  {
    set x | x in s[..n]
  }

  /** What a write does to a file, the free chain and the data blocks. */
  ghost predicate WriteDone(o: Obj, o': Obj, data: map<int, seq<Byte>>, data': map<int, seq<Byte>>,
                            chain: seq<int>, chain': seq<int>, src: seq<Byte>, offset: nat)
    requires |src| >= 1
  {
    && |o'.entries| == Reach(|o.entries|, |chain|, (offset + |src| - 1) / 512 + 1)
    && Extended(o, o', chain, chain')
    && data'.Keys == data.Keys + Firsts(chain, |o'.entries| - |o.entries|)
    && Overlaid(o, o', data, data', src, offset)
    && forall b {:trigger data'[b]} :: b in data && data'[b] != data[b] ==>
         exists i :: 0 <= i < |o.entries| && o.entries[i].num == b
  }

  lemma CachedExtends(w: Job, i: nat, f: seq<Entry>, o': Obj)
    requires Cached(w, i, f) && Max(w.Old(), i) <= |f| && o'.entries == f[..Max(w.Old(), i)]
    ensures Extended(w.o, o', w.chain, w.chain[Fresh(w, i)..])
  {
  }

  lemma WroteKeys(w: Job, i: nat, f: seq<Entry>, chain: seq<int>, data: map<int, seq<Byte>>)
    requires Wrote(w, i, f, chain, data)
    ensures 0 <= Fresh(w, i) <= |w.chain| && data.Keys == w.data.Keys + Firsts(w.chain, Fresh(w, i))
  {
    assert forall b :: b in data <==> b in w.data || b in w.chain[..Fresh(w, i)];
  }

  lemma WroteExtends(w: Job, i: nat, f: seq<Entry>, chain: seq<int>, data: map<int, seq<Byte>>, o': Obj)
    requires Wrote(w, i, f, chain, data) && Max(w.Old(), i) <= |f| && o'.entries == f[..Max(w.Old(), i)]
    ensures Extended(w.o, o', w.chain, chain)
    ensures data.Keys == w.data.Keys + Firsts(w.chain, |o'.entries| - |w.o.entries|)
  {
    hide Landed, Extended, Firsts;
    WroteKeys(w, i, f, chain, data);
    CachedExtends(w, i, f, o');
  }

  lemma WroteOverlays(w: Job, i: nat, f: seq<Entry>, chain: seq<int>, data: map<int, seq<Byte>>, o': Obj,
                      src: seq<Byte>, offset: nat)
    requires Wrote(w, i, f, chain, data)
    requires forall b :: b in data ==> |data[b]| == 512
    requires Stored(w.o, w.data) && BufferFor(w, src, offset)
    requires i < w.Old() ==> offset + |src| <= 512 * i
    requires Max(w.Old(), i) <= |f| && o'.entries == f[..Max(w.Old(), i)]
    ensures Overlaid(w.o, o', w.data, data, src, offset)
  {
    hide Wrote, RawAt, OverlayAt, BufferFor;
    forall k | 0 <= k < |o'.entries|
      ensures o'.entries[k].num in data
    {
      BlockAfter(w, i, f, chain, data, k);
      assert o'.entries[k] == f[k];
    }
    forall p: nat | p < 512 * |o'.entries|
      ensures RawAt(o', data, p) == OverlayAt(w.o, w.data, src, offset, p)
    {
      var k, r := p / 512, p % 512;
      ByteAfter(w, i, f, chain, data, o', src, offset, k, r);
      assert 512 * k + r == p;
    }
  }

  lemma WroteOnlyHere(w: Job, i: nat, f: seq<Entry>, chain: seq<int>, data: map<int, seq<Byte>>, objs: map<int, Obj>,
                      b: int)
    requires Wrote(w, i, f, chain, data) && Homed(objs, w.data, w.homes) && w.h in objs && objs[w.h] == w.o
    requires b in w.data && data[b] != w.data[b]
    ensures exists k :: 0 <= k < |w.o.entries| && w.o.entries[k].num == b
  {
  }

  /** The fresh blocks are at home at the end of the file. */
  ghost function HomesAfter(w: Job, data: map<int, seq<Byte>>): (homes: map<int, Home>)
    ensures homes.Keys == data.Keys
    ensures forall b :: b in data && b in w.homes ==> homes[b] == w.homes[b]
  {
    map b | b in data.Keys ::
      if b in w.homes then w.homes[b] else if b in w.chain then Home(w.h, w.Old() + IndexOf(w.chain, b)) else Home(0, 0)
  }

  lemma FreshHome(w: Job, data: map<int, seq<Byte>>, j: nat)
    requires w.Ok() && j < |w.chain| && w.chain[j] in data
    ensures HomesAfter(w, data)[w.chain[j]] == Home(w.h, w.Old() + j)
  {
  }

  lemma WroteHoused(w: Job, data: map<int, seq<Byte>>, o': Obj, chain: seq<int>)
    requires w.Ok() && Extended(w.o, o', w.chain, chain)
    requires forall b :: b in data ==> |data[b]| == 512
    requires data.Keys == w.data.Keys + Firsts(w.chain, |o'.entries| - |w.o.entries|)
    ensures Housed(w.h, o', data, HomesAfter(w, data))
  {
    hide HomesAfter;
    forall k | 0 <= k < |o'.entries|
      ensures o'.entries[k].Blk? && o'.entries[k].num in data && HomesAfter(w, data)[o'.entries[k].num] == Home(w.h, k)
    {
      if k < w.Old() {
        assert o'.entries[k] == w.o.entries[k];
      } else {
        var j := k - w.Old();
        assert o'.entries[w.Old() + j] == Blk(w.chain[j]);
        assert w.chain[j] in w.chain[..|o'.entries| - |w.o.entries|];
        FreshHome(w, data, j);
      }
    }
  }

  lemma WroteHomeOk(w: Job, objs: map<int, Obj>, data: map<int, seq<Byte>>, o': Obj, chain: seq<int>, b: int)
    requires w.Ok() && w.h in objs && objs[w.h] == w.o && o'.kind.File?
    requires Extended(w.o, o', w.chain, chain) && b in data
    requires b in w.homes ==> HomeOk(objs, b, w.homes[b])
    requires data.Keys == w.data.Keys + Firsts(w.chain, |o'.entries| - |w.o.entries|)
    ensures HomeOk(objs[w.h := o'], b, HomesAfter(w, data)[b])
  {
    hide HomesAfter;
    if b !in w.homes {
      var t := |o'.entries| - |w.o.entries|;
      var j :| 0 <= j < t && w.chain[..t][j] == b;
      FreshHome(w, data, j);
      assert o'.entries[w.Old() + j] == Blk(w.chain[j]);
    }
  }

  lemma OthersHoused(w: Job, objs: map<int, Obj>, data: map<int, seq<Byte>>)
    requires Homed(objs, w.data, w.homes) && w.data.Keys <= data.Keys
    requires forall b :: b in data ==> |data[b]| == 512
    ensures forall g :: g in objs && g != w.h && objs[g].kind.File? ==> Housed(g, objs[g], data, HomesAfter(w, data))
  {
  }

  lemma WroteHomed(w: Job, objs: map<int, Obj>, data: map<int, seq<Byte>>, o': Obj, chain: seq<int>)
    requires w.Ok() && Homed(objs, w.data, w.homes) && w.h in objs && objs[w.h] == w.o && o'.kind.File?
    requires Extended(w.o, o', w.chain, chain)
    requires forall b :: b in data ==> |data[b]| == 512
    requires data.Keys == w.data.Keys + Firsts(w.chain, |o'.entries| - |w.o.entries|)
    ensures BlocksOwned(objs[w.h := o'], data)
  {
    hide Extended, HomesAfter, Firsts, Housed, HomeOk;
    var homes' := HomesAfter(w, data);
    WroteHoused(w, data, o', chain);
    OthersHoused(w, objs, data);
    forall b | b in homes'
      ensures HomeOk(objs[w.h := o'], b, homes'[b])
    {
      WroteHomeOk(w, objs, data, o', chain, b);
    }
    assert Homed(objs[w.h := o'], data, homes');
  }

  /** The buffer: what the range holds already, with src copied over it. */
  method FillBuffer(m: Machine, ghost o: Obj, src: seq<Byte>, offset: nat, bStart: nat, bSize: nat, bEnd: nat)
      returns (filled: seq<Byte>)
    requires m.Sound() && Stored(o, m.data)
    requires bSize == |o.entries| <= m.f.Length && m.f[..bSize] == o.entries
    requires |src| >= 1 && bStart == offset / 512 && bEnd == (offset + |src| - 1) / 512 + 1
    ensures |filled| == 512 * (bEnd - bStart)
    ensures forall q {:trigger filled[q]} :: 0 <= q < |filled| ==>
      filled[q] == OverlayAt(o, m.data, src, offset, 512 * bStart + q)
  {
    var blkbuf := ReadBlocks(m, o, bStart, bSize, bEnd);
    var at := offset % 512;
    forall q | 0 <= q < |src| {
      blkbuf[at + q] := src[q];
    }
    filled := blkbuf[..];
  }

  lemma StartJob(m: Machine, w: Job)
    requires Indexed(m) && w.h in m.objs && m.objs[w.h].kind.File? && Homed(m.objs, m.data, w.homes)
    requires w.o == m.objs[w.h] && w.data == m.data && w.chain == m.chain && w.bStart <= w.Old() <= FENTRY_MAX_SIZE
    requires m.f[..w.Old()] == w.o.entries
    ensures Writing(m, w, w.bStart) && m.f.Length == FENTRY_MAX_SIZE
  {
  }

  /** The list and the length are written back. */
  method Commit(m: Machine, inum: int, fsize: nat, bSize: nat)
    requires Indexed(m) && inum in m.objs && m.objs[inum].kind.File? && bSize <= FENTRY_MAX_SIZE
    requires |m.freeNodes| + Need(File, |m.objs[inum].entries|) >= Need(File, bSize)
    modifies m`blocks, m`nodes, m`nodeBuf, m`freeNodes, m`errno, m`objs
    ensures Indexed(m) && m.errno == old(m.errno)
    ensures inum in m.objs && m.objs == old(m.objs)[inum := m.objs[inum]]
    ensures m.f.Length == FENTRY_MAX_SIZE && m.objs[inum].entries == m.f[..bSize]
    ensures Resized(old(m.objs[inum]), m.objs[inum], m.f[..bSize], old(m.freeNodes), m.freeNodes)
    ensures SameMeta(old(m.objs[inum]).(fsize := Min(fsize, FCONTENT_MAX_SIZE)), m.objs[inum])
  {
    hide DiskOk, Rep, Ownership, Need, Resized;
    SetFsize(m, inum, fsize);
    ghost var o1, free1 := m.objs[inum], m.freeNodes;
    ListingSet(m, File, inum, bSize);
    ResizedMeta(old(m.objs[inum]), o1, m.objs[inum], m.f[..bSize], free1, m.freeNodes);
    ResizedList(o1, m.objs[inum], m.f[..bSize], free1, m.freeNodes);
  }

  lemma DataLengths(m: Machine)
    requires m.Sound()
    ensures forall b :: b in m.data ==> |m.data[b]| == 512 && b !in m.chain
    ensures Distinct(m.chain)
  {
  }

  lemma WroteDone(w: Job, i: nat, f: seq<Entry>, chain: seq<int>, data: map<int, seq<Byte>>, objs: map<int, Obj>,
                  o': Obj,
                  src: seq<Byte>, offset: nat)
    requires Wrote(w, i, f, chain, data) && Homed(objs, w.data, w.homes) && w.h in objs && objs[w.h] == w.o
    requires forall b :: b in data ==> |data[b]| == 512
    requires |src| >= 1 && Stored(w.o, w.data) && BufferFor(w, src, offset) && o'.kind.File?
    requires Max(w.Old(), i) == Reach(w.Old(), |w.chain|, (offset + |src| - 1) / 512 + 1)
    requires i < w.Old() ==> i == (offset + |src| - 1) / 512 + 1
    requires Max(w.Old(), i) <= |f| && o'.entries == f[..Max(w.Old(), i)]
    ensures WriteDone(w.o, o', w.data, data, w.chain, chain, src, offset)
    ensures BlocksOwned(objs[w.h := o'], data)
  {
    hide Wrote, Extended, Overlaid, BufferFor, Stored, Homed, Firsts;
    WroteExtends(w, i, f, chain, data, o');
    WroteOverlays(w, i, f, chain, data, o', src, offset);
    forall b | b in w.data && data[b] != w.data[b]
      ensures exists k :: 0 <= k < |w.o.entries| && w.o.entries[k].num == b
    {
      WroteOnlyHere(w, i, f, chain, data, objs, b);
    }
    JobOk(w, i, f, chain, data);
    WroteHomed(w, objs, data, o', chain);
  }

  lemma JobOk(w: Job, i: int, f: seq<Entry>, chain: seq<int>, data: map<int, seq<Byte>>)
    requires Wrote(w, i, f, chain, data)
    ensures w.Ok() && w.Old() <= FENTRY_MAX_SIZE && i <= FENTRY_MAX_SIZE && |f| == FENTRY_MAX_SIZE
  {
  }

  /** The first half of a write: the blocks, not yet the index. */
  method StoreBlocks(m: Machine, inum: int, src: seq<Byte>, offset: nat, bSize: nat) returns (nb: nat)
    requires Indexed(m) && inum in m.objs && m.objs[inum].kind.File? && BlocksOwned(m.objs, m.data)
    requires |src| >= 1 && offset / 512 <= bSize == |m.objs[inum].entries| <= m.f.Length
      && m.f[..bSize] == m.objs[inum].entries
    modifies m`blocks, m`blockBuf, m`super, m`nodes, m`chain, m`data, m`errno, m.f
    ensures Indexed(m) && m.f.Length == FENTRY_MAX_SIZE
    ensures nb <= FENTRY_MAX_SIZE && nb == Reach(bSize, |old(m.chain)|, (offset + |src| - 1) / 512 + 1)
    ensures m.errno == if RunsOut(bSize, |old(m.chain)|, (offset + |src| - 1) / 512 + 1) then -ENOSPC else old(m.errno)
    ensures var o, o' := m.objs[inum], m.objs[inum].(entries := m.f[..nb]);
      && WriteDone(o, o', old(m.data), m.data, old(m.chain), m.chain, src, offset)
      && BlocksOwned(m.objs[inum := o'], m.data)
  {
    hide DiskOk, Rep, Ownership, Wrote, Homed, WriteDone, Reach, RunsOut, Stored, OverlayAt;
    ghost var o := m.objs[inum];
    HousedStored(m.objs, m.data, inum);
    ghost var homes: map<int, Home> :| Homed(m.objs, m.data, homes);
    var bStart, bEnd := offset / 512, (offset + |src| - 1) / 512 + 1;
    var blkbuf := FillBuffer(m, o, src, offset, bStart, bSize, bEnd);
    ghost var w := Job(inum, o, homes, m.data, m.chain, bStart, blkbuf);
    StartJob(m, w);
    var i := WriteBlocks(m, blkbuf, bStart, bSize, bEnd, w);
    nb := Max(bSize, i);
    JobOk(w, i, m.f[..], m.chain, m.data);
    DataLengths(m);
    ghost var o' := o.(entries := m.f[..nb]);
    assert m.f[..][..nb] == m.f[..nb];
    WroteDone(w, i, m.f[..], m.chain, m.data, m.objs, o', src, offset);
  }

  lemma WriteDoneByList(o: Obj, o1: Obj, o2: Obj, data: map<int, seq<Byte>>, data': map<int, seq<Byte>>,
                        chain: seq<int>, chain': seq<int>, src: seq<Byte>, offset: nat)
    requires |src| >= 1 && o1.entries == o2.entries && WriteDone(o, o1, data, data', chain, chain', src, offset)
    ensures WriteDone(o, o2, data, data', chain, chain', src, offset)
  {
  }

  /** What fstream_write promises about the file it writes. */
  ghost predicate FileWritten(o: Obj, o': Obj, free: set<int>, free': set<int>, chain: seq<int>, chain': seq<int>,
                              data: map<int, seq<Byte>>, data': map<int, seq<Byte>>, src: seq<Byte>, offset: nat)
    requires |src| >= 1
  {
    && SameMeta(o.(fsize := Min(Max(o.fsize, offset + |src|), FCONTENT_MAX_SIZE)), o')
    && Resized(o, o', o'.entries, free, free')
    && WriteDone(o, o', data, data', chain, chain', src, offset)
  }

  method Write(m: Machine, inum: int, buf: array<Byte>, size: nat, offset: nat) returns (r: int)
    requires Indexed(m) && inum in m.objs && m.objs[inum].kind.File? && BlocksOwned(m.objs, m.data)
    requires 1 <= size <= buf.Length && offset / 512 <= |m.objs[inum].entries|
    requires |m.freeNodes| + Need(File, |m.objs[inum].entries|)
             >= Need(File, Reach(|m.objs[inum].entries|, |m.chain|, (offset + size - 1) / 512 + 1))
    modifies m`blocks, m`blockBuf, m`super, m`nodes, m`nodeBuf, m`chain, m`data, m`errno, m`freeNodes, m`objs, m.f
    ensures Indexed(m) && BlocksOwned(m.objs, m.data) && m.errno == 0
    ensures inum in m.objs && m.objs == old(m.objs)[inum := m.objs[inum]]
    ensures FileWritten(old(m.objs[inum]), m.objs[inum], old(m.freeNodes), m.freeNodes, old(m.chain), m.chain,
                        old(m.data), m.data, old(buf[..size]), offset)
    ensures var short := RunsOut(|old(m.objs[inum]).entries|, |old(m.chain)|, (offset + size - 1) / 512 + 1);
      r == if short then -ENOSPC else if old(m.errno) < 0 then old(m.errno) else size
  {
    hide DiskOk, Rep, Ownership, BlocksOwned, WriteDone, Reach, RunsOut, Need, Resized, Stored;
    var src := buf[..size];
    ghost var objs, o, free := m.objs, m.objs[inum], m.freeNodes;
    var bSize := IndexRead.Listing(m, File, inum);
    var _, _, fsize := GetAttr(m, inum);
    var nb := StoreBlocks(m, inum, src, offset, bSize);
    ghost var o1 := o.(entries := m.f[..nb]);
    Commit(m, inum, Max(fsize, size + offset), nb);
    WriteDoneByList(o, o1, m.objs[inum], old(m.data), m.data, old(m.chain), m.chain, src, offset);
    BlocksOwnedByList(objs[inum := o1], m.objs, m.data);
    var retstat := m.ErrnoPop();
    r := if retstat < 0 then retstat else size;
  }
}
