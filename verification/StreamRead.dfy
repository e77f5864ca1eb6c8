/** Reading a range of bytes of a file (stream.c:8-28). */
module StreamRead {
  import opened Disk
  import opened IndexRead
  import opened FreeBlock
  import opened Owners
  import opened Attributes
  import opened Blocks

  lemma RawInBlock(o: Obj, data: map<int, seq<Byte>>, i: nat, r: nat)
    requires Stored(o, data) && r < 512
    ensures RawAt(o, data, 512 * i + r)
      == if i < |o.entries| then data[o.entries[i].num][r] else 0
  {
  }

  /** The buffer both functions start from: the blocks of a range, zeros where the file has none. */
  method ReadBlocks(m: Machine, ghost o: Obj, bStart: nat, bSize: nat, bEnd: nat) returns (buf: array<Byte>)
    requires m.Sound() && Stored(o, m.data) && bStart <= bEnd
    requires bSize == |o.entries| <= m.f.Length && m.f[..bSize] == o.entries
    ensures fresh(buf) && buf.Length == 512 * (bEnd - bStart)
    ensures forall q :: 0 <= q < buf.Length ==> buf[q] == RawAt(o, m.data, 512 * bStart + q)
  {
    buf := new Byte[512 * (bEnd - bStart)](_ => 0);
    var i, ptr := bStart, 0;
    while i < bSize && i < bEnd
      invariant bStart <= i && ptr == 512 * (i - bStart) <= buf.Length
      invariant forall q :: 0 <= q < ptr ==> buf[q] == RawAt(o, m.data, 512 * bStart + q)
      invariant forall q :: ptr <= q < buf.Length ==> buf[q] == 0
    {
      assert m.f[i] == o.entries[i];
      var bytes := BlockRead(m, m.f[i].num);
      forall r | 0 <= r < 512 {
        buf[ptr + r] := bytes[r];
      }
      forall q | ptr <= q < ptr + 512
        ensures buf[q] == RawAt(o, m.data, 512 * bStart + q)
      {
        RawInBlock(o, m.data, i, q - ptr);
      }
      i, ptr := i + 1, ptr + 512;
    }
  }

  method Read(m: Machine, inum: int, buf: array<Byte>, size: nat, offset: nat) returns (n: nat)
    requires Indexed(m) && inum in m.objs && m.objs[inum].kind.File? && Stored(m.objs[inum], m.data)
    requires size <= buf.Length
    modifies m`nodeBuf, m.f, buf
    ensures n == Max(0, Min(m.objs[inum].fsize - offset, size))
    ensures n > 0 ==> buf[..n] == Content(m.objs[inum], m.data)[offset..offset + n]
    ensures buf[n..] == old(buf[n..])
  {
    hide DiskOk, Rep, Ownership;
    var bSize := Listing(m, File, inum);
    var _, _, fSize := GetAttr(m, inum);
    var bStart, bEnd := offset / 512, (offset + size) / 512 + 1;
    var blkbuf := ReadBlocks(m, m.objs[inum], bStart, bSize, bEnd);
    var left := if fSize - offset < size then fSize - offset else size;
    n := if left > 0 then left else 0;
    forall q | 0 <= q < n {
      buf[q] := blkbuf[offset % 512 + q];
    }
  }
}
