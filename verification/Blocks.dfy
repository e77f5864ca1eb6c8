/** Which file a data block belongs to, and the bytes a file consists of. */
module Blocks {
  import opened Disk

  datatype Home = Home(file: int, pos: int)

  ghost predicate Housed(h: int, o: Obj, data: map<int, seq<Byte>>, homes: map<int, Home>) {
    forall i {:trigger o.entries[i]} :: 0 <= i < |o.entries| ==>
      var b := o.entries[i].num;
      o.entries[i].Blk? && b in data && |data[b]| == 512 && b in homes && homes[b] == Home(h, i)
  }

  ghost predicate HomeOk(objs: map<int, Obj>, b: int, x: Home) {
    && x.file in objs && objs[x.file].kind.File?
    && 0 <= x.pos < |objs[x.file].entries| && objs[x.file].entries[x.pos].num == b
  }

  ghost predicate Homed(objs: map<int, Obj>, data: map<int, seq<Byte>>, homes: map<int, Home>) {
    && (forall h {:trigger objs[h]} {:trigger h in objs} :: h in objs && objs[h].kind.File? ==>
        Housed(h, objs[h], data, homes))
    && (forall b {:trigger homes[b]} :: b in homes ==> HomeOk(objs, b, homes[b]))
    && homes.Keys == data.Keys
  }

  /** Every data block is at exactly one position of exactly one file. */
  ghost predicate BlocksOwned(objs: map<int, Obj>, data: map<int, seq<Byte>>) {
    exists homes :: Homed(objs, data, homes)
  }

  ghost predicate InFile(objs: map<int, Obj>, h: int, i: int) {
    h in objs && objs[h].kind.File? && 0 <= i < |objs[h].entries|
  }

  /** Spelled out without homes. */
  lemma BlocksOwnedMeansOnce(objs: map<int, Obj>, data: map<int, seq<Byte>>)
    requires BlocksOwned(objs, data)
    ensures forall g, i, h, j ::
      (InFile(objs, g, i) && InFile(objs, h, j) && objs[g].entries[i].num == objs[h].entries[j].num) ==>
          g == h && i == j
    ensures forall b :: b in data <==> exists h, i :: InFile(objs, h, i) && objs[h].entries[i].num == b
  {
  }

  // The bytes of a file.

  ghost predicate Stored(o: Obj, data: map<int, seq<Byte>>) {
    forall i {:trigger o.entries[i]} :: 0 <= i < |o.entries| ==>
      o.entries[i].num in data && |data[o.entries[i].num]| == 512
  }

  /** Byte p of the blocks of a file, zero past the last block. */
  ghost function RawAt(o: Obj, data: map<int, seq<Byte>>, p: nat): Byte
    requires Stored(o, data)
  {
    if p / 512 < |o.entries| then data[o.entries[p / 512].num][p % 512] else 0
  }

  /** What reading the file shows: fsize bytes, zeros where no block was stored. */
  ghost function Content(o: Obj, data: map<int, seq<Byte>>): seq<Byte>
    requires Stored(o, data)
  {
    seq(Max(o.fsize, 0), p requires 0 <= p => RawAt(o, data, p))
  }

  /** The raw bytes with src laid over them from offset on. */
  ghost function OverlayAt(o: Obj, data: map<int, seq<Byte>>, src: seq<Byte>, offset: nat, p: nat): Byte
    requires Stored(o, data)
  {
    if offset <= p < offset + |src| then src[p - offset] else RawAt(o, data, p)
  }

  lemma HousedStored(objs: map<int, Obj>, data: map<int, seq<Byte>>, h: int)
    requires BlocksOwned(objs, data) && h in objs && objs[h].kind.File?
    ensures Stored(objs[h], data)
  {
  }

  /** The same lists of blocks; directories and empty files may come and go. */
  ghost predicate SameFiles(objs: map<int, Obj>, objs': map<int, Obj>) {
    && (forall g :: g in objs && objs[g].kind.File? && objs[g].entries != [] ==>
          g in objs' && objs'[g].kind.File? && objs'[g].entries == objs[g].entries)
    && (forall g :: g in objs' && objs'[g].kind.File? && objs'[g].entries != [] ==>
          g in objs && objs[g].kind.File? && objs'[g].entries == objs[g].entries)
  }

  lemma BlocksOwnedByList(objs: map<int, Obj>, objs': map<int, Obj>, data: map<int, seq<Byte>>)
    requires BlocksOwned(objs, data) && SameFiles(objs, objs')
    ensures BlocksOwned(objs', data)
  {
    var homes: map<int, Home> :| Homed(objs, data, homes);
    forall g | g in objs' && objs'[g].kind.File?
      ensures Housed(g, objs'[g], data, homes)
    {
      assert objs'[g].entries != [] ==> Housed(g, objs[g], data, homes);
    }
    forall b | b in homes
      ensures HomeOk(objs', b, homes[b])
    {
      assert HomeOk(objs, b, homes[b]);
    }
    assert Homed(objs', data, homes);
  }
}
