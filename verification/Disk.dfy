/** The disk image and the process-wide state of the storage engine.

    The disk is an array of 512-byte blocks. Blocks 0..1023 hold four 128-byte
    inodes each, block 1024 holds the inode bitmap, all others hold file data or
    are linked into the free chain. The C unions are modelled by one constructor
    per way of writing them. */
module Disk {
  const BLOCK_SIZE := 512
  const MAX_BLOCK_NUM := 32768
  const INODE_BLK_SIZE := 1024
  /** Inode slots on the disk; the bitmap only describes the first 1024. */
  const SLOT_COUNT := 4096
  const BITMAP_NODES := 1024
  const DENTRY_MAX_SIZE := 2086
  const FENTRY_MAX_SIZE := 8344
  const FCONTENT_MAX_SIZE := 4272128
  const ROOT := 2

  const ENOSPC := 28
  const EFBIG := 27
  const ENOENT := 2
  const EEXIST := 17

  type Byte = x: int | 0 <= x < 256

  /** What a list stored in an inode index holds: block numbers of a file
      or the named entries of a directory. */
  datatype Entry = Blk(num: int) | Ent(name: string, num: int)

  datatype Option<+T> = None | Some(value: T)

  datatype Kind = File | Dir

  datatype Meta = Meta(kind: Kind, ino: int, pno: int, size: int, nlink: int, fsize: int)

  /** The 128 bytes of an inode slot, by the union member they were written through. */
  datatype Inode =
    | Blank
    | Super(head: int, size: int)
    | Head(meta: Meta, direct: seq<Entry>, pages: seq<int>, exts: seq<int>)
    | Page(entries: seq<Entry>)
    | Ext(nums: seq<int>)

  datatype Block =
    | Nodes(slots: seq<Inode>)
    | Bits(bits: seq<bv8>)
    | Data(bytes: seq<Byte>)
    | Link(next: int)

  datatype SuperBlock = SuperBlock(head: int, size: int)

  function Min(a: int, b: int): int { if a < b then a else b }
  function Max(a: int, b: int): int { if a < b then b else a }

  // Views of a block through the union members.

  function AsNodes(b: Block): (s: seq<Inode>)
    ensures |s| == 4
  {
    if b.Nodes? && |b.slots| == 4 then b.slots else [Blank, Blank, Blank, Blank]
  }

  function AsBits(b: Block): (s: seq<bv8>)
    ensures |s| == BLOCK_SIZE
  {
    if b.Bits? && |b.bits| == BLOCK_SIZE then b.bits else seq(BLOCK_SIZE, _ => 0)
  }

  function AsBytes(b: Block): (s: seq<Byte>)
    ensures |s| == BLOCK_SIZE
  {
    if b.Data? && |b.bytes| == BLOCK_SIZE then b.bytes else Zeros()
  }

  function Zeros(): (s: seq<Byte>)
    ensures |s| == BLOCK_SIZE && forall i :: 0 <= i < |s| ==> s[i] == 0
  {
    seq(BLOCK_SIZE, _ => 0)
  }

  function AsNext(b: Block): int {
    if b.Link? then b.next else 0
  }

  function AsSuper(b: Block): SuperBlock {
    var x := AsNodes(b)[0];
    if x.Super? then SuperBlock(x.head, x.size) else SuperBlock(0, 0)
  }

  function SlotAt(blocks: seq<Block>, i: int): Inode
    requires |blocks| == MAX_BLOCK_NUM && 0 <= i < SLOT_COUNT
  {
    AsNodes(blocks[i / 4])[i % 4]
  }

  // The bitmap: bit 7 of a byte is its first inode.

  function Mask(j: nat): bv8 {
    if j == 0 then 0x80 else if j == 1 then 0x40 else if j == 2 then 0x20 else if j == 3 then 0x10
    else if j == 4 then 0x08 else if j == 5 then 0x04 else if j == 6 then 0x02 else 0x01
  }

  predicate Bit(b: bv8, j: nat) {
    b & Mask(j) != 0
  }

  predicate BitAt(block: Block, i: nat)
    requires i < BITMAP_NODES
  {
    Bit(AsBits(block)[i / 8], i % 8)
  }

  // How the ghost fields of Machine describe the disk.

  ghost predicate NodesOk(blocks: seq<Block>, nodes: seq<Inode>) {
    && |blocks| == MAX_BLOCK_NUM
    && |nodes| == SLOT_COUNT
    && forall i {:trigger SlotAt(blocks, i)} :: 0 <= i < SLOT_COUNT ==> SlotAt(blocks, i) == nodes[i]
  }

  ghost predicate BitsOk(block: Block, freeNodes: set<int>) {
    && (forall i :: i in freeNodes ==> 0 <= i < BITMAP_NODES)
    && forall i {:trigger BitAt(block, i)} :: 0 <= i < BITMAP_NODES ==> (BitAt(block, i) <==> i in freeNodes)
  }

  function LinkAfter(chain: seq<int>, k: nat): int {
    if k < |chain| then chain[k] else -1
  }

  /** The free chain: starts at head, visits exactly `chain`, ends in -1. */
  ghost predicate ChainOk(blocks: seq<Block>, head: int, size: int, chain: seq<int>)
    requires |blocks| == MAX_BLOCK_NUM
  {
    && size == |chain|
    && head == LinkAfter(chain, 0)
    && (forall k {:trigger chain[k]} :: 0 <= k < |chain| ==>
          1 <= chain[k] < MAX_BLOCK_NUM && blocks[chain[k]] == Link(LinkAfter(chain, k + 1)))
    && (forall j, k {:trigger chain[j], chain[k]} :: 0 <= j < k < |chain| ==> chain[j] != chain[k])
  }

  ghost predicate DataOk(blocks: seq<Block>, chain: seq<int>, data: map<int, seq<Byte>>)
    requires |blocks| == MAX_BLOCK_NUM
  {
    forall b {:trigger data[b]} {:trigger b in data} :: b in data ==>
      INODE_BLK_SIZE < b < MAX_BLOCK_NUM && |data[b]| == BLOCK_SIZE && b !in chain && blocks[b] == Data(data[b])
  }

  ghost predicate DiskOk(blocks: seq<Block>, super: SuperBlock, nodes: seq<Inode>, freeNodes: set<int>,
                         chain: seq<int>, data: map<int, seq<Byte>>)
  {
    && NodesOk(blocks, nodes)
    && nodes[0] == Super(super.head, super.size)
    && BitsOk(blocks[INODE_BLK_SIZE], freeNodes)
    && ChainOk(blocks, super.head, super.size, chain)
    && DataOk(blocks, chain, data)
  }

  /** An object of the file system: a file or directory, its list, and the
      inodes that index the list. */
  datatype Obj = Obj(kind: Kind, pno: int, nlink: int, fsize: int,
                     entries: seq<Entry>, leaves: seq<int>, exts: seq<int>)

  /** The program's globals. The ghost fields are what the blocks stand for. */
  class Machine {
    var blocks: seq<Block>
    var super: SuperBlock
    var blockBuf: Block
    var nodeBuf: seq<Inode>
    var errno: int
    const d: array<Entry>
    const f: array<Entry>

    ghost var nodes: seq<Inode>
    ghost var freeNodes: set<int>
    ghost var chain: seq<int>
    ghost var data: map<int, seq<Byte>>
    ghost var objs: map<int, Obj>

    ghost predicate Sound()
      reads this
    {
      && d.Length == DENTRY_MAX_SIZE
      && f.Length == FENTRY_MAX_SIZE
      && DiskOk(blocks, super, nodes, freeNodes, chain, data)
    }

    /** No inode block and not the bitmap is in the free chain. */
    ghost predicate Formatted()
      reads this
    {
      forall k :: 0 <= k < |chain| ==> INODE_BLK_SIZE < chain[k]
    }

    constructor (image: seq<Block>)
      requires |image| == MAX_BLOCK_NUM
      ensures blocks == image && errno == 0
      ensures fresh(d) && fresh(f) && d.Length == DENTRY_MAX_SIZE && f.Length == FENTRY_MAX_SIZE
    {
      blocks := image;
      super := SuperBlock(0, 0);
      blockBuf := Link(0);
      nodeBuf := [Blank, Blank, Blank, Blank];
      errno := 0;
      d := new Entry[DENTRY_MAX_SIZE](_ => Ent("", 0));
      f := new Entry[FENTRY_MAX_SIZE](_ => Blk(0));
      nodes, freeNodes, chain, data, objs := [], {}, [], map[], map[];
    }

    method ErrnoPush(err: int)
      modifies `errno
      ensures errno == err
    {
      errno := err;
    }

    method ErrnoPop() returns (err: int)
      modifies `errno
      ensures err == old(errno) && errno == 0
    {
      err := errno;
      errno := 0;
    }
  }
}
