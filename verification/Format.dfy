/** Making a file system on a disk of any content (sfs.c:50-62, inode.c:29-41). */
module Format {
  import opened Disk
  import opened IndexSpec
  import opened FreeBlock
  import opened InodeIo
  import opened Bitmap
  import opened Owners
  import opened Blocks
  import opened Tree
  import opened FileSystem
  import opened Sfs
  import opened Attributes

  ghost function FirstFree(): set<int> { NodesFrom(ROOT + 1) }

  /** An empty root, inodes 3..1023 free, blocks 1025..32767 free in this order. */
  ghost function InitialFs(): Fs {
    Fs(map[ROOT := NewObj(Dir, ROOT, ROOT)], FirstFree(), Upward(INODE_BLK_SIZE + 1), map[])
  }

  lemma InitialOwnership()
    ensures Ownership(InitialFs().objs, InitialFs().free)
  {
    var objs, roles := InitialFs().objs, map[ROOT := HeadRole];
    assert Assigned(ROOT, objs[ROOT], roles);
    assert Owned(objs, FirstFree(), roles);
  }

  lemma InitialBlocks()
    ensures BlocksOwned(InitialFs().objs, map[]) && Covered(InitialFs().chain, map[])
  {
    var homes: map<int, Home> := map[];
    assert Homed(InitialFs().objs, map[], homes);
    var chain := Upward(INODE_BLK_SIZE + 1);
    forall b
      ensures INODE_BLK_SIZE < b < MAX_BLOCK_NUM <==> b in chain
    {
      if INODE_BLK_SIZE < b < MAX_BLOCK_NUM {
        assert chain[b - INODE_BLK_SIZE - 1] == b;
      }
    }
  }

  lemma InitialTree()
    ensures TreeOk(InitialFs().objs) && AllShaped(InitialFs().objs)
  {
    assert Ranked(InitialFs().objs, map[ROOT := 0]);
  }

  lemma InitialInv()
    ensures Inv(InitialFs())
  {
    InitialOwnership();
    InitialBlocks();
    InitialTree();
  }

  function FirstBits(): (bits: seq<bv8>)
    ensures |bits| == BLOCK_SIZE
  {
    [0x1f] + seq(BLOCK_SIZE - 1, _ => 0xff)
  }

  lemma FirstBitsAre()
    ensures BitsOk(Bits(FirstBits()), FirstFree())
  {
    hide BitAt, FirstBits;
    forall i: nat | i < BITMAP_NODES
      ensures BitAt(Bits(FirstBits()), i) <==> i in FirstFree()
    {
      FirstBitAt(i);
    }
  }

  lemma FirstBitAt(i: nat)
    requires i < BITMAP_NODES
    ensures BitAt(Bits(FirstBits()), i) <==> i >= 3
  {
    var k := i % 8;
    assert k == 0 || k == 1 || k == 2 || k == 3 || k == 4 || k == 5 || k == 6 || k == 7;
  }

  lemma UpwardNext(i: int)
    requires 1 <= i < MAX_BLOCK_NUM
    ensures Upward(i) != [] && Upward(i)[1..] == Upward(i + 1)
  {
  }

  /** The blocks of inodes and bitmap are taken off the chain. */
  method ReserveBlocks(m: Machine)
    requires m.Sound() && m.chain == Upward(1)
    modifies m`blocks, m`blockBuf, m`super, m`nodes, m`chain, m`errno
    ensures m.Sound() && m.chain == Upward(INODE_BLK_SIZE + 1) && m.errno == old(m.errno)
  {
    hide DiskOk, Upward;
    for i := 1 to INODE_BLK_SIZE
      invariant m.Sound() && m.chain == Upward(i) && m.errno == old(m.errno)
    {
      UpwardNext(i);
      var _ := Pop(m);
    }
    UpwardNext(INODE_BLK_SIZE);
    var _ := Pop(m); // bit map block
  }

  method InodeInit(m: Machine)
    requires m.Sound() && m.chain == Upward(1) && m.data == map[] && m.errno == 0
    modifies m`blocks, m`blockBuf, m`super, m`nodes, m`nodeBuf, m`chain, m`errno, m`freeNodes, m`objs
    ensures Valid(m) && FsOf(m) == InitialFs()
  {
    hide DiskOk, ObjRep, Inv;
    ReserveBlocks(m);
    FirstBitsAre();
    WriteBitmap(m, FirstBits(), FirstFree());
    var head := NewHead(Dir, ROOT, ROOT);
    NodesLength(m);
    InodeDump(m, ROOT, head);
    m.objs := map[ROOT := NewObj(Dir, ROOT, ROOT)];
    NodesLength(m);
    RootRep(m.nodes);
    InitialInv();
    InitialOwnership();
  }

  lemma RootRep(nodes: seq<Inode>)
    requires |nodes| == SLOT_COUNT && nodes[ROOT] == NewHead(Dir, ROOT, ROOT)
    ensures Rep(nodes, map[ROOT := NewObj(Dir, ROOT, ROOT)])
  {
    assert nodes == nodes[ROOT := nodes[ROOT]];
    NewHeadRep(nodes, Dir, ROOT, ROOT);
  }

  /** sfs_init. */
  method SfsInit(m: Machine)
    requires |m.blocks| == MAX_BLOCK_NUM && m.d.Length == DENTRY_MAX_SIZE && m.f.Length == FENTRY_MAX_SIZE
      && m.errno == 0
    modifies m`blocks, m`blockBuf, m`super, m`nodes, m`nodeBuf, m`chain, m`data, m`errno, m`freeNodes, m`objs
    ensures Valid(m) && FsOf(m) == InitialFs()
  {
    FreeBlock.Init(m);
    InodeInit(m);
  }

  lemma NextPop(n: nat)
    requires n < BITMAP_NODES
    ensures IsLeast(n, NodesFrom(n)) && NodesFrom(n) - {n} == NodesFrom(n + 1)
  {
  }

  /** From a fresh file system the bitmap hands out 3, 4, ..., 1023 and then nothing. */
  method PopAll(m: Machine) returns (popped: seq<int>)
    requires Valid(m) && FsOf(m) == InitialFs()
    modifies m`blocks, m`freeNodes, m`errno
    ensures |popped| == BITMAP_NODES - ROOT - 1 && forall k :: 0 <= k < |popped| ==> popped[k] == ROOT + 1 + k
    ensures m.freeNodes == {} && m.errno == -ENOSPC
  {
    hide DiskOk, NodesFrom, Inv, Rep, Ownership;
    popped := [];
    var inum := 1;
    while inum != 0
      invariant m.Sound() && m.Formatted()
      invariant |popped| <= BITMAP_NODES - ROOT - 1 && forall k :: 0 <= k < |popped| ==> popped[k] == ROOT + 1 + k
      invariant m.freeNodes == NodesFrom(ROOT + 1 + |popped|)
      invariant inum == 0 ==> |popped| == BITMAP_NODES - ROOT - 1 && m.freeNodes == {} && m.errno == -ENOSPC
      decreases inum != 0, BITMAP_NODES - |popped|
    {
      ghost var n := ROOT + 1 + |popped|;
      if n < BITMAP_NODES {
        NextPop(n);
      }
      NodesLeft(n);
      inum := FreeInodePop(m);
      if inum != 0 {
        popped := popped + [inum];
      }
    }
  }

  lemma NodesLeft(n: nat)
    ensures NodesFrom(n) == {} <==> n >= BITMAP_NODES
  {
  }
}
