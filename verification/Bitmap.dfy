/** The free inodes: a first-fit bitmap in block 1024 (inode.c:463-492). */
module Bitmap {
  import opened Disk
  import opened FreeBlock

  /** The masks the inner loop really uses: a signed char 0x80 shifted right
      arithmetically becomes 0xC0, 0xE0, and so on. */
  function Ones(j: nat): bv8 {
    if j == 0 then 0x80 else if j == 1 then 0xC0 else if j == 2 then 0xE0 else if j == 3 then 0xF0
    else if j == 4 then 0xF8 else if j == 5 then 0xFC else if j == 6 then 0xFE else 0xFF
  }

  function ShiftRightSigned(c: bv8): bv8 {
    (c >> 1) | (c & 0x80)
  }

  lemma OnesStep(j: nat)
    requires j < 7
    ensures ShiftRightSigned(Ones(j)) == Ones(j + 1)
  {
  }

  /** Once the bits before j are clear the wide mask tests bit j alone. */
  lemma OnesTests(b: bv8, j: nat)
    requires j < 8 && (j > 0 ==> b & Ones(j - 1) == 0)
    ensures b & Ones(j) != 0 <==> Bit(b, j)
  {
  }

  lemma OnesClears(b: bv8, j: nat, k: nat)
    requires j < 8 && k < 8 && (j > 0 ==> b & Ones(j - 1) == 0)
    ensures Bit(b & !Ones(j), k) <==> k != j && Bit(b, k)
  {
  }

  lemma OnesCover(b: bv8, j: nat, k: nat)
    requires j < 8 && b & Ones(j) == 0 && k <= j
    ensures !Bit(b, k)
  {
  }

  lemma MaskSets(b: bv8, j: nat, k: nat)
    requires j < 8 && k < 8
    ensures Bit(b | Mask(j), k) <==> k == j || Bit(b, k)
    ensures (0x80 as bv8) >> j == Mask(j)
  {
  }

  /** The inodes of the bitmap from n on. */
  ghost function NodesFrom(n: nat): (s: set<int>)
    ensures forall x :: x in s <==> n <= x < BITMAP_NODES
    decreases BITMAP_NODES - n
  {
    if n >= BITMAP_NODES then {} else {n} + NodesFrom(n + 1)
  }

  ghost predicate IsLeast(x: int, s: set<int>) {
    x in s && forall y :: y in s ==> x <= y
  }

  /** A new bitmap byte, with every other bit kept, describes the changed set. */
  lemma BitsAfter(block: Block, freeNodes: set<int>, inum: nat, byte: bv8, freeNodes': set<int>)
    requires BitsOk(block, freeNodes) && inum < BITMAP_NODES
    requires forall k: nat :: k < 8 ==>
      (Bit(byte, k) <==> if k == inum % 8 then inum in freeNodes' else Bit(AsBits(block)[inum / 8], k))
    requires forall x :: x != inum ==> (x in freeNodes <==> x in freeNodes')
    ensures BitsOk(Bits(AsBits(block)[inum / 8 := byte]), freeNodes')
  {
    var bits := AsBits(block);
    var block' := Bits(bits[inum / 8 := byte]);
    forall i: nat | i < BITMAP_NODES
      ensures BitAt(block', i) <==> i in freeNodes'
    {
      assert BitAt(block, i) <==> i in freeNodes;
      assert Bit(byte, i % 8) <==> if i % 8 == inum % 8 then inum in freeNodes' else Bit(bits[inum / 8], i % 8);
    }
  }

  lemma BitsFixByte(b: bv8, c: bv8)
    requires forall k: nat :: k < 8 ==> (Bit(b, k) <==> Bit(c, k))
    ensures b == c
  {
    assert (Bit(b, 0) <==> Bit(c, 0)) && (Bit(b, 1) <==> Bit(c, 1)) && (Bit(b, 2) <==> Bit(c, 2))
        && (Bit(b, 3) <==> Bit(c, 3));
    assert (Bit(b, 4) <==> Bit(c, 4)) && (Bit(b, 5) <==> Bit(c, 5)) && (Bit(b, 6) <==> Bit(c, 6))
        && (Bit(b, 7) <==> Bit(c, 7));
  }

  /** The set of free inodes determines the bitmap, byte for byte: where it describes inodes. */
  lemma SetFixesBits(block: Block, block': Block, freeNodes: set<int>)
    requires BitsOk(block, freeNodes) && BitsOk(block', freeNodes)
    ensures AsBits(block)[..BITMAP_NODES / 8] == AsBits(block')[..BITMAP_NODES / 8]
  {
    forall i | 0 <= i < BITMAP_NODES / 8
      ensures AsBits(block)[i] == AsBits(block')[i]
    {
      forall k: nat | k < 8
        ensures Bit(AsBits(block)[i], k) <==> Bit(AsBits(block')[i], k)
      {
        assert BitAt(block, 8 * i + k) <==> BitAt(block', 8 * i + k);
      }
      BitsFixByte(AsBits(block)[i], AsBits(block')[i]);
    }
  }

  /** A bit behind the 1024 that describe inodes says nothing. */
  lemma BitsBehind(block: Block, freeNodes: set<int>, idx: nat, byte: bv8)
    requires BitsOk(block, freeNodes) && BITMAP_NODES / 8 <= idx < BLOCK_SIZE
    ensures BitsOk(Bits(AsBits(block)[idx := byte]), freeNodes)
  {
    forall i: nat | i < BITMAP_NODES
      ensures BitAt(Bits(AsBits(block)[idx := byte]), i) <==> i in freeNodes
    {
      assert BitAt(block, i) <==> i in freeNodes;
    }
  }

  ghost predicate OnlyBitmap(blocks: seq<Block>, blocks': seq<Block>) {
    |blocks| == MAX_BLOCK_NUM && |blocks'| == MAX_BLOCK_NUM
        && blocks' == blocks[INODE_BLK_SIZE := blocks'[INODE_BLK_SIZE]]
  }

  /** The bytes that describe no inode are the same. */
  ghost predicate SameTail(block: Block, block': Block) {
    AsBits(block')[BITMAP_NODES / 8..] == AsBits(block)[BITMAP_NODES / 8..]
  }

  lemma SameBits(block: Block, block': Block)
    requires SameTail(block, block') && AsBits(block)[..BITMAP_NODES / 8] == AsBits(block')[..BITMAP_NODES / 8]
    ensures AsBits(block') == AsBits(block)
  {
    var b, b' := AsBits(block), AsBits(block');
    assert b == b[..BITMAP_NODES / 8] + b[BITMAP_NODES / 8..];
    assert b' == b'[..BITMAP_NODES / 8] + b'[BITMAP_NODES / 8..];
  }

  /** Rewriting the bitmap block disturbs nothing else on the disk. */
  method WriteBitmap(m: Machine, bits: seq<bv8>, ghost freeNodes': set<int>)
    requires m.Sound() && m.Formatted()
    requires |bits| == BLOCK_SIZE && BitsOk(Bits(bits), freeNodes')
    modifies m`blocks, m`freeNodes
    ensures m.Sound() && m.Formatted()
    ensures m.freeNodes == freeNodes' && m.blocks == old(m.blocks)[INODE_BLK_SIZE := Bits(bits)]
  {
    SlotsApart(m.blocks, m.nodes, INODE_BLK_SIZE, Bits(bits));
    ChainApart(m.blocks, m.super.head, m.super.size, m.chain, INODE_BLK_SIZE, Bits(bits));
    DataApart(m.blocks, m.chain, m.data, INODE_BLK_SIZE, Bits(bits));
    m.blocks := m.blocks[INODE_BLK_SIZE := Bits(bits)];
    m.freeNodes := freeNodes';
  }

  /** The inner loop: the first bit set in a byte that is not zero, and the byte without it. */
  method FirstBit(b: bv8) returns (j: nat, rest: bv8)
    requires b != 0
    ensures j < 8 && Bit(b, j) && forall k: nat :: k < j ==> !Bit(b, k)
    ensures forall k: nat :: k < 8 ==> (Bit(rest, k) <==> k != j && Bit(b, k))
  {
    var mask: bv8 := 0x80;
    j := 0;
    while j < 8
      invariant j <= 8
      invariant j < 8 ==> mask == Ones(j)
      invariant j > 0 ==> b & Ones(j - 1) == 0
    {
      if b & mask != 0 {
        rest := b & !mask;
        OnesTests(b, j);
        forall k: nat | k < 8
          ensures Bit(rest, k) <==> k != j && Bit(b, k)
        {
          OnesClears(b, j, k);
        }
        forall k: nat | k < j
          ensures !Bit(b, k)
        {
          OnesCover(b, j - 1, k);
        }
        return;
      } else {
        if j < 7 {
          OnesStep(j);
        }
        mask := ShiftRightSigned(mask);
      }
      j := j + 1;
    }
    assert false;
  }

  /** The first bit of the first byte that is not zero is the least free inode. */
  lemma LeastBit(block: Block, freeNodes: set<int>, i: nat, j: nat)
    requires BitsOk(block, freeNodes) && i < BITMAP_NODES / 8 && j < 8 && forall x :: x in freeNodes ==> 8 * i <= x
    requires Bit(AsBits(block)[i], j) && forall k: nat :: k < j ==> !Bit(AsBits(block)[i], k)
    ensures IsLeast(8 * i + j, freeNodes)
  {
    assert BitAt(block, 8 * i + j);
    forall x | x in freeNodes
      ensures 8 * i + j <= x
    {
      assert BitAt(block, x);
    }
  }

  lemma ByteClear(block: Block, freeNodes: set<int>, i: nat)
    requires BitsOk(block, freeNodes) && i < BITMAP_NODES / 8 && forall x :: x in freeNodes ==> 8 * i <= x
    requires AsBits(block)[i] == 0
    ensures forall x :: x in freeNodes ==> 8 * (i + 1) <= x
  {
    forall x | x in freeNodes
      ensures 8 * (i + 1) <= x
    {
      assert BitAt(block, x);
    }
  }

  lemma BitmapHas(m: Machine)
    requires m.Sound()
    ensures |m.blocks| == MAX_BLOCK_NUM && BitsOk(m.blocks[INODE_BLK_SIZE], m.freeNodes)
    ensures forall x :: x in m.freeNodes ==> 0 <= x < BITMAP_NODES
  {
  }

  method FreeInodePop(m: Machine) returns (inum: int)
    requires m.Sound() && m.Formatted()
    modifies m`blocks, m`freeNodes, m`errno
    ensures m.Sound() && m.Formatted()
    ensures old(m.freeNodes) == {} ==> inum == 0 && m.errno == -ENOSPC && m.freeNodes == {} && m.blocks == old(m.blocks)
    ensures old(m.freeNodes) != {} ==>
      IsLeast(inum, old(m.freeNodes)) && m.freeNodes == old(m.freeNodes) - {inum} && m.errno == old(m.errno)
    ensures OnlyBitmap(old(m.blocks), m.blocks)
    ensures SameTail(old(m.blocks)[INODE_BLK_SIZE], m.blocks[INODE_BLK_SIZE])
  {
    BitmapHas(m);
    hide DiskOk, BitsOk, Bit;
    var bits := AsBits(m.blocks[INODE_BLK_SIZE]);
    for i := 0 to INODE_BLK_SIZE / 8
      invariant m.blocks == old(m.blocks) && m.freeNodes == old(m.freeNodes) && m.errno == old(m.errno)
      invariant forall x :: x in m.freeNodes ==> 8 * i <= x
    {
      if bits[i] != 0 {
        var j, rest := FirstBit(bits[i]);
        inum := 8 * i + j;
        LeastBit(m.blocks[INODE_BLK_SIZE], m.freeNodes, i, j);
        BitsAfter(m.blocks[INODE_BLK_SIZE], m.freeNodes, inum, rest, m.freeNodes - {inum});
        WriteBitmap(m, bits[i := rest], m.freeNodes - {inum});
        return;
      }
      ByteClear(m.blocks[INODE_BLK_SIZE], m.freeNodes, i);
    }
    m.ErrnoPush(-ENOSPC);
    inum := 0;
  }

  method FreeInodePush(m: Machine, inum: int)
    requires m.Sound() && m.Formatted() && 0 <= inum < SLOT_COUNT
    modifies m`blocks, m`freeNodes
    ensures m.Sound() && m.Formatted()
    ensures m.freeNodes == if 2 <= inum < BITMAP_NODES then old(m.freeNodes) + {inum} else old(m.freeNodes)
    ensures OnlyBitmap(old(m.blocks), m.blocks)
    ensures inum < BITMAP_NODES ==> SameTail(old(m.blocks)[INODE_BLK_SIZE], m.blocks[INODE_BLK_SIZE])
  {
    BitmapHas(m);
    hide DiskOk, BitsOk, Bit;
    if inum < 2 {
      return;
    }
    var idx, offset := inum / 8, inum % 8;
    var bits := AsBits(m.blocks[INODE_BLK_SIZE]);
    var byte := bits[idx] | ((0x80 as bv8) >> offset);
    forall k: nat | k < 8
      ensures Bit(byte, k) <==> k == offset || Bit(bits[idx], k)
    {
      MaskSets(bits[idx], offset, k);
    }
    if inum < BITMAP_NODES {
      BitsAfter(m.blocks[INODE_BLK_SIZE], m.freeNodes, inum, byte, m.freeNodes + {inum});
      WriteBitmap(m, bits[idx := byte], m.freeNodes + {inum});
    } else {
      BitsBehind(m.blocks[INODE_BLK_SIZE], m.freeNodes, idx, byte);
      WriteBitmap(m, bits[idx := byte], m.freeNodes);
    }
  }

  /** A push undoes a pop, byte for byte, unless it was inode 0 or 1, which push
      ignores; neither is ever free on a formatted disk. */
  method PopPush(m: Machine) returns (inum: int)
    requires m.Sound() && m.Formatted()
    modifies m`blocks, m`freeNodes, m`errno
    ensures m.Sound() && m.Formatted() && OnlyBitmap(old(m.blocks), m.blocks)
    ensures if old(m.freeNodes) == {} || inum >= 2
            then m.freeNodes == old(m.freeNodes)
                && AsBits(m.blocks[INODE_BLK_SIZE]) == AsBits(old(m.blocks)[INODE_BLK_SIZE])
            else m.freeNodes == old(m.freeNodes) - {inum}
  {
    BitmapHas(m);
    inum := FreeInodePop(m);
    FreeInodePush(m, inum);
    if old(m.freeNodes) == {} || inum >= 2 {
      assert m.freeNodes == old(m.freeNodes);
      SetFixesBits(old(m.blocks)[INODE_BLK_SIZE], m.blocks[INODE_BLK_SIZE], m.freeNodes);
      SameBits(old(m.blocks)[INODE_BLK_SIZE], m.blocks[INODE_BLK_SIZE]);
    }
  }
}
