/** The free blocks: a list threaded through the free blocks themselves (free_block.c). */
module FreeBlock {
  import opened Disk

  /** Everything but the superblock has been written. */
  ghost predicate Pending(m: Machine)
    reads m
  {
    && m.d.Length == DENTRY_MAX_SIZE && m.f.Length == FENTRY_MAX_SIZE
    && NodesOk(m.blocks, m.nodes) && BitsOk(m.blocks[INODE_BLK_SIZE], m.freeNodes)
    && ChainOk(m.blocks, m.super.head, m.super.size, m.chain) && DataOk(m.blocks, m.chain, m.data)
  }

  lemma SlotZero(blocks: seq<Block>, nodes: seq<Inode>, x: Inode)
    requires NodesOk(blocks, nodes)
    ensures NodesOk(blocks[0 := Nodes(AsNodes(blocks[0])[0 := x])], nodes[0 := x])
  {
    var blocks' := blocks[0 := Nodes(AsNodes(blocks[0])[0 := x])];
    forall i | 0 <= i < SLOT_COUNT
      ensures SlotAt(blocks', i) == nodes[0 := x][i]
    {
      assert SlotAt(blocks, i) == nodes[i];
    }
  }

  lemma ZeroApart(blocks: seq<Block>, head: int, size: int, chain: seq<int>, data: map<int, seq<Byte>>)
    requires |blocks| == MAX_BLOCK_NUM && ChainOk(blocks, head, size, chain) && DataOk(blocks, chain, data)
    ensures 0 !in chain && 0 !in data
  {
  }

  /** SuperBlockBuf is written to the first quarter of block 0, the inodes in
      the other three quarters stay. */
  method SuperblockWrite(m: Machine)
    requires NodesOk(m.blocks, m.nodes)
    modifies m`blocks, m`blockBuf, m`nodes
    ensures NodesOk(m.blocks, m.nodes)
    ensures m.blocks == old(m.blocks)[0 := m.blocks[0]]
    ensures m.nodes == old(m.nodes)[0 := Super(m.super.head, m.super.size)]
    ensures old(Pending(m)) ==> m.Sound()
  {
    SlotZero(m.blocks, m.nodes, Super(m.super.head, m.super.size));
    hide NodesOk, ChainOk, DataOk, BitsOk;
    if Pending(m) {
      ZeroApart(m.blocks, m.super.head, m.super.size, m.chain, m.data);
      ghost var x := Nodes(AsNodes(m.blocks[0])[0 := Super(m.super.head, m.super.size)]);
      ChainApart(m.blocks, m.super.head, m.super.size, m.chain, 0, x);
      DataApart(m.blocks, m.chain, m.data, 0, x);
    }
    m.blockBuf := m.blocks[0];
    m.blockBuf := Nodes(AsNodes(m.blockBuf)[0 := Super(m.super.head, m.super.size)]);
    m.blocks := m.blocks[0 := m.blockBuf];
    m.nodes := m.nodes[0 := Super(m.super.head, m.super.size)];
  }

  method SuperblockRead(m: Machine)
    requires NodesOk(m.blocks, m.nodes) && m.nodes[0].Super?
    modifies m`super, m`blockBuf
    ensures m.super == SuperBlock(m.nodes[0].head, m.nodes[0].size)
  {
    m.blockBuf := m.blocks[0];
    m.super := AsSuper(m.blockBuf);
    assert SlotAt(m.blocks, 0) == m.nodes[0];
  }

  /** Writing outside the inode blocks leaves every inode slot alone. */
  lemma SlotsApart(blocks: seq<Block>, nodes: seq<Inode>, b: int, x: Block)
    requires NodesOk(blocks, nodes) && INODE_BLK_SIZE <= b < MAX_BLOCK_NUM
    ensures NodesOk(blocks[b := x], nodes)
  {
    forall i | 0 <= i < SLOT_COUNT
      ensures SlotAt(blocks[b := x], i) == nodes[i]
    {
      assert SlotAt(blocks, i) == nodes[i];
    }
  }

  /** Writes outside the chain do not affect it. */
  lemma ChainApart(blocks: seq<Block>, head: int, size: int, chain: seq<int>, b: int, x: Block)
    requires |blocks| == MAX_BLOCK_NUM && ChainOk(blocks, head, size, chain)
    requires 0 <= b < MAX_BLOCK_NUM && b !in chain
    ensures ChainOk(blocks[b := x], head, size, chain)
  {
  }

  lemma ChainPop(blocks: seq<Block>, head: int, size: int, chain: seq<int>)
    requires |blocks| == MAX_BLOCK_NUM && ChainOk(blocks, head, size, chain) && chain != []
    ensures 1 <= head < MAX_BLOCK_NUM && head == chain[0] && head !in chain[1..]
    ensures ChainOk(blocks, AsNext(blocks[head]), size - 1, chain[1..])
  {
  }

  lemma ChainPush(blocks: seq<Block>, head: int, size: int, chain: seq<int>, b: int)
    requires |blocks| == MAX_BLOCK_NUM && ChainOk(blocks, head, size, chain)
    requires 1 <= b < MAX_BLOCK_NUM && b !in chain
    ensures ChainOk(blocks[b := Link(head)], b, size + 1, [b] + chain)
  {
  }

  lemma DataApart(blocks: seq<Block>, chain: seq<int>, data: map<int, seq<Byte>>, b: int, x: Block)
    requires |blocks| == MAX_BLOCK_NUM && DataOk(blocks, chain, data)
    requires 0 <= b < MAX_BLOCK_NUM && b !in data
    ensures DataOk(blocks[b := x], chain, data)
  {
  }

  lemma DataFewer(blocks: seq<Block>, chain: seq<int>, less: seq<int>, data: map<int, seq<Byte>>)
    requires |blocks| == MAX_BLOCK_NUM && DataOk(blocks, chain, data)
    requires forall b :: b in less ==> b in chain
    ensures DataOk(blocks, less, data)
  {
  }

  /** Block b becomes a data block holding x. */
  lemma DataWritten(blocks: seq<Block>, chain: seq<int>, data: map<int, seq<Byte>>, b: int, x: seq<Byte>)
    requires |blocks| == MAX_BLOCK_NUM && DataOk(blocks, chain, data)
    requires INODE_BLK_SIZE < b < MAX_BLOCK_NUM && b !in chain && |x| == BLOCK_SIZE
    ensures DataOk(blocks[b := Data(x)], chain, data[b := x])
  {
  }

  lemma DataDropped(blocks: seq<Block>, chain: seq<int>, data: map<int, seq<Byte>>, b: int, x: Block)
    requires |blocks| == MAX_BLOCK_NUM && DataOk(blocks, chain, data)
    requires INODE_BLK_SIZE < b < MAX_BLOCK_NUM
    ensures DataOk(blocks[b := x], [b] + chain, data - {b})
  {
  }

  lemma ChainHead(blocks: seq<Block>, head: int, size: int, chain: seq<int>)
    requires |blocks| == MAX_BLOCK_NUM && ChainOk(blocks, head, size, chain)
    ensures head == LinkAfter(chain, 0) && size == |chain| && (head > 0 <==> chain != []) && head < MAX_BLOCK_NUM
  {
  }

  lemma DiskHas(m: Machine)
    requires m.Sound()
    ensures Pending(m) && |m.blocks| == MAX_BLOCK_NUM && |m.nodes| == SLOT_COUNT
    ensures m.nodes[0] == Super(m.super.head, m.super.size)
  {
  }

  /** The steps that pop and allocate share: the top leaves the chain. */
  method TakeTop(m: Machine)
    requires m.Sound() && m.chain != []
    modifies m`blocks, m`blockBuf, m`super, m`nodes, m`chain
    ensures m.Sound() && m.chain == old(m.chain)[1..] && old(m.chain)[0] !in m.chain
    ensures m.nodes == old(m.nodes)[0 := m.nodes[0]]
    ensures m.blocks == old(m.blocks)[0 := m.blocks[0]]
  {
    DiskHas(m);
    hide DiskOk, NodesOk, ChainOk, DataOk, BitsOk;
    ChainHead(m.blocks, m.super.head, m.super.size, m.chain);
    ChainPop(m.blocks, m.super.head, m.super.size, m.chain);
    DataFewer(m.blocks, m.chain, m.chain[1..], m.data);
    m.blockBuf := m.blocks[m.super.head];
    m.super := m.super.(size := m.super.size - 1);
    m.super := m.super.(head := AsNext(m.blockBuf));
    m.chain := m.chain[1..];
    SuperblockWrite(m);
  }

  method Pop(m: Machine) returns (blockNum: int)
    requires m.Sound()
    modifies m`blocks, m`blockBuf, m`super, m`nodes, m`chain, m`errno
    ensures m.Sound()
    ensures blockNum == LinkAfter(old(m.chain), 0)
    ensures m.chain == if old(m.chain) == [] then [] else old(m.chain)[1..]
    ensures m.errno == if old(m.chain) == [] then -ENOSPC else old(m.errno)
    ensures m.nodes == old(m.nodes)[0 := m.nodes[0]]
    ensures m.blocks == old(m.blocks)[0 := m.blocks[0]]
  {
    DiskHas(m);
    hide DiskOk, NodesOk, ChainOk, DataOk, BitsOk;
    ChainHead(m.blocks, m.super.head, m.super.size, m.chain);
    SuperblockRead(m);
    blockNum := m.super.head;
    if blockNum > 0 {
      TakeTop(m);
    } else {
      m.ErrnoPush(-ENOSPC);
    }
  }

  /** `buff` None is the C null pointer: the block is handed out zeroed. */
  method Allocate(m: Machine, buff: Option<seq<Byte>>) returns (blockNum: int)
    requires m.Sound() && m.Formatted()
    requires buff.Some? ==> |buff.value| == BLOCK_SIZE
    modifies m`blocks, m`blockBuf, m`super, m`nodes, m`chain, m`data, m`errno
    ensures m.Sound() && m.Formatted()
    ensures blockNum == LinkAfter(old(m.chain), 0)
    ensures m.nodes == old(m.nodes)[0 := m.nodes[0]]
    ensures old(m.chain) == [] ==>
      m.chain == [] && m.data == old(m.data) && m.errno == -ENOSPC && m.blocks == old(m.blocks)
    ensures old(m.chain) != [] ==>
      && m.chain == old(m.chain)[1..]
      && m.data == old(m.data)[blockNum := if buff.Some? then buff.value else Zeros()]
      && m.errno == old(m.errno)
      && blockNum !in old(m.data)
  {
    DiskHas(m);
    hide DiskOk, NodesOk, ChainOk, DataOk, BitsOk;
    ChainHead(m.blocks, m.super.head, m.super.size, m.chain);
    SuperblockRead(m);
    blockNum := m.super.head;
    if blockNum > 0 {
      assert INODE_BLK_SIZE < m.chain[0];
      NotData(m, blockNum);
      TakeTop(m);
      DiskHas(m);
      var content := if buff.Some? then buff.value else Zeros();
      SlotsApart(m.blocks, m.nodes, blockNum, Data(content));
      ChainApart(m.blocks, m.super.head, m.super.size, m.chain, blockNum, Data(content));
      DataWritten(m.blocks, m.chain, m.data, blockNum, content);
      m.blocks := m.blocks[blockNum := Data(content)];
      m.data := m.data[blockNum := content];
      Closed(m);
    } else {
      m.ErrnoPush(-ENOSPC);
    }
  }

  method Push(m: Machine, blockNum: int) returns (size: int)
    requires m.Sound() && m.Formatted()
    requires INODE_BLK_SIZE < blockNum < MAX_BLOCK_NUM && blockNum !in m.chain
    modifies m`blocks, m`blockBuf, m`super, m`nodes, m`chain, m`data
    ensures m.Sound() && m.Formatted()
    ensures m.chain == [blockNum] + old(m.chain)
    ensures m.data == old(m.data) - {blockNum}
    ensures m.nodes == old(m.nodes)[0 := m.nodes[0]]
    ensures size == |m.chain|
  {
    DiskHas(m);
    hide DiskOk, NodesOk, ChainOk, DataOk, BitsOk;
    ChainHead(m.blocks, m.super.head, m.super.size, m.chain);
    SuperblockRead(m);
    // The rest of BlockBuf is still a copy of block 0; only the link is read back.
    m.blockBuf := Link(m.super.head);
    SlotsApart(m.blocks, m.nodes, blockNum, m.blockBuf);
    ChainPush(m.blocks, m.super.head, m.super.size, m.chain, blockNum);
    DataDropped(m.blocks, m.chain, m.data, blockNum, m.blockBuf);
    m.blocks := m.blocks[blockNum := m.blockBuf];
    m.super := m.super.(size := m.super.size + 1);
    m.super := m.super.(head := blockNum);
    m.data := m.data - {blockNum};
    m.chain := [blockNum] + m.chain;
    SuperblockWrite(m);
    size := m.super.size;
  }

  lemma NotData(m: Machine, b: int)
    requires m.Sound() && b in m.chain
    ensures b !in m.data
  {
  }

  lemma Closed(m: Machine)
    requires Pending(m) && m.nodes[0] == Super(m.super.head, m.super.size)
    ensures m.Sound()
  {
  }

  lemma ChainNums(m: Machine)
    requires m.Sound()
    ensures forall k :: 0 <= k < |m.chain| ==> 1 <= m.chain[k] < MAX_BLOCK_NUM
  {
  }

  lemma DataNums(m: Machine, b: int)
    requires m.Sound()
    ensures b in m.data ==> INODE_BLK_SIZE < b < MAX_BLOCK_NUM && b !in m.chain
  {
  }

  /** Popping until it fails hands out the whole chain, from the top, and not one block more. */
  method Drain(m: Machine) returns (popped: seq<int>, last: int)
    requires m.Sound()
    modifies m`blocks, m`blockBuf, m`super, m`nodes, m`chain, m`errno
    ensures m.Sound() && popped == old(m.chain) && last == -1 && m.chain == [] && m.errno == -ENOSPC
  {
    hide DiskOk;
    popped := [];
    ChainNums(m);
    var b := Pop(m);
    while b > 0
      invariant m.Sound()
      invariant b > 0 ==> old(m.chain) == popped + [b] + m.chain
      invariant b <= 0 ==> b == -1 && popped == old(m.chain) && m.chain == [] && m.errno == -ENOSPC
      decreases |m.chain|, b
    {
      popped := popped + [b];
      ChainNums(m);
      b := Pop(m);
    }
    last := b;
  }

  /** The copy in memory, not the one on disk. */
  method Size(m: Machine) returns (size: int)
    requires m.Sound()
    ensures size == |m.chain|
    ensures m.nodes[0].Super? && size == m.nodes[0].size
  {
    size := m.super.size;
  }

  /** block_read of a block that belongs to a file. */
  method BlockRead(m: Machine, blockNum: int) returns (bytes: seq<Byte>)
    requires m.Sound() && blockNum in m.data
    ensures bytes == m.data[blockNum] && |bytes| == BLOCK_SIZE
  {
    bytes := AsBytes(m.blocks[blockNum]);
  }

  /** block_write to a block that belongs to a file: the free chain is not affected. */
  method BlockWrite(m: Machine, blockNum: int, bytes: seq<Byte>)
    requires m.Sound() && m.Formatted() && blockNum in m.data && |bytes| == BLOCK_SIZE
    modifies m`blocks, m`data
    ensures m.Sound() && m.Formatted()
    ensures m.data == old(m.data)[blockNum := bytes]
  {
    SlotsApart(m.blocks, m.nodes, blockNum, Data(bytes));
    m.blocks := m.blocks[blockNum := Data(bytes)];
    m.data := m.data[blockNum := bytes];
  }

  /** The chain made by free_block_init, from block `first` on. */
  function Upward(first: int): (s: seq<int>)
    requires 1 <= first <= MAX_BLOCK_NUM
    ensures |s| == MAX_BLOCK_NUM - first
    ensures forall k :: 0 <= k < |s| ==> s[k] == first + k
  {
    seq(MAX_BLOCK_NUM - first, k requires 0 <= k => first + k)
  }

  ghost function SlotsOf(blocks: seq<Block>): (nodes: seq<Inode>)
    requires |blocks| == MAX_BLOCK_NUM
    ensures NodesOk(blocks, nodes)
  {
    seq(SLOT_COUNT, i requires 0 <= i < SLOT_COUNT => SlotAt(blocks, i))
  }

  ghost function BitsOf(block: Block): (freeNodes: set<int>)
    ensures BitsOk(block, freeNodes)
  {
    set i | 0 <= i < BITMAP_NODES && BitAt(block, i)
  }

  /** The loop of free_block_init: every block but the first is linked to the next one. */
  method LinkUpward(m: Machine)
    requires |m.blocks| == MAX_BLOCK_NUM
    modifies m`blocks, m`blockBuf
    ensures |m.blocks| == MAX_BLOCK_NUM && m.blocks[0] == old(m.blocks[0]) && m.blocks[MAX_BLOCK_NUM - 1] == Link(-1)
    ensures forall k :: 1 <= k < MAX_BLOCK_NUM - 1 ==> m.blocks[k] == Link(k + 1)
  {
    for i := 1 to MAX_BLOCK_NUM - 1
      invariant |m.blocks| == MAX_BLOCK_NUM && m.blocks[0] == old(m.blocks[0])
      invariant forall k :: 1 <= k < i ==> m.blocks[k] == Link(k + 1)
    {
      m.blockBuf := Link(i + 1);
      m.blocks := m.blocks[i := m.blockBuf];
    }
    m.blockBuf := Link(-1);
    m.blocks := m.blocks[MAX_BLOCK_NUM - 1 := m.blockBuf];
  }

  /** Whatever the disk held before: afterwards all blocks but block 0 are free, in order. */
  method Init(m: Machine)
    requires |m.blocks| == MAX_BLOCK_NUM && m.d.Length == DENTRY_MAX_SIZE && m.f.Length == FENTRY_MAX_SIZE
    modifies m`blocks, m`blockBuf, m`super, m`nodes, m`chain, m`data, m`freeNodes
    ensures m.Sound()
    ensures m.chain == Upward(1) && m.data == map[]
  {
    hide NodesOk, ChainOk, BitsOk, DataOk;
    m.super := SuperBlock(1, MAX_BLOCK_NUM - 1);
    m.nodes := SlotsOf(m.blocks);
    SuperblockWrite(m);
    ZeroSlot(m.blocks, m.nodes);
    LinkUpward(m);
    m.nodes := SlotsOf(m.blocks);
    ZeroSlot(m.blocks, m.nodes);
    UpwardChain(m.blocks);
    m.freeNodes := BitsOf(m.blocks[INODE_BLK_SIZE]);
    m.chain := Upward(1);
    m.data := map[];
    assert DataOk(m.blocks, m.chain, m.data) by { NoData(m.blocks, m.chain); }
  }

  lemma ZeroSlot(blocks: seq<Block>, nodes: seq<Inode>)
    requires NodesOk(blocks, nodes)
    ensures |nodes| == SLOT_COUNT && AsNodes(blocks[0])[0] == nodes[0]
  {
    assert SlotAt(blocks, 0) == nodes[0];
  }

  lemma UpwardChain(blocks: seq<Block>)
    requires |blocks| == MAX_BLOCK_NUM && blocks[MAX_BLOCK_NUM - 1] == Link(-1)
    requires forall k :: 1 <= k < MAX_BLOCK_NUM - 1 ==> blocks[k] == Link(k + 1)
    ensures ChainOk(blocks, 1, MAX_BLOCK_NUM - 1, Upward(1))
  {
  }

  lemma NoData(blocks: seq<Block>, chain: seq<int>)
    requires |blocks| == MAX_BLOCK_NUM
    ensures DataOk(blocks, chain, map[])
  {
  }
}
