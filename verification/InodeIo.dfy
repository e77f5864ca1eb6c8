/** Reading and writing single inode slots, four to a block (inode.c:10-119). */
module InodeIo {
  import opened Disk
  import opened FreeBlock

  lemma SlotWritten(blocks: seq<Block>, nodes: seq<Inode>, inum: int, x: Inode)
    requires NodesOk(blocks, nodes) && 0 <= inum < SLOT_COUNT
    ensures NodesOk(blocks[inum / 4 := Nodes(AsNodes(blocks[inum / 4])[inum % 4 := x])], nodes[inum := x])
  {
    var blocks' := blocks[inum / 4 := Nodes(AsNodes(blocks[inum / 4])[inum % 4 := x])];
    forall i | 0 <= i < SLOT_COUNT
      ensures SlotAt(blocks', i) == nodes[inum := x][i]
    {
      assert SlotAt(blocks, i) == nodes[i];
    }
  }

  method InodeLoad(m: Machine, inum: int) returns (x: Inode)
    requires m.Sound() && 0 <= inum < SLOT_COUNT
    modifies m`nodeBuf
    ensures x == m.nodes[inum]
  {
    var bidx, iidx := inum / 4, inum % 4;
    m.nodeBuf := AsNodes(m.blocks[bidx]);
    x := m.nodeBuf[iidx];
    assert SlotAt(m.blocks, inum) == m.nodes[inum];
  }

  /** Every other inode stays, and for inodes 1..3 so does the superblock they share a block with. */
  method InodeDump(m: Machine, inum: int, x: Inode)
    requires m.Sound() && m.Formatted() && 1 <= inum < SLOT_COUNT
    modifies m`blocks, m`nodes, m`nodeBuf
    ensures m.Sound() && m.Formatted()
    ensures m.nodes == old(m.nodes)[inum := x]
  {
    var bidx, iidx := inum / 4, inum % 4;
    m.nodeBuf := AsNodes(m.blocks[bidx]);
    m.nodeBuf := m.nodeBuf[iidx := x];
    SlotWritten(m.blocks, m.nodes, inum, x);
    ChainApart(m.blocks, m.super.head, m.super.size, m.chain, bidx, Nodes(m.nodeBuf));
    DataApart(m.blocks, m.chain, m.data, bidx, Nodes(m.nodeBuf));
    m.blocks := m.blocks[bidx := Nodes(m.nodeBuf)];
    m.nodes := m.nodes[inum := x];
  }
}
