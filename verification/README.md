# A verified model of the small FUSE file system

The file system stores everything on a disk of 32768 blocks of 512 bytes. Blocks 0 to 1023
hold inodes, four to a block, and the first quarter of block 0 is the superblock. Block 1024
is a bitmap of free inodes. Every other block is either a link of the free chain or holds
data of a file. This project models the storage engine (`src/prelude/`) and the operations
`src/sfs.c` composes from it, and proves what they keep and what they promise, up to whole
runs from a fresh file system.

The C globals are the fields of one class, `Disk.Machine`: the disk, the copy of the
superblock, the block and inode buffers, the error slot and the two shared caches `d` and
`f` (arrays). The C functions that are modelled are methods that take it as an argument, one
module per C file or layer. Ghost fields say what the blocks stand for:
the inodes, the set of free inodes, the free chain, the data blocks, and the objects (files
and directories with their lists). `Disk.DiskOk` and `Owners.Rep` tie them to the disk, and
each method says how they change. Above that, `FileSystem.Fs` is the state of the file system
as a value, `Runs.Next` is one operation, `Runs.Perform` proves that the program takes such
steps, and the whole-run theorems are about sequences of them.

## Layers

| module | what it is about |
|---|---|
| Disk, FreeBlock, InodeIo, Bitmap | block 0 shared by superblock and inodes, the free chain as a stack, inode slots, the bitmap as a set with extract-min |
| IndexSpec, IndexRead, Layout, IndexWrite, PointAccess | the three-level index as a sequence: listing, listing_set, single entries |
| Owners, Accounting | which inode serves which object; how many inodes a resize takes, gives back and strands |
| Attributes, Blocks, StreamRead, StreamWrite, StreamFree | file metadata, ownership of data blocks, byte ranges |
| Names, Directory, Path, Tree, Naming | entries, the tokenizer, the name space as a tree |
| FileSystem, Sfs, Format, Runs | steps, the invariant, the operations, the fresh file system, runs |
| Contents, Tails, Effects, Conservation, Lookups, Leaks | what the steps mean: bytes, results, what comes and goes, what comes back, paths, lost inodes |

Most methods start with a `hide` statement that keeps definitions they do not need from the
verifier; it has no effect on what is proved.

## Where the code deviates from its evident intent

The model keeps these as they are, and the theorems give the exact condition.

* Shrinking a list to an end inside an extension page that stays releases no leaf of that
  page (`src/prelude/inode.c:341-353`, `src/prelude/inode.c:444-456`): those leaves remain
  marked as used for ever. `Accounting.ShrinkAccounting` counts them, `Accounting.NothingStranded`
  says when there are none, `Accounting.OneBlockLess` is a concrete size, and `Leaks.RunLeaks`
  is the exact statement over whole runs.
* So create followed by unlink in a directory of, for example, 46 entries loses an inode;
  `Conservation.CreateWriteRemove` has the condition on the number of entries.
* Shortening a file keeps the old bytes of the block that is cut (`src/sfs.c:274-281`), and a
  later write past the end does not clear them: the gap shows them instead of zeros.
  `Contents.ShortenThenWrite` says which bytes show, `Contents.OldByteShows` is the smallest case,
  and `Tails.RunTail` is the exact condition over whole runs.
* A write that reaches beyond the largest file stores what fits and still returns the full
  size (`src/prelude/stream.c:46-64`): `Contents.WriteReaches`.
* A write that runs out of blocks returns -ENOSPC but still sets the file size to the end of
  the request (`src/prelude/stream.c:57-61`), so what was not stored reads as zeros:
  `Contents.PartialWrite`. After such a failure sfs_write pops an inode for a log line and never
  gives it back (`src/sfs.c:248-257`): `Leaks.SaveLeaks` says exactly when one is lost.
* The page arithmetic of single-entry access is wrong behind the first 64 entries of the
  second level (`src/prelude/inode.c:142-143`, `src/prelude/inode.c:170-171`):
  `PointAccess.AddressExact`.
* README.md of the repository promises 4091 inodes and 2084 entries of a directory. The
  bitmap loop looks at 1024 inodes only (`src/prelude/inode.c:467`), 1021 of which can be
  handed out (`Format.PopAll`). Since every entry but the dot entries has an inode of its own,
  no directory ever has more than 1023 entries (`FileSystem.DirBound`): create and mkdir never
  meet the limit of 2085 in `src/prelude/inode.c:287-290`, and in the runs modelled here they
  never revert (`src/sfs.c:130-133`). A growing truncate on a full disk, which is not modelled,
  leaves an error pending that makes the next create revert.
* The mask of the bitmap search is a signed char. Shifting it right is implementation-defined
  by section 6.5.7 of ISO/IEC 9899:2011; the model takes the arithmetic shift of gcc, whose
  masks 0xC0, 0xE0, ... have more than one bit set, and proves that this does no harm.

## Model

| member | source | states |
|---|---|---|
| Disk.Machine.ErrnoPush | src/prelude/err.c:1-11 | the last error is kept |
| Disk.Machine.ErrnoPop | src/prelude/err.c:1-11 | the error is returned once and then gone |
| FreeBlock.SuperblockWrite | src/prelude/free_block.c:19-23 | only slot 0 of block 0 changes: inodes 1 to 3 in the same block, every chain and all data blocks stay |
| FreeBlock.SuperblockRead | src/prelude/free_block.c:25-28 | the copy in memory becomes the one on disk |
| FreeBlock.ChainApart | src/prelude/free_block.c:48-96 | a write to a block outside the free chain does not affect the chain |
| FreeBlock.ChainPop | src/prelude/free_block.c:48-62 | without its top the rest is again an acyclic chain of the right length that ends in -1 |
| FreeBlock.ChainPush | src/prelude/free_block.c:86-96 | linking a block that is not in the chain makes it the new top |
| FreeBlock.Pop | src/prelude/free_block.c:48-62 | takes the top of the chain, or returns -1 with -ENOSPC pending when it is empty; nothing but block 0 changes |
| FreeBlock.Allocate | src/prelude/free_block.c:64-84 | takes the top and turns it into a data block with the given bytes or zeros; the block was no data block before; on an empty chain the disk is untouched |
| FreeBlock.Push | src/prelude/free_block.c:86-96 | a block behind the bitmap that is not in the chain becomes its top and is no data block any more; the new length is returned |
| FreeBlock.Drain | src/prelude/main.c:55-63 | popping until failure yields the whole chain in order, exactly as many blocks as its size, and then -1 |
| FreeBlock.Size | src/prelude/free_block.c:98-100 | the copy in memory is the length of the chain and equals the superblock on disk |
| FreeBlock.Init | src/prelude/free_block.c:30-46 | whatever the disk held, afterwards the chain is 1 to 32767 in order |
| InodeIo.InodeLoad | src/prelude/inode.c:12-18 | returns the inode of that number |
| InodeIo.InodeDump | src/prelude/inode.c:20-27 | changes this inode alone: every other inode, the superblock, the bitmap, the chain and the data stay |
| Bitmap.OnesTests | src/prelude/inode.c:469-477 | once the earlier bits are known clear, the widened signed mask tests exactly one bit |
| Bitmap.OnesClears | src/prelude/inode.c:471-472 | and its complement clears exactly that bit |
| Bitmap.FirstBit | src/prelude/inode.c:469-478 | the inner loop finds the first set bit of a byte and clears it alone |
| Bitmap.FreeInodePop | src/prelude/inode.c:463-483 | returns the least free inode and makes it used, or 0 with -ENOSPC pending when none is free; no other block and no byte behind the first 128 changes |
| Bitmap.FreeInodePush | src/prelude/inode.c:485-492 | adds the inode to the free ones; 0 and 1 are ignored, and the bits of 1024 and more describe no inode |
| Bitmap.SetFixesBits | src/prelude/inode.c:463-492 | the set of free inodes determines the first 128 bytes of the bitmap |
| Bitmap.PopPush | src/prelude/inode.c:463-492 | pop then push restores the bitmap block byte for byte, unless the inode was 0 or 1, which push ignores |
| Format.PopAll | src/prelude/main.c:124-128 | from a fresh file system the pops are 3, 4, ..., 1023 and then 0 |
| IndexSpec.LeafCountExact | src/prelude/inode.c:402-417 | a leaf page is in use exactly when it starts before the end of the list |
| IndexSpec.ExtCountExact | src/prelude/inode.c:419-459 | the same for extension pages |
| IndexSpec.NeedFormula | src/prelude/inode.h:13-31 | the number of page inodes in closed form from the direct slots and page sizes of the design |
| IndexSpec.SameSize | src/prelude/inode.c:286-461 | setting the size a list has takes and gives back no inode and keeps every page |
| IndexRead.Listing | src/prelude/inode.c:257-284 | the size and, in the cache, exactly the stored list; directory form, and the file form at lines 360-387 |
| IndexRead.ListPages | src/prelude/inode.c:370-375 | the walk through the four pages of the head extends the listed prefix or ends it |
| IndexRead.ListExt | src/prelude/inode.c:377-385 | the walk through one extension page extends the listed prefix by its leaves |
| Layout.PlaceLeaf | src/prelude/inode.c:404-456 | one more leaf, old or popped, keeps the pages distinct and the books right |
| Layout.PlacedRep | src/prelude/inode.c:389-461 | when all pages are placed and written the inode slots hold the new list |
| IndexWrite.SetLeaf | src/prelude/inode.c:410-414 | an old leaf is reused, a new one is popped, and it then holds its share of the cache |
| IndexWrite.SetLevel1 | src/prelude/inode.c:402-417 | the four first-level pages: written, popped or released by old and new size |
| IndexWrite.SetLevel2 | src/prelude/inode.c:419-459 | the four extension pages, also where the pointer is not advanced over unused ones |
| IndexWrite.SetIndex | src/prelude/inode.c:389-461 | for any old and new size the object then holds the cached entries, and only its own inodes are written |
| IndexWrite.ListingSet | src/prelude/inode.c:389-461 | the list becomes the first entries of the cache, cut at the largest size with -EFBIG pending, and every other object stays; file form, and the directory form at lines 286-358 |
| IndexWrite.SetThenList | src/prelude/inode.c:286-461 | listing_set followed by listing returns the size and the same entries |
| IndexWrite.Clamp | src/prelude/inode.c:286-290 | too large a size is cut to the largest and reported |
| Accounting.GrowAccounting | src/prelude/inode.c:404-459 | growing pops exactly the difference of the needs and frees nothing |
| Accounting.ShrinkAccounting | src/prelude/inode.c:404-459 | shrinking pops nothing and gives back the difference less the stranded leaves, whose number is exact |
| Accounting.ShrinkSplits | src/prelude/inode.c:420-456 | the old pages are, disjointly, the new ones, the released ones and the stranded ones |
| Accounting.NothingStranded | src/prelude/inode.c:441-456 | nothing is stranded if and only if no leaf goes or no extension page ends partly used |
| Accounting.OneBlockLess | src/prelude/inode.c:441-456 | a file of 185 blocks cut to 184 needs one page less and gets none back |
| Owners.OwnershipMeansApart | src/prelude/inode.c:389-461 | all heads and pages of all objects are pairwise distinct and none is free |
| Owners.ResizeKeepsOwnership | src/prelude/inode.c:389-461 | a resize keeps that, with the popped pages owned and the released ones free |
| Owners.DropObject | src/sfs.c:150-152 | so does giving an object and its pages back |
| PointAccess.AddressExact | src/prelude/inode.c:169-176 | the page arithmetic finds the place of an entry if and only if it is below 216 in a file, 102 in a directory; from there on its page number is not even one of the four |
| PointAccess.LiesOnce | src/prelude/inode.c:377-385 | an entry has one place in the index |
| PointAccess.EntryGet | src/prelude/inode.c:160-188 | below the bound it returns the entry of the list, behind the end the empty entry; file form, and the directory form at lines 132-158 |
| PointAccess.EntrySet | src/prelude/inode.c:223-255 | below the bound exactly that position of that list changes; behind the end nothing does; file form, and the directory form at lines 190-221 |
| PointAccess.SetThenGet | src/prelude/inode.c:132-255 | what was set is what is got, there and nowhere else |
| PointAccess.Bounds | src/prelude/inode.h:13-31 | the bounds in numbers, and that the index has room for exactly 8344 blocks or 2086 entries |
| Attributes.GetAttr | src/prelude/inode.c:61-72 | kind, link count and size; the size of a directory is its number of entries |
| Attributes.SetAttr | src/prelude/inode.c:74-90 | exactly the given metadata of this inode change, cut at their limits and stored in 16 and 32 bits, for files and directories |
| Attributes.MetaSetStores | src/prelude/inode.c:74-90 | values in range are stored as they are, a size that is too large is cut, what is not given stays |
| Attributes.SetFsize | src/prelude/inode.c:82-87 | for a file the size is cut at the largest; lists and pages of all objects stay |
| Attributes.AddLinks | src/prelude/inode.c:502-505 | the 16-bit link count goes up or down by one and nothing else changes |
| Blocks.BlocksOwnedMeansOnce | src/prelude/stream.c:46-55 | every data block is at exactly one position of exactly one file |
| StreamRead.ReadBlocks | src/prelude/stream.c:13-21 | the buffer holds the raw bytes of the block range, zeros where the file has no blocks |
| StreamRead.Read | src/prelude/stream.c:8-28 | returns the matching slice of the content, cut at the file size, and leaves the rest of the buffer |
| StreamWrite.WriteBlock | src/prelude/stream.c:46-55 | one turn overwrites block i or appends the top of the chain as block i; it fails exactly when a block is needed and none is free |
| StreamWrite.WriteBlocks | src/prelude/stream.c:46-55 | the loop stops at the end, at the largest file or where the chain runs out |
| StreamWrite.WroteOverlays | src/prelude/stream.c:38-55 | afterwards the raw bytes are the old ones, zero-extended, with the buffer laid over them |
| StreamWrite.WroteHomed | src/prelude/stream.c:46-61 | no block is lost or shared, complete write or not |
| StreamWrite.Write | src/prelude/stream.c:30-65 | the whole effect on the file, the chain, the free inodes and the data, and the value returned |
| StreamFree.FreeOne | src/prelude/stream.c:70-72 | one more block of the file goes to the top of the chain |
| StreamFree.FreedHomed | src/prelude/stream.c:67-74 | the remaining blocks keep their place |
| StreamFree.Free | src/prelude/stream.c:67-74 | the list is cut, exactly the blocks behind the cut are free, the last one on top |
| Contents.WriteIsolated | src/prelude/stream.c:30-65 | no other file changes, and no byte of one does |
| Contents.NextIsolated | src/sfs.c:115-156 | no operation of a run, these or the others, changes a file or the bytes of a file that it does not name |
| Contents.ContentAfter | src/prelude/stream.c:30-65 | every byte a reader sees after a write, complete or not |
| Contents.GapReads | src/prelude/stream.c:38-60 | bytes between the old end and the offset show what the last block held |
| Contents.ShortenThenWrite | src/sfs.c:263-284 | after shortening to n and writing further on, a byte of the gap is the old one if it is in block n/512, and otherwise 0 |
| Contents.OldByteShows | src/sfs.c:263-284 | shortened to nothing and written at offset 1, a file shows its old first byte |
| Tails.NextTail | src/sfs.c:274-281 | when all blocks hold zeros behind the ends of their files, an operation keeps that if and only if it does not hide other bytes in a block it cuts |
| Tails.CutTail | src/sfs.c:274-281 | the same for one file that is shortened, by a condition on its content before |
| Tails.RunTail | src/prelude/stream.c:30-65 | over every run from a fresh file system there are zeros behind all ends in all states if and only if no operation hid other bytes |
| Tails.GapIsZero | src/prelude/stream.c:38-60 | then the gap before a write past the end reads as zeros |
| Contents.WriteReaches | src/prelude/stream.c:46-64 | a write that did not run out of blocks is stored whole if and only if it ends within the largest file |
| Contents.WriteReadsBack | src/prelude/stream.c:8-65 | such a write is read back, the size is the maximum, and the old bytes around it stay |
| Contents.PartialWrite | src/prelude/stream.c:45-64 | when the chain runs out all of it is in the file, the size is still set to the end of the request, what fits is stored, the rest reads as zeros, and the invariant holds |
| Contents.TruncateKeepsPrefix | src/sfs.c:263-284 | shortening leaves the prefix and frees exactly the blocks behind offset/512 |
| Names.StoredNameEq | src/prelude/path.c:22 | comparing 14 characters with a stored name is equality; comparing 13 is equality with the cut name |
| Names.RemoveAtMultiset | src/prelude/inode.c:515-517 | moving the last entry into the gap loses exactly the named entry |
| Names.RemoveAtNames | src/prelude/inode.c:513-523 | names stay distinct, every other name leads where it did, the removed one nowhere |
| Names.AppendNames | src/prelude/inode.c:498-500 | a new name leads to its inode, every other one where it did |
| Directory.Append | src/prelude/inode.c:495-506 | the old entries and the new one, the link count up by one; a full directory keeps its entries with -EFBIG pending |
| Directory.RemoveHere | src/prelude/inode.c:514-521 | a match is replaced by the last entry and the list is cut by one |
| Directory.NoSecondMatch | src/prelude/inode.c:513-514 | the loop that goes on over the stale tail never matches again |
| Directory.Remove | src/prelude/inode.c:508-524 | the entry with the name is removed once; an absent name changes nothing |
| Directory.PathElem | src/prelude/path.c:16-25 | one component is resolved as its directory says |
| Path.SplitJoin | src/prelude/path.c:37-44 | splitting joined components gives them back |
| Path.JoinSplit | src/prelude/path.c:37-44 | and joining split ones gives the path back |
| Path.BasenameIs | src/prelude/path.c:7-14 | the text behind the last slash is the last token |
| Path.BasenamePlain | src/prelude/path.c:37-44 | a token holds neither slash nor NUL |
| Path.CursorCut | src/prelude/path.c:38-42 | writing NUL over a slash ends the component there and leaves the rest of the path intact |
| Path.Advance | src/prelude/path.c:37-44 | one turn keeps: the components so far have been walked, the rest is still to come |
| Path.PathToInum | src/prelude/path.c:27-50 | the in-place tokenizer is the fold of single-component lookup over the split path, the parent is the fold without the last one |
| Path.WalkSnoc | src/prelude/path.c:45-48 | the last component is resolved in the parent |
| Tree.CreateKeepsTree | src/sfs.c:125-127 | a new entry keeps the name space a tree: names distinct, dot entries right, every object named in its parent, no cycle of directories |
| Tree.UnlinkKeepsTree | src/sfs.c:150-153 | so does removing a file and its entry |
| Tree.FileEntry | src/sfs.c:147-153 | a path to a file ends in a real entry of its parent and not in a dot entry |
| Naming.EveryObjectNamed | src/prelude/path.c:27-50 | every object has a path from the root that resolves to it, made of the one list of words without dot entries that leads there |
| Naming.OneName | src/prelude/path.c:27-50 | two lists of words without dot entries that lead to the same object are equal |
| Naming.PathLeads | src/prelude/path.c:27-50 | the path string made of such words resolves to that object |
| Naming.PathWalks | src/prelude/path.c:27-50 | "/" followed by words joined with slashes, with one more slash at the end or without, leads where the fold over the words leads, and its parent is the fold without the last one |
| Naming.TrailingSlash | src/prelude/path.c:34-35 | one trailing slash is ignored |
| Sfs.InitNode | src/prelude/inode.c:92-119 | a popped inode becomes an empty file or a directory with its two dot entries; no other object changes |
| Sfs.AddNode | src/sfs.c:125-127 | pop, init and append: the least free inode is the new object, named last in its parent |
| Sfs.AbsentName | src/sfs.c:122-123 | a path that does not resolve has no entry of its name in the parent |
| Sfs.Make | src/sfs.c:115-136 | create, and mkdir at lines 288-308: what it returns and the whole next state, for an existing path and a new one |
| Sfs.FreeFile | src/sfs.c:150-152 | blocks, pages and inode of the file are all free |
| Sfs.Unlink | src/sfs.c:139-156 | what it returns and the whole next state |
| Sfs.Save | src/sfs.c:237-261 | sfs_write: what it returns and the whole next state, with the inode its error branch takes |
| Sfs.RunsDry | src/prelude/stream.c:46-64 | a write only fails when it has used up the chain, so the error branch loses no block |
| Sfs.EmptyAgain | src/sfs.c:150-151 | the second listing_set finds nothing to do, and all pages are free |
| Sfs.CutAgain | src/sfs.c:279-280 | the second listing_set of truncate takes, frees and changes nothing |
| Sfs.Truncate | src/sfs.c:263-284 | what it returns and the whole next state, when the block list does not grow |
| Format.InodeInit | src/prelude/inode.c:29-41 | the chain becomes 1025 to 32767 in order, inodes 3 to 1023 are free, the root is empty |
| Format.SfsInit | src/sfs.c:50-62 | a disk of any content becomes the fresh file system, and the invariant holds |
| FileSystem.DirBound | src/prelude/inode.c:463-506 | a directory has fewer than 1024 entries |
| FileSystem.WriteKeepsInv | src/prelude/stream.c:30-65 | a write, complete or not, keeps the invariant |
| FileSystem.CutKeepsInv | src/sfs.c:274-281 | shortening keeps it |
| FileSystem.UnlinkKeepsInv | src/sfs.c:150-153 | removing a file keeps it |
| FileSystem.CreateKeepsInv | src/sfs.c:125-127 | creating keeps it, and the inode served nobody |
| Runs.NextKeepsInv | src/sfs.c:115-156 | every operation keeps the invariant: create and unlink as cited, mkdir (288-308), sfs_write (237-261), fstream_write, and truncate where it does not grow the block list |
| Runs.Perform | src/sfs.c:115-156 | the program on the disk takes exactly these steps, for the same operations |
| Effects.Results | src/sfs.c:115-156 | the result of every operation by what its path leads to: -EEXIST, -ENOENT, -ENOSPC when more blocks are needed than are there, the size, or 0; what fails with -EEXIST or -ENOENT changes nothing |
| Effects.CreateMakesFile | src/prelude/inode.c:108-119 | after create the path leads to a new, empty file |
| Effects.MkdirMakesDir | src/prelude/inode.c:92-106 | after mkdir the path leads to a new directory: "." is itself, ".." its parent, and nothing else is in it |
| Effects.Made | src/sfs.c:122-127 | create and mkdir use the least free inode, add one entry at the end of the parent and change no other object, no block and no data |
| Effects.RemoveTakes | src/sfs.c:144-153 | unlink takes away the one file and the one entry, gives all blocks back and changes no other object |
| Effects.FileOnly | src/sfs.c:237-261 | writing and shortening (273-281) change one object |
| Effects.WriteWrites | src/prelude/stream.c:30-65 | after any fstream_write, complete or not: the size, the number of blocks, and every byte a reader sees |
| Effects.SaveWrites | src/sfs.c:237-261 | the same after any sfs_write |
| Effects.WriteThenRead | src/prelude/stream.c:8-65 | what was written whole is what fstream_read returns |
| Effects.ShortenCuts | src/sfs.c:263-284 | after truncate within the blocks: the size, the bytes that stay, the number of blocks given back |
| Effects.FreshRoot | src/prelude/inode.c:40 | a fresh file system is an empty root |
| Effects.MayCreate | src/sfs.c:115-136 | on a fresh file system every name of 1 to 13 characters but the dot names can be created |
| Effects.ComponentIs | src/prelude/path.c:16-25 | in every directory "." is itself, ".." its parent, and any other name leads to an object or nowhere |
| Runs.RunKeepsInv | src/sfs.c:115-156 | the invariant in every state of every run of the same operations |
| Runs.RunsPartition | src/prelude/free_block.c:48-96 | in every state of every run from a fresh file system each block behind 1024 is in the chain once or at one position of one file, never both, the blocks up to 1024 in neither; inodes of objects are distinct and not free; every object has exactly one path from the root |
| Runs.RunsMetered | src/prelude/inode.c:495-524 | in every state of every run the link count of a directory is the number of its entries, fewer than 1024, and no file exceeds the largest size |
| Conservation.WriteConserves | src/prelude/stream.c:46-61 | a write moves blocks and inodes between the free ones and the file and loses none |
| Conservation.AppendThenRemove | src/prelude/inode.c:495-524 | adding an entry and removing it restores list and pages, and the free inodes but for the stranded ones |
| Conservation.NoPageStrandedIs | src/prelude/inode.c:341-353 | the condition on the number of entries, which holds below 46 and fails at 46 |
| Conservation.CreateWriteRemove | src/sfs.c:115-156 | a run of create, any fstream_write or successful sfs_write, and unlink of one path restores all objects, the free blocks and their number, and the free inodes if and only if the parent strands no page |
| Lookups.CreateThenLookup | src/sfs.c:115-136 | of all paths whose parent resolves, those that name the new entry lead to the popped inode, and all others lead where they did, or still nowhere |
| Lookups.UnlinkThenLookup | src/sfs.c:139-156 | of all paths whose parent resolves, those that name the removed entry lead nowhere, and all others lead where they did |
| Lookups.FileStepLookup | src/sfs.c:237-261 | writing, complete or not, leaves every path as it was, and so does shortening (273-281) |
| Leaks.ResizeLeaks | src/prelude/inode.c:389-461 | a resize loses exactly the stranded pages |
| Leaks.SaveLeaks | src/sfs.c:247-257 | sfs_write loses no inode, or one if it fails and an inode is left, by a condition on sizes before the call |
| Leaks.NextLeaks | src/sfs.c:115-156 | every operation of a run, these or the others, loses exactly the pages it strands and the inode it logs |
| Leaks.CleanIs | src/prelude/inode.c:420-456 | an operation loses nothing if and only if sizes known before it satisfy a condition |
| Leaks.RunLeaks | src/sfs.c:115-156 | over any run from a fresh file system the number of lost inodes is the sum of those the operations lost, so none is lost if and only if every operation was clean |

## Left out

- FreeBlock.Push: not for a block up to 1024 or one that is in the chain already, which no caller passes and which would destroy the chain or the inodes.
- Sfs.Save: requires what fstream_write requires of the offset and the free inodes.
- Sfs.Truncate: only where the block list does not grow; when it grows, the nested listing (`src/prelude/stream.c:69`) overwrites the cache entries that were just allocated, so the new list is not defined by this function.
- StreamFree.Free: not for a block count above the present one, which only that case of truncate asks for: the list would be extended by stale cache entries.
- StreamWrite.Write: requires enough free inodes, and sparse writes, where offset/512 is beyond the block count, are excluded; the skipped positions are stored without ever being allocated.
- Bitmap.FreeInodePop: exhaustion is modelled, but its callers use the 0 it returns unchecked as an inode number, which is the slot of the superblock, so the operations above require enough free inodes.
- IndexWrite.ListingSet: requires enough free inodes. The bytes behind the end of the list in the last page and unused page numbers keep whatever they held, which is not specified.
- IndexWrite.SetThenList: requires enough free inodes, as listing_set does.
- IndexWrite.SetIndex: requires enough free inodes, as listing_set does.
- IndexWrite.SetLevel1: requires enough free inodes, as listing_set does.
- IndexWrite.SetLevel2: requires enough free inodes, as listing_set does.
- IndexWrite.SetLeaf: requires enough free inodes, as listing_set does.
- Directory.Append: requires enough free inodes, as listing_set does.
- Sfs.AddNode: requires enough free inodes for the new object and its entry.
- Sfs.Make: requires enough free inodes. Names have 1 to 13 characters and the path no trailing slash; a longer name is cut in its entry but not in the lookup, and mkdir copies it into 14 bytes without a check. Create and mkdir take the same steps and are one method.
- Sfs.Unlink: only on files, as its callers use it; on a directory it would free inode numbers as blocks.
- Path.PathToInum: all components but the last resolve to directories; an unresolved one becomes inode 65535 by conversion to 16 bits and is then read as a directory.
- Directory.PathElem: only in directories, for the same reason.
- Directory.Remove: stored names are distinct, which every run keeps; with duplicates the loop would cut the list once more, by the stale size.
- PointAccess.EntryGet: not from 216 or 102 on up to the size, where the extension page number is beyond its array of four.
- PointAccess.EntrySet: not from 216 or 102 on up to the size, for the same reason.
- IndexRead.Listing: the two C copies for files and directories are one method over a kind; so are listing_set, entry_get and entry_set.
- InodeIo.InodeLoad: not for negative numbers, on which the C function returns without loading; all numbers it is called with are unsigned.
- InodeIo.InodeDump: not for negative numbers, which it ignores, nor for 0, which would overwrite the superblock. The 128 bytes of an inode are a value with one constructor per member of the C union, not bytes; their layout and the 16-bit width of page numbers are not modelled (all numbers stay below 1024).
- Attributes.SetAttr: the mode argument, which the C function ignores.
- StreamRead.Read: sizes and offsets are natural numbers; the overflow of C int near the end of its range and the release of the buffers are not modelled.
- sfs_rmdir: it returns no inode and does not check that the directory is empty, so it keeps neither the tree nor the books.
- block.c: the disk is an in-memory sequence of blocks that never fails; opening and closing it is left out.
- FUSE callbacks, file modes, owners, readdir, getattr and the log: no state of the storage engine depends on them.
