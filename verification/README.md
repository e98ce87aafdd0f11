# Verified models of the emulator's storage, transport and input logic

This project models, in Dafny, the parts of the repository whose correctness spans
many steps: a crash-restartable inode renumbering tool, an ext4 block allocator and the
layouts built on it, a virtio vsock device, two streaming parsers, SHA-1's streaming
interface and a multi-touch encoder. `dafny verify dfyconfig.toml` checks all of it.

| files | what they model |
|---|---|
| `InodeNumbers`, `FixupModel`, `FixupRuns`, `FixupLiveness`, `FixupCount`, `FixupExposure`, `FixupPaths`, `FixupTool` | `ext4fixup`: mark every directory entry, rewrite every inode number, rewrite the superblocks, with power cuts between any two block writes |
| `BlockGroups`, `BestFit`, `Allocator`, `AllocationRuns`, `AllocatorInit` | block bitmaps with a byte-wide fast path, best fit over groups, all runs of allocate and give back from the geometry on |
| `Extents`, `InodeExtents`, `FileRuns`, `Indirect`, `Dirents`, `Geometry` | what is laid out in allocated blocks: extents of one file and of one after the other, index blocks, directory records, group headers |
| `PortIds`, `VsockStream`, `VsockPass`, `VsockRuns`, `VsockHistory`, `VsockRequests`, `VsockReceive`, `VsockOrphans`, `VsockLinks`, `VsockWire`, `VsockDevice` | the vsock device: streams, credit, back-pressure, dynamic ports, orphan packets, over all runs |
| `Qemud`, `Connector`, `Sha1` | consumers of byte streams that arrive in arbitrary pieces |
| `Touch` | the delta encoder for multi-touch events and a slot decoder of the guest |
| `Arithmetic`, `Bytes` | shared helpers |

Code that changes things in place is modelled by classes and loops (`FixupTool.Device`,
`BlockGroups.BlockGroup`, `Allocator.BlockAllocator`, `VsockDevice.Device`,
`Qemud.Parser`, `Connector.Connector`, `Sha1.Context`, `Dirents.Directory`,
`Touch.TouchDevice`, ...), each method proved against a function of the old state; the
theorems are then about those functions, over every input, every run or every
reachable state.

Time, power and the outside world are parameters. A power cut is a budget of block
writes (`power`); a whole history of the renumbering tool is a sequence of budgets. A
history of the vsock device is a sequence of events: calls of the host side, packets of
the guest, receive buffers offered by the guest. The answers of plugs and listeners,
the compression function of SHA-1 and the sink of qemud messages are parameters.

Where the code does less than its design suggests, the exact boundary is proved:

- `FixupExposure.ExposedHistories`: the state word is written before the low bit of
  `s_desc_size`, which keeps the image from being mounted meanwhile. A history of power
  cuts leaves a half-changed image mountable exactly when some start fails after the first
  of these two writes and no later start has the power to finish its pass and settle the
  bit; `FixupExposure.ExposedExactly` says how much power that takes from any image a
  history can leave, and `FixupCount.CountExactly` counts it on the image beforehand.
- `FixupPaths.EntriesSurvive`: the tool stops reading a directory at the first record with
  inode 0, which on disk is an unused record and not the end. Every entry gets its new
  number exactly when those behind an unused record, or in directories outside the tree,
  need none; in a tree that "." and ".." do not leave, the tool comes to every entry exactly
  when none stands behind an unused record (`FixupPaths.NothingMissedExactly`).
  `FixupPaths.EntryHidden` is a directory with such an entry.
- `FixupPaths.PathsSurvive`: all paths keep their meaning exactly when those that come to
  a record the tool misses, behind an unused one or outside the tree, read a number there
  that both group sizes take for the same inode; `FixupPaths.PathLost` is an image with a
  path through ".." that is lost.
- `InodeExtents.AllocateExtents` and `InodeExtents.FileCovered`: the test of the number of
  extents compares with the block size less one instead of the number of records in a
  block. With space enough, a file is refused exactly when it takes at least as many
  regions as a block has bytes; its records on disk cover it exactly when some group can
  spare two blocks in a row and its records fit the inode or the block.
  `InodeExtents.BlocksMissing`, `InodeExtents.RecordSpilled` and `InodeExtents.FileRefused`
  are inputs for the three ways to fail.
- `Geometry.RoomyExactly` and `Geometry.DroppedExactly`: with 1 KiB blocks a short last
  group is kept without room for its header exactly when the remainder equals the header,
  and a full last group is dropped exactly when the remainder is 1; `ShortGroupKept` and
  `FullGroupDropped` are such geometries.
- `Indirect.IndirectBlocksNeeded`: for a length beyond the double-indirect range it divides
  by zero, because the size of the triple range is computed as a square that is 0 in 32
  bits for every block size of whole KiB. `Indirect.NothingTriple` says what the
  reservation would leave of such a file.
- `Sha1.CountExact` and `Sha1.HashPieces`: the high word of the bit count loses the high
  bits of an update of 2^29 bytes or more unless the low word happens to carry; the padding
  is that of the standard exactly when nothing is lost modulo 2^32. `Sha1.CountLost` is an
  input that loses one.
- `Sha1.SumExactly`: an update stays inside the buffer exactly when the bytes buffered and
  those of the update add up to less than 2^32.
- `Qemud.SizeRoundTrip`: a size survives the four-byte header exactly below 2^31.
- `VsockHistory.BytesConserved`, `VsockStream.WideExactly`: bytes are conserved exactly
  as long as no single send places 2^30 bytes, because its 32-bit result leaves 30 bits
  for the size; and when that can happen. `VsockHistory.WideRun` is such a run, and
  `VsockHistory.ModestGuest` says that it takes a guest that announces as much.
- `VsockStream.ControlLost`: a control packet vanishes exactly when the next receive
  buffer is too small for a header.

## Model

| member | source | states |
|---|---|---|
| InodeNumbers.NewInumKeepsSlot | android/ext4_utils/src/ext4fixup.c:79-86 | the new number with the new inodes per group addresses the same group and offset as the old number did, and stays clear of the marker bit |
| InodeNumbers.NewInumInjective | android/ext4_utils/src/ext4fixup.c:79-86 | two inodes get the same new number exactly when they are the same inode |
| InodeNumbers.NewInumIdentity | android/ext4_utils/src/ext4fixup.c:79-86 | with inodes per group already aligned the renumbering changes nothing, so a second application is harmless |
| InodeNumbers.AlignStable | android/ext4_utils/src/ext4fixup.c:802-804 | rounding inodes per group up gives whole blocks of inodes, adds less than one block's worth and is idempotent |
| FixupModel.EditStep | android/ext4_utils/src/ext4fixup.c:727-735 | in each phase an entry has one value before and another after; the edit takes the first to the second and leaves the second alone, so repeating it after a restart is safe |
| FixupModel.WriteKeeps | android/ext4_utils/src/ext4fixup.c:746-752 | writing any single block of a directory keeps the phase invariant, given that its subtrees are finished |
| FixupModel.OneBlockWritten | android/ext4_utils/src/ext4fixup.c:746-752 | a block write puts that block of the buffer in its place and leaves every other block of the directory as it is |
| FixupModel.DirectoryWritten | android/ext4_utils/src/ext4fixup.c:746-752 | writing a directory block by block, cut off anywhere, touches only that directory; if it ends, the whole subtree is finished |
| FixupModel.WalkKeeps | android/ext4_utils/src/ext4fixup.c:598-757 | for every tree and every power budget the recursive walk keeps the invariant (in the update phase an unmarked directory entry means an updated subtree), touches only its subtree, never fails, and finishes the subtree if the power lasts |
| FixupRuns.MarkedMeansReady | android/ext4_utils/src/ext4fixup.c:848-853 | a finished mark phase is a valid start of the update phase |
| FixupRuns.UpdatedMeansRenumbered | android/ext4_utils/src/ext4fixup.c:855-860 | a finished update phase leaves exactly the renumbered disk |
| FixupRuns.SbsWritten | android/ext4_utils/src/ext4fixup.c:351-433 | superblocks rewritten in part hold the old or the new value each; if the power lasts, all hold the new one |
| FixupRuns.RenumberedAgain | android/ext4_utils/src/ext4fixup.c:802-804 | the renumbered disk is itself a sound image for which the tool changes nothing |
| FixupRuns.RunKeeps | android/ext4_utils/src/ext4fixup.c:763-874 | one start of the tool from any recoverable image, with any budget, ends in a recoverable image or completed |
| FixupRuns.CrashSafe | android/ext4_utils/src/ext4fixup.c:763-874 | for every sound image and every sequence of power cuts at any block write, no later run reports an error, and a run that completes leaves every record before the first unused one, in every directory that such records lead to from the root, renumbered exactly once and all others unchanged, all superblocks updated and no state word; every superblock copy then has inodes per group that fill whole blocks, the fewest for as many as before |
| FixupLiveness.AlwaysCompletes | android/ext4_utils/src/ext4fixup.c:763-874 | after any sequence of power cuts there is a budget with which the next run completes |
| FixupLiveness.WalkAnyPower | android/ext4_utils/src/ext4fixup.c:598-757 | a pass that ends makes the same writes with any power that is enough for them |
| FixupCount.CountExactly | android/ext4_utils/src/ext4fixup.c:598-757 | a pass ends exactly when there is power for the block writes counted on the image beforehand, the blocks of every directory descended into, and uses that much |
| FixupCount.MarkingRestarts | android/ext4_utils/src/ext4fixup.c:691-725 | a mark pass that was cut off anywhere makes all its writes again |
| FixupExposure.LockedStays | android/ext4_utils/src/ext4fixup.c:146-190 | once the low bit of s_desc_size is on disk, no run leaves an unfinished image without it |
| FixupExposure.ExposedExactly | android/ext4_utils/src/ext4fixup.c:146-190 | one start on any image that a history of cuts can leave: it leaves the image unfinished and mountable exactly when it was idle and the power fails after one write, or when it was exposed and the power fails before the writes of its pass, the state word and the mount bit are done |
| FixupExposure.ExposedHistories | android/ext4_utils/src/ext4fixup.c:837-870 | over every history of power cuts, the image ends up exposed exactly when one start exposed it while idle and every later one fell short of settling the mount bit |
| FixupPaths.AlikeExactly | android/ext4_utils/src/ext4fixup.c:245-254 | both group sizes address the same inode by a number exactly for inodes of the first group, or when the size does not change |
| FixupPaths.FixedExactly | android/ext4_utils/src/ext4fixup.c:79-86 | renumbering leaves a number as it is exactly for inodes of the first group, or when the size does not change |
| FixupPaths.EntriesExactly | android/ext4_utils/src/ext4fixup.c:671-674 | every record in use, in every directory that paths lead to, gets its new number exactly when those the tool misses, behind a record with inode 0 or outside its tree, need none |
| FixupPaths.EntriesSurvive | android/ext4_utils/src/ext4fixup.c:763-874 | after any sequence of power cuts and a completed run, every entry has its new number under exactly that condition |
| FixupPaths.NothingMissedExactly | android/ext4_utils/src/ext4fixup.c:671-674 | in a tree that "." and ".." do not leave, the tool comes to every record in use exactly when none stands behind one with inode 0 |
| FixupPaths.SamePaths | android/ext4_utils/src/ext4fixup.c:79-86 | all paths from the root resolve to the same inode slot before and after exactly when paths that come to a record the tool misses read a number there that both sizes take alike |
| FixupPaths.ContainedKept | android/ext4_utils/src/ext4fixup.c:653-735 | when no record of the tree leads to a directory outside it and none in use stands behind an unused one, every path is kept |
| FixupPaths.PathsSurvive | android/ext4_utils/src/ext4fixup.c:763-874 | after any sequence of power cuts and a completed run, all paths resolve to the inodes they resolved to, under exactly the condition of SamePaths |
| FixupPaths.TreeKept | android/ext4_utils/src/ext4fixup.c:691-735 | on an image with a subdirectory the tool renumbers the file in it and keeps every path |
| FixupPaths.EntryHidden | android/ext4_utils/src/ext4fixup.c:671-674 | a sound image with an entry behind an unused record: it keeps its old number, and its path is lost |
| FixupPaths.PathLost | android/ext4_utils/src/ext4fixup.c:691-697 | a sound image on which the path "../f" is lost, because ".." is never descended into |
| FixupTool.Device.RecurseDir | android/ext4_utils/src/ext4fixup.c:598-757 | the imperative walk over an entry buffer does what the functional walk does, write by write |
| FixupTool.Device.WriteDir | android/ext4_utils/src/ext4fixup.c:746-752 | writes the buffer block by block until done or out of power, as the functional writer does |
| FixupTool.Device.SetFixupState | android/ext4_utils/src/ext4fixup.c:116-190 | the order of the two writes that set or clear the state word |
| FixupTool.Device.UpdateSuperblocks | android/ext4_utils/src/ext4fixup.c:351-433 | rewrites the superblock and its copies in order |
| FixupTool.Device.Run | android/ext4_utils/src/ext4fixup.c:763-874 | the phase driver agrees with the functional run; the image stays recoverable, and a completed run has the promised result |
| BlockGroups.UsedMeaning | android/ext4_utils/src/allocate.c:173-178 | a block is in use exactly when the byte of its eight, as a number, has the binary digit of weight 2^(block % 8) |
| BlockGroups.HeaderBytes | android/ext4_utils/src/allocate.c:280-289 | the bitmap of a group whose first h blocks alone are in use: bytes of ones, one of 2^(h % 8) - 1, then zeros |
| BlockGroups.SetEight | android/ext4_utils/src/allocate.c:178-184 | writing 0xFF sets exactly the eight bits of an aligned byte, and the byte is zero exactly when none was set |
| BlockGroups.BlockGroup.constructor | android/ext4_utils/src/allocate.c:257-290 | a new group has exactly its header and the blocks past the end in use, bit by bit |
| BlockGroups.BlockGroup.ReserveBlocks | android/ext4_utils/src/allocate.c:188-219 | head bits, whole bytes and tail bits together set exactly the asked range; it fails exactly when too few blocks are free or one is in use, and touches no other bit |
| BlockGroups.BlockGroup.FreeBlocks | android/ext4_utils/src/allocate.c:221-227 | clears exactly the blocks before the first free one |
| BlockGroups.BlockGroup.Allocate | android/ext4_utils/src/allocate.c:311-324 | the bitmap stays clear exactly on the free stretch, so the reservation cannot meet a block in use: it succeeds exactly when enough blocks are free |
| BlockGroups.BlockGroup.Release | android/ext4_utils/src/allocate.c:221-227 | giving back the last blocks handed out keeps the bitmap clear exactly on the free stretch |
| Allocator.BlockAllocator.FindBest | android/ext4_utils/src/allocate.c:338-373 | the single pass finds the first of the smallest groups that fit, or else the first of the largest, or that nothing is free |
| Allocator.BlockAllocator.BestFitPartial | android/ext4_utils/src/allocate.c:338-373 | takes one best region; fails exactly when no block is free |
| Allocator.BlockAllocator.BestFit | android/ext4_utils/src/allocate.c:375-396 | for n > 0 succeeds exactly when n blocks are free in all, by a greedy choice of regions; on failure everything free has been taken |
| BestFit.GreedyTotal | android/ext4_utils/src/allocate.c:375-396 | the regions add up to n and exactly n blocks fewer are free |
| BestFit.GreedyShape | android/ext4_utils/src/allocate.c:311-396 | regions start at their group's first free block, lie in distinct groups, and all but the last exhaust their group |
| BestFit.FewestRegions | android/ext4_utils/src/allocate.c:338-396 | no way to take n blocks from the groups uses fewer groups |
| AllocationRuns.RunKeeps | android/ext4_utils/src/allocate.c:232-255 | over every run of allocations, failed allocations and tail returns, live regions stay below their group's first free block and apart |
| AllocationRuns.LiveRegionsApart | android/ext4_utils/src/allocate.c:311-324 | in every reachable state a block lies in at most one live region, never in a header and never past the end |
| AllocationRuns.BlocksConserved | android/ext4_utils/src/allocate.c:232-255 | free blocks plus blocks in live regions stay constant over every run in which no allocation fails |
| AllocatorInit.BlockAllocatorInit | android/ext4_utils/src/allocate.c:292-299 | for every geometry in which each group has room for its header, the groups it builds are those that all runs start from, each with its header and the blocks past the end taken |
| AllocatorInit.ServeFrom | android/ext4_utils/src/allocate.c:375-416 | any sequence of calls of the allocator's own methods is one of the runs |
| AllocatorInit.ServeAll | android/ext4_utils/src/allocate.c:292-299 | from the geometry on, however blocks are asked for and given back, no block is handed out twice, and none of a header or past the end |
| BestFit.RegionCount | android/ext4_utils/src/allocate.c:375-396 | an allocation has at most k regions exactly when its blocks can be taken from k groups at all |
| Extents.ExtentsTile | android/ext4_utils/src/extent.c:142-162 | the extents written cover the file from block 0 without gap or overlap |
| Extents.GetExtentEnts | android/ext4_utils/src/ext4fixup.c:493-516 | reading the extents back yields the blocks of the regions, in order |
| Extents.CreateBacking | android/ext4_utils/src/extent.c:32-55 | every byte of data is placed on the physical block that the extents give its file block |
| InodeExtents.BlockAllocation.ReduceByOne | android/ext4_utils/src/allocate.c:232-255 | gives the first region's last block back to its group |
| InodeExtents.BlockAllocation.SplitOne | android/ext4_utils/src/allocate.c:487-531 | splits the first block off a region; on a region of one block it returns the next region instead |
| InodeExtents.BlockAllocation.ReserveOobBlock | android/ext4_utils/src/allocate.c:533-547 | moves the first block out of the list, or, on a region of one block, moves away everything else |
| InodeExtents.FirstRegionLong | android/ext4_utils/src/extent.c:76-100 | the first region has two blocks exactly when some group has more than one free block |
| InodeExtents.SetAside | android/ext4_utils/src/extent.c:88-95 | the block too many is given back for up to three regions, and becomes the extent block for more; a first region of one block is given back whole, or is all that stays |
| InodeExtents.WriteExtents | android/ext4_utils/src/extent.c:142-166 | the loop writes one extent per region with running file block numbers; those beyond the capacity go past the block |
| InodeExtents.AllocateExtents | android/ext4_utils/src/extent.c:76-167 | succeeds exactly when n + 1 blocks can be taken from fewer groups than a block has bytes; allocation, record count, extent block, stored records and groups left are stated for every outcome |
| InodeExtents.FileCovered | android/ext4_utils/src/extent.c:120-150 | the stored records cover n blocks exactly when some group has two free blocks and n + 1 blocks can be taken from as many groups as there is room for records; otherwise one goes past the block |
| InodeExtents.BlocksMissing | android/ext4_utils/src/allocate.c:487-531 | an allocation that succeeds and whose records do not cover the file, because every group has one free block |
| InodeExtents.RecordSpilled | android/ext4_utils/src/extent.c:125-139 | with blocks of 1 KiB a file of 84 * 8000 blocks gets 85 records where 84 fit |
| InodeExtents.FileRefused | android/ext4_utils/src/extent.c:125-129 | with blocks of 1 KiB a file is refused although enough blocks are free |
| InodeExtents.FileBlocksDistinct | android/ext4_utils/src/extent.c:76-167 | the blocks of a file laid out while some group has two free blocks are physically distinct, and none is the extent block |
| FileRuns.SettledRun | android/ext4_utils/src/extent.c:76-95 | allocating for a file, and giving back the block too many, is a run of the allocator that leaves the file's regions handed out |
| FileRuns.AllocateFiles | android/ext4_utils/src/extent.c:76-167 | from the geometry on, for any number of files one after the other, each gets the specified result of what the groups had left, and no block of data or of extent records belongs to two files, to a header or past a group's end |
| FileRuns.ServedWhole | android/ext4_utils/src/extent.c:76-167 | each of these files that finds two free blocks in some group and room for its records is laid out whole |
| InodeExtents.RunsSpaced | android/ext4_utils/src/allocate.c:257-290 | in every state that runs reach, the groups' free blocks lie in ranges of their own |
| InodeExtents.AllocateDataExtents | android/ext4_utils/src/extent.c:169-190 | when some group has two free blocks and the records fit, the records tile the file, the blocks read back from them are n distinct ones and not the extent block, and every byte of data is placed on the block that the records give it |
| Indirect.IndirectBlocksNeeded | android/ext4_utils/src/indirect.c:289-318 | returns the number of index blocks of a file up to the double-indirect range, and stops the program beyond it when blocks are of whole KiB |
| Indirect.TripleIsZero | android/ext4_utils/src/ext4_utils.c:94-96 | for block sizes of whole KiB the computed size of the triple-indirect range is 0 |
| Indirect.CeilIsCount | android/ext4_utils/src/indirect.c:64-77 | the rounded division counts the pointer blocks that the loop reserves one by one |
| Indirect.Reservation.ReserveDindirect | android/ext4_utils/src/indirect.c:64-77 | reserves the double-indirect block and one block per group of pointers |
| Indirect.Reservation.ReserveTindirect | android/ext4_utils/src/indirect.c:79-92 | reserves the triple-indirect block, one block per double range and one per group of pointers |
| Indirect.Reservation.ReserveAll | android/ext4_utils/src/indirect.c:262-288 | for every length: up to the double-indirect range the nested loops reserve the same number of index blocks that indirect_blocks_needed predicts; beyond it those that the computed triple range covers, and the rest of the blocks is left over |
| Indirect.NothingTriple | android/ext4_utils/src/indirect.c:280-288 | with blocks of whole KiB the triple-indirect block points to nothing and every block beyond the double-indirect range is left over |
| Dirents.DentrySize | android/ext4_utils/src/contents.c:41-54 | predicts the offset that adding the entries one by one reaches |
| Dirents.StartFits | android/ext4_utils/src/contents.c:56-81 | the division test moves a record to the next block exactly when it would cross, and then it fits |
| Dirents.Directory.AddDentry | android/ext4_utils/src/contents.c:56-81 | adds one record at the next place that fits, stretching the previous one to its block's end; records keep tiling the blocks and the listing grows by the entry |
| Dirents.AddAll | android/ext4_utils/src/contents.c:146-151 | the offset after all entries is the predicted size, so the internal error is unreachable |
| Dirents.NeverPastEnd | android/ext4_utils/src/contents.c:146-151 | no prefix of the entries passes the predicted size |
| Dirents.MakeDirectory | android/ext4_utils/src/contents.c:89-162 | the records tile whole blocks, none crosses a boundary, and they list ".", ".." and the entries in order, in the predicted size rounded up to blocks |
| Dirents.FewestBlocks | android/ext4_utils/src/contents.c:41-54 | no other way to lay out the same records in order, with none across a boundary, takes fewer bytes or fewer blocks |
| Dirents.WalkVisits | android/ext4_utils/src/ext4fixup.c:653-677 | the record-length walk over such a directory, whatever its inode fields, visits once and in order the records before the first with inode 0, so all of them exactly when no field is 0 |
| Dirents.FilledLaid | android/ext4_utils/src/contents.c:141-150 | filling in an inode number keeps the layout and changes just that entry |
| Geometry.IsPowerOf | android/ext4_utils/src/ext4_utils.c:57-64 | the loop decides whether the number is a positive power of the base |
| Geometry.BgHasSuperBlock | android/ext4_utils/src/ext4_utils.c:70-79 | with sparse copies, groups 0, 1 and the powers of 3, 5 and 7, and no others |
| Geometry.CreateAuxInfo | android/ext4_utils/src/ext4_utils.c:87-110 | computes the group count and length after the short-last-group rule; with blocks over 1024 bytes every kept group has room for its header |
| Geometry.RoomyExactly | android/ext4_utils/src/ext4_utils.c:98-111 | every kept group has room for its header exactly when the first data block is 0 or the remainder differs from the last header |
| Geometry.ShortGroupKept | android/ext4_utils/src/ext4_utils.c:98-111 | a 1 KiB geometry whose last group is kept without room for its header |
| Geometry.DroppedExactly | android/ext4_utils/src/ext4_utils.c:98-111 | the rule drops exactly the last groups that are too short for their header if and only if the first data block is 0 or the remainder is neither 1 nor the header's size |
| Geometry.FullGroupDropped | android/ext4_utils/src/ext4_utils.c:98-111 | a 1 KiB geometry whose full last group is dropped |
| Geometry.FillInDescriptors | android/ext4_utils/src/ext4_utils.c:213-237 | bitmaps and inode table of every group lie where the allocator computes them, and end exactly at the header's end |
| PortIds.GetsSmallest | emulator/plugin/vsock_goldfish/vsock.cpp:49-60 | the number handed out is the smallest positive one not in use |
| PortIds.PutFrees | emulator/plugin/vsock_goldfish/vsock.cpp:62-79 | giving a number back restores the canonical state without it |
| PortIds.CanonicalUnique | emulator/plugin/vsock_goldfish/vsock.cpp:49-79 | the allocator's state is a function of the set in use, whatever the history |
| PortIds.SmallestIsSmall | emulator/plugin/vsock_goldfish/vsock.cpp:49-60 | numbers stay below the count in use plus two |
| PortIds.UniqueIdAllocator.GetId | emulator/plugin/vsock_goldfish/vsock.cpp:50-60 | the imperative allocator hands out the specified number |
| PortIds.UniqueIdAllocator.PutId | emulator/plugin/vsock_goldfish/vsock.cpp:62-79 | its shrinking loop ends in the canonical state |
| VsockStream.SendPlaces | emulator/plugin/vsock_goldfish/vsock_low_level.c:67-113 | whatever the receive buffers, the packets placed carry a prefix of the data in order, all of it unless the buffers run out |
| VsockStream.SendFills | emulator/plugin/vsock_goldfish/vsock_low_level.c:83-110 | a send of data places the smaller of the data and the capacity of the receive buffers |
| VsockStream.ControlLost | emulator/plugin/vsock_goldfish/vsock_low_level.c:93-110 | a send without data runs out exactly when no buffer is left, and loses its packet exactly when the next buffer is too small for a header |
| VsockStream.WindowIsTrue | emulator/plugin/vsock_goldfish/vsock.cpp:527-529 | however often the counters have wrapped, the 32-bit expression is the true free window of an honest guest |
| VsockStream.TakeKeeps | emulator/plugin/vsock_goldfish/vsock.cpp:107-126 | appending after a partial consume keeps every byte, in order |
| VsockStream.OpsKeep | emulator/plugin/vsock_goldfish/vsock.cpp:530-561 | after a queue-full stop the mask is exactly the operations asked for and not sent; otherwise it is empty |
| VsockStream.SentWide | emulator/plugin/vsock_goldfish/vsock.cpp:570-577 | a send of 2^30 bytes or more breaks conservation |
| VsockStream.OpsBuffers | emulator/plugin/vsock_goldfish/vsock.cpp:530-561 | each pending control operation takes one receive buffer, and the turn stops there exactly when there are fewer |
| VsockStream.WideExactly | emulator/plugin/vsock_goldfish/vsock.cpp:525-584 | a turn overruns the 30 bits of the reported size exactly when 2^30 bytes wait, the window is as wide, and the receive buffers that the pending control operations leave hold as much |
| VsockStream.DataKeeps | emulator/plugin/vsock_goldfish/vsock.cpp:563-584 | the data loop conserves bytes, stays within the window and sends nothing before the stream is open |
| VsockStream.StreamKeeps | emulator/plugin/vsock_goldfish/vsock.cpp:525-584 | a turn keeps all that a stream keeps, whatever the receive buffers, and the packets it sends are those recorded |
| VsockStream.StreamDrains | emulator/plugin/vsock_goldfish/vsock.cpp:525-584 | a turn that does not run out of buffers leaves no operation pending, and no data that the guest has room for |
| VsockPass.ErasePorts | emulator/plugin/vsock_goldfish/vsock.cpp:275-292 | erasing a stream and putting its port back keeps the port invariant |
| VsockPass.PassMoves | emulator/plugin/vsock_goldfish/vsock.cpp:525-588 | a pass over all streams advances each by exactly its own packets among those sent |
| VsockPass.PassDrains | emulator/plugin/vsock_goldfish/vsock.cpp:525-588 | a pass that does not run out of buffers drains every stream |
| VsockPass.FlushOrdered | emulator/plugin/vsock_goldfish/vsock.cpp:513-523 | orphan packets go out in order and the rest stays queued in order |
| VsockRuns.ConnectInserts | emulator/plugin/vsock_goldfish/vsock.cpp:207-222 | with fewer than 2^31 - 1 dynamic ports live, the chosen port does not wrap and belongs to no stream, so the insertion succeeds |
| VsockRuns.RequestedKeeps | emulator/plugin/vsock_goldfish/vsock.cpp:294-329 | accepting, rejecting, duplicate and unexpected requests keep the device invariant |
| VsockRuns.ControlsKeep | emulator/plugin/vsock_goldfish/vsock.cpp:408-459 | every other control packet, with or without a stream, keeps the device invariant |
| VsockRuns.ReceivedKeeps | emulator/plugin/vsock_goldfish/vsock.cpp:461-504 | data packets, accepted or rejected, keep the device invariant |
| VsockRuns.SendAllKeeps | emulator/plugin/vsock_goldfish/vsock.cpp:506-588 | sending keeps the device invariant, wherever the receive buffers run out |
| VsockRuns.RunKeeps | emulator/plugin/vsock_goldfish/vsock.cpp:207-588 | every reachable state keeps the device invariant |
| VsockRuns.OpensFirst | emulator/plugin/vsock_goldfish/vsock.cpp:530-561 | in every run whose receive buffers hold a header, the first packet on the wire for a stream is REQUEST or RESPONSE |
| VsockRuns.CreditSafe | emulator/plugin/vsock_goldfish/vsock.cpp:527-584 | in every run with an honest guest, on a stream with no send of 2^30 bytes or more, the bytes on the wire never exceed what the guest took plus its buffer, and the computed window is the true one; such a send takes a guest that announced as much |
| VsockRuns.PortsApart | emulator/plugin/vsock_goldfish/vsock.cpp:207-292 | in every run no two streams share a dynamic port, and connect's insert assertion cannot fail |
| VsockOrphans.ReceiveEnds | emulator/plugin/vsock_goldfish/vsock.cpp:477-495 | a stream goes exactly when it is not connected or the plug refuses a piece, and has then counted the pieces before |
| VsockOrphans.OrphansInOrder | emulator/plugin/vsock_goldfish/vsock.cpp:275-504 | in every run whose receive buffers hold a header, the orphan packets sent and those still queued are exactly the resets and shutdowns that the events of the run call for, in order |
| VsockLinks.LinksExactly | emulator/plugin/vsock_goldfish/vsock.cpp:207-504 | in every run, from the events alone: a stream is there exactly from a connect or an accepted request until its unplugging, reset, shutdown, an operation out of place or data it does not take; it is connected exactly if a request made it or a response came; its counters are those of the guest's last packet, and it has counted the bytes received modulo 2^32 |
| VsockLinks.ListensExactly | emulator/plugin/vsock_goldfish/vsock.cpp:294-329 | in every run the device listens exactly on the ports it was asked to |
| VsockLinks.NextPortLeast | emulator/plugin/vsock_goldfish/vsock.cpp:207-222 | in every run a connect takes the least dynamic port that no stream has |
| VsockWire.SmallExactly | emulator/plugin/vsock_goldfish/vsock_low_level.c:83-110 | in every run the device has met a buffer too small for a header exactly when the guest offered one |
| VsockWire.BuffersInOrder | emulator/plugin/vsock_goldfish/vsock_low_level.c:67-113 | in every other run the n-th packet lies in the n-th buffer the guest offered and has room in it, and the buffers left are those after |
| VsockWire.NothingHeldBack | emulator/plugin/vsock_goldfish/vsock.cpp:506-588 | in every run, after each connect, data for a connected stream, unplugging and notification, either no buffer is left or no orphan packet, no operation and no data that a guest has room for waits |
| VsockWire.ConnectSends | emulator/plugin/vsock_goldfish/vsock.cpp:207-222 | a connect puts its request on the wire in the same step unless the buffers run out |
| VsockWire.PacketsTell | emulator/plugin/vsock_goldfish/vsock.cpp:530-584 | in every run each packet of a stream tells the host's buffer size and the bytes received so far modulo 2^32 |
| VsockRuns.OrphansFirst | emulator/plugin/vsock_goldfish/vsock.cpp:513-525 | from every reachable state a pass sends for streams only once no orphan packet is left |
| VsockHistory.BytesConserved | emulator/plugin/vsock_goldfish/vsock.cpp:254-266 | in every run, the payload on the wire for a stream followed by its unsent buffer is all that was accepted while connected, in order, exactly when no send placed 2^30 bytes |
| VsockHistory.ModestGuest | emulator/plugin/vsock_goldfish/vsock.cpp:527-584 | in every run with an honest guest that never announces 2^30 bytes or more, every stream is within its credit and all its bytes are conserved |
| VsockHistory.WideRun | emulator/plugin/vsock_goldfish/vsock.cpp:563-584 | a run of five events in which a send of 2^30 bytes reports none, and the bytes are not conserved |
| VsockRequests.PassServes | emulator/plugin/vsock_goldfish/vsock.cpp:525-561 | a pass takes from each stream's mask exactly the operations it sent for it |
| VsockRequests.CreditAsked | emulator/plugin/vsock_goldfish/vsock.cpp:527-535 | a turn sends a credit request, or leaves it pending, exactly when it was pending or the window is 0 |
| VsockRequests.NothingForgotten | emulator/plugin/vsock_goldfish/vsock.cpp:176-180 | in every run whose receive buffers hold a header, the pending operations of a stream other than a credit request are exactly those that the events of the run asked for and that did not go over the wire since |
| VsockReceive.PiecesMakePayload | emulator/plugin/vsock_goldfish/vsock_low_level.c:155-176 | however a guest packet is cut into buffers, the pieces handed over make up its payload without the header |
| VsockReceive.ReceiveCounts | emulator/plugin/vsock_goldfish/vsock.cpp:477-495 | a stream survives a data packet exactly when it is connected and the plug takes every piece; then the received count grows by the payload modulo 2^32 and a credit update is asked for |
| VsockDevice.TakePieces | emulator/plugin/vsock_goldfish/vsock_low_level.c:155-178 | the loop over buffers with its header skip does what the specification says, piece by piece |
| VsockDevice.Device.SendPacket | emulator/plugin/vsock_goldfish/vsock_low_level.c:67-113 | the loop over receive buffers places the specified packets and reports the specified size |
| VsockDevice.Device.SendControl | emulator/plugin/vsock_goldfish/vsock.cpp:530-561 | the loop over operations, with its early return |
| VsockDevice.Device.SendBytes | emulator/plugin/vsock_goldfish/vsock.cpp:563-584 | the loop over data, with its early return |
| VsockDevice.Device.SendPackets | emulator/plugin/vsock_goldfish/vsock.cpp:506-588 | orphan packets and then streams in key order, as specified |
| VsockDevice.Device.Connect | emulator/plugin/vsock_goldfish/vsock.cpp:207-222 | takes the connect step; the port is dynamic and was free |
| VsockDevice.Device.SendAsync | emulator/plugin/vsock_goldfish/vsock.cpp:254-266 | takes the sendAsync step |
| VsockDevice.Device.Unplug | emulator/plugin/vsock_goldfish/vsock.cpp:268-273 | takes the unplug step |
| VsockDevice.Device.RecycleStream | emulator/plugin/vsock_goldfish/vsock.cpp:275-292 | queues the farewell packet, puts a dynamic port back, erases the stream |
| VsockDevice.Device.OnControl | emulator/plugin/vsock_goldfish/vsock.cpp:408-459 | takes the control step |
| VsockDevice.Device.OnData | emulator/plugin/vsock_goldfish/vsock.cpp:461-504 | takes the data step for a packet scattered over buffers |
| Qemud.SizeRoundTrip | emulator/devices/qemud.cpp:32-57 | an encoded size decodes to itself exactly below 2^31 |
| Qemud.HeaderMeaning | emulator/devices/qemud.cpp:19-57 | four hexadecimal digits in either case are their number; a first byte with the top bit is a 31-bit big-endian number |
| Qemud.NoHexValue | emulator/devices/qemud.cpp:19-29 | any character that is no hexadecimal digit counts as 0 |
| Qemud.EncodedForm | emulator/devices/qemud.cpp:32-45 | sizes of up to 16 bits are sent as upper-case digits, larger ones with the top bit set |
| Qemud.FeedMeaning | emulator/devices/qemud.cpp:61-123 | messages delivered from a piece, followed by those still in the buffer, are the messages of buffer and piece together |
| Qemud.HeldMessages | emulator/devices/qemud.cpp:61-123 | the buffer holds at most one undelivered message, and only a lone zero-length header |
| Qemud.ChunkIndependent | emulator/devices/qemud.cpp:61-123 | for every way to cut a stream, delivered and held messages are the messages of the whole stream |
| Qemud.SentIsReceived | emulator/devices/qemud.cpp:135-140 | messages framed by sendAsync and cut anyhow are delivered, all but possibly a last empty one that waits for the next byte |
| Qemud.Parser.OnReceive | emulator/devices/qemud.cpp:61-123 | the nested loops deliver and keep what the specification says; the result tells whether every message was accepted |
| Connector.QnameMeaning | emulator/devices/Connector.cpp:35-38 | the character comparison holds exactly when the name is the prefixed device name |
| Connector.ChunkFree | emulator/devices/Connector.cpp:52-146 | for every cut of the stream, device, flag and arguments depend only on the bytes before the first NUL, the buffer holds no NUL, and the plug receives exactly the bytes after it |
| Connector.ConnectionMessages | emulator/devices/Connector.cpp:52-146 | composed with the parser, the messages of a device depend only on the byte stream |
| Connector.RequestMeaning | emulator/devices/Connector.cpp:89-123 | a request is taken for a device, a flag and arguments exactly when it reads "pipe:", then "qemud:" for the flag, then the non-empty device without a colon, then nothing or a colon and the arguments |
| Connector.DispatchMeaning | emulator/devices/Connector.cpp:126-146 | such a request opens the first entry that is 'q' or '-' and the device, and is refused exactly when there is none |
| Connector.FormlessRefused | emulator/devices/Connector.cpp:89-123 | every other request is refused |
| Connector.Connector.OnReceive | emulator/devices/Connector.cpp:52-87 | one call does what the stream specification says and keeps the buffer free of NUL |
| Connector.Connector.ProcessRequest | emulator/devices/Connector.cpp:89-146 | parses the request and switches to the device of the table it names |
| Sha1.FoldAppend | android/ext4_utils/src/sha1.c:340-361 | compressing the complete blocks of one piece and then of the left-over with the next equals compressing those of the whole |
| Sha1.PadAligned | android/ext4_utils/src/sha1.c:366-387 | the padding of section 5.1.1 of FIPS 180-4 makes whole blocks |
| Sha1.PadMeaning | android/ext4_utils/src/sha1.c:366-387 | the padded message is the message, 0x80, fewer than 64 zeros, and the bit length modulo 2^64 as eight bytes, the most significant first |
| Sha1.InitialMeaning | android/ext4_utils/src/sha1.c:324-337 | hashing starts from the state of section 5.3.1 of FIPS 180-4 |
| Sha1.DigestMeaning | android/ext4_utils/src/sha1.c:383-387 | each four bytes of the digest are a word of the state, the most significant first |
| Sha1.BitLength | android/ext4_utils/src/sha1.c:340-361 | the two count words of a message are its 64-bit bit length |
| Sha1.CountExact | android/ext4_utils/src/sha1.c:340-361 | the carry computation is exact exactly when the update is below 2^29 bytes or the low word carries anyway |
| Sha1.HighGrows | android/ext4_utils/src/sha1.c:340-361 | for an update of any length the low word stays right, and the high word falls behind by the high bits of the length unless the low word carries |
| Sha1.PadExactly | android/ext4_utils/src/sha1.c:366-387 | the padding is that of section 5.1.1 of FIPS 180-4 exactly when the high word is right |
| Sha1.Context.Update | android/ext4_utils/src/sha1.c:340-361 | for every update that does not overrun the buffer, state, low word and buffer represent the message extended by the data, and what the high word loses is stated |
| Sha1.SumExactly | android/ext4_utils/src/sha1.c:350-360 | the copy into the buffer stays inside it exactly when the bytes buffered and those of the update add up to less than 2^32, and then the loop test does not wrap |
| Sha1.CountLost | android/ext4_utils/src/sha1.c:348-349 | a first update of 2^29 bytes loses one from the high word |
| Sha1.Context.PadZeros | android/ext4_utils/src/sha1.c:366-387 | the padding loop adds the zeros of the standard, fewer than 64 |
| Sha1.Context.Final | android/ext4_utils/src/sha1.c:366-387 | the digest is that of the message padded with the count as it stands |
| Sha1.HashPieces | android/ext4_utils/src/sha1.c:324-387 | for every sequence of such updates, init, updates and final hash the joined message, padded as in the standard exactly when the high word lost nothing modulo 2^32; with updates below 2^29 bytes the digest is the one-shot digest |
| Touch.TouchDevice.PointerDown | emulator/plugin/virtio-input-android/src/virtio-input-android.c:325-358 | sends exactly the slot unless it is selected and the eight axes of a touch; the guest's slot equals the new contact and other slots are left alone |
| Touch.TouchDevice.PointerUp | emulator/plugin/virtio-input-android/src/virtio-input-android.c:374-393 | sends exactly the slot unless it is selected, pressure 0 and tracking id -1; the guest sees the contact released, other slots alone |
| Touch.TouchDevice.PointerMove | emulator/plugin/virtio-input-android/src/virtio-input-android.c:413-444 | sends the slot unless it is selected and the axes that differ, in order, and nothing when the position is the same; the guest's slot equals the moved contact |
| Touch.TouchDevice.HandleButton | emulator/plugin/virtio-input-android/src/virtio-input-android.c:477-503 | press, repeated press, release and the wheel-axis exception send exactly the events of the input and keep guest and device in agreement |
| Touch.TouchDevice.HandleMove | emulator/plugin/virtio-input-android/src/virtio-input-android.c:507-529 | sends nothing when the coordinate is the same, otherwise for each held button in order its slot unless it is selected and the one axis; every tracked contact takes the new coordinate, and guest and device stay in agreement |
| Touch.TouchDevice.HandleAll | emulator/plugin/virtio-input-android/src/virtio-input-android.c:477-529 | after every run of events, replaying all that was sent through a slot decoder gives, for every held button, its tracking id, position and pressure, and -1 for every released one; what is sent and which buttons are held is stated from the events alone |
| Touch.TouchesCounted | emulator/plugin/virtio-input-android/src/virtio-input-android.c:477-529 | over every run, as many tracking ids are sent as mapped buttons went down or up |
| Touch.MotionTouchesNothing | emulator/plugin/virtio-input-android/src/virtio-input-android.c:507-529 | a motion sends no tracking id |

## Left out

- ext4fixup: the sanity pass before marking, the repair of a last record with at most 8 bytes left over, the check of inode bitmaps, and the free-inode counters of group descriptors; symbolic and hard links are entries like any other.
- FixupRuns.CrashSafe: inode numbers leave the marker bit free before and after (below 2^31), a block write is atomic, and the directory graph has no cycle.
- FixupTool.Device.RecurseDir: the directory buffer is an array of entries cut into blocks, not of bytes.
- Indirect.Reservation.ReserveTindirect: ranges of 2^31 blocks or more as signed numbers, which no block size of whole KiB gives.
- Indirect: filling and attaching indirect blocks, and the resize inode.
- InodeExtents.BlockAllocation: giving back or splitting off more than one block across regions; the linked lists of regions are sequences, so node aliasing is not captured.
- InodeExtents.AllocateExtents: what records written past the extent block do to the memory behind it, and the 16 bits of an extent's length, which regions of more than 32768 blocks (blocks above 4 KiB) exceed.
- Allocator.BlockAllocator.BestFit: block numbers are unbounded, so a volume of 2^32 blocks or the failure sentinel as a block number is not captured.
- Dirents.MakeDirectory: records stand at offsets and not as bytes; names have 1 to 255 characters, blocks more than 263 and fewer than 65536 bytes.
- Sha1: the 80 rounds of the compression function, which is any function here.
- Sha1.Context.Update: what an update that overruns the buffer, by the exact condition of Sha1.SumExactly, does to the memory behind it.
- Connector.Connector.OnReceive: Connector.cpp:66-69 moves the buffer into one argument of a call and reads it in two others, in an order that C++ leaves open; the model reads first.
- Connector: loading and saving plugs, and what a device factory does.
- VsockRuns.RunKeeps: a status of NEEDS_RESET, which resets the port allocator but keeps the streams, and snapshots; listeners and plugs that call back into the device from within a callback (a later event instead).
- VsockRuns.ConnectInserts: assumes listeners below port 2^31 and fewer than 2^31 - 1 dynamic ports in use, without which the 32-bit port number wraps.
- VsockRuns.CreditSafe: assumes a guest that acknowledges no more than was sent and withdraws no room that bytes in flight need (section 5.10.6.3 of the VIRTIO 1.1 specification), and says nothing of a stream after a send of 2^30 bytes or more, whose counter no longer counts what was sent.
- VsockRuns.OpensFirst: assumes receive buffers that hold a header, as the exact condition of VsockStream.ControlLost demands.
- VsockRequests.NothingForgotten: assumes the same, and leaves out credit requests, which a stream raises itself while it has no window.
- VsockDevice.Device.OnData: the 44 header bytes are taken as decoded, and the length, type and address checks before dispatch are left out.
- VsockDevice.Device: streams are values in a sequence ordered by key, so pointers held by plugs are represented by their ports; notifications, data sniffers, locks and the event queue are left out.
- Touch.TouchDevice: pass-through multi-touch events, which change the guest's slot without the device's knowledge, and the other input kinds.
- Everything else: option parsing, help text, device registration, socket proxies, battery registers, partition setup, fstab parsing, file locks and the adb client are input, output or easy single-branch logic.
