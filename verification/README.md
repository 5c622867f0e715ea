# Verified models of eLua's allocators, file system, links and queues

This project models the parts of eLua in which a wrong step goes unnoticed for a long time, and proves what they
promise. It has seven parts. Each keeps the form of the C code: state that the code updates in place is a class whose
methods update it, loops are loops, and every method is proved against a specification whose properties are proved as
lemmas.

- **dlmalloc** (`src/dlmalloc.c`, as `inc/dlmalloc.h` configures it: 32-bit sizes, alignment 8, one state, no mmap, no
  trim, MORECORE contiguous with fallback). `Words`, `Masks` and `BinMaps` are the bit tricks, `TreeIndex` and
  `TrieKeys` the arithmetic of the tree bins. `Tries` is the bitwise trie as a value; `TreeLinks` and `TreeUnlink` are
  the pointer writes on it, `TreeBins` and `TreeTable` the array of tries with its map, `TreeSearch` and `TreeFit` the
  best-fit search, `SmallBins` the rings of small chunks. `Layouts`, `Writes` and `Segments` are the physical heap:
  headers, footers, fenceposts and segments. `HeapState`, `HeapSteps`, `HeapFrees`, `HeapResizes`, `HeapGrowth` and
  `HeapSegments` combine bins and layout into the heap invariant (the predicate `HeapOk`) and show what each kind of
  step makes of it. `Malloc` is the class with the operations, `Sbrk` is `elua_sbrk`, `Calloc` the overflow check of
  `dlcalloc`, `Payloads` what callers keep in their chunks. The invariant says what the code's own check routines ask
  for: chunks tile each segment, in-use bits and footers agree with the neighbours, no two free chunks touch, and every
  free chunk other than the victim and top is in exactly the bin for its size, with both bin maps exact.
- **salloc** (`src/salloc.c`). `BlockLists` is the list of blocks in memory words, `BlockSteps` what joining, splitting
  and marking do to it and to the payloads of others, `Salloc` the allocator.
- **The write-once file system** (`src/romfs.c`). `WofsLog` is the flash image as a log of records, `WofsFiles` the map
  from case-folded names to contents that the log stands for, `Wofs` the file operations, `WofsFormat` the formatting;
  `FlashWriter` and `FlashSectors` are the flash support of `src/common.c` below it. That flash is never rewritten is a
  precondition of `Wofs.Fs.WriteFlash`, which every writing operation meets.
- **The serial link** (`src/common_uart.c`, `mux_src/main.c`). `Sermux` has both ends as step functions, `SermuxRuns`
  whole runs of one end, `SermuxLink` both ends with the channels between them and the request that restores a
  forgotten service ID. `VirtualUarts` and `Multiplexer` are the two programs on their own variables, `Transport` the
  memory transport of `rfs_server_src/rfs_transports.c`, `MuxSteps` and `MuxRuns` the service loop with the RFS server
  inside, `MuxTraffic` what its runs carry between the line, the ports and the server.
- **Remote procedure call packets** (`src/eluarpc.c`). `Rpc` is the format, `RpcCode` the printer, `RpcParser` what the
  parser accepts, `RpcReader` the parser.
- **XMODEM** (`src/xmodem.c`). `Crc` is the record check as polynomial arithmetic, `XmodemRecords` what the receiver
  makes of its input as a function, `Xmodem` the receiver, `XmodemArrivals` and `XmodemLink` the receiver against a
  stop-and-wait sender over a faulty line.
- **The interrupt queue** (`src/elua_int.c`). `IntSteps` is the state machine of interrupt side and hook, `IntQueue` the
  queue and the enable flags as they are stored.

`Bytes` and `Maps` hold what several parts share.

## What the code does differently from what one would expect

- `sys_alloc`, when MORECORE gives too small a block elsewhere, asks for the rest and takes for granted that it
  follows (`src/dlmalloc.c:2696-2713`). `elua_sbrk` can skip to another region instead. `Malloc.GrowthCanOverrun` is a
  heap in order, reached by a malloc and a free, from which a request of 400 bytes makes a segment of memory that was
  never given. Whether that happens can be told from the regions beforehand (the predicate `Joins`): the first region
  with room for the block extends top, or has room for the rest as well, or no region behind it has. With `Joins` what
  is used is good memory; without it, when no two regions touch, it is not (`Malloc.MallocState.MoreContiguous`,
  `Malloc.MallocState.Cope`, `Sbrk.FollowsIff`): it is not all given (`Malloc.StrayNeverHeld`), or it is too small
  (`Malloc.ShortPrepend`). When regions touch, two separate answers can be one stretch of memory
  all the same (`Sbrk.TouchingRegions`). `SysAlloc`, `DlMalloc` and `DlRealloc` require `Joins` (through `Growable`).
- The first request of `sys_alloc` is made longer so that the memory ends on a page boundary
  (`src/dlmalloc.c:2671-2679`). If no region has room for that, `elua_sbrk` has passed over all of them, and the fallback
  without the extra bytes fails as well: a first region that does not begin on a page boundary and has exactly the
  padded size left serves nothing (`Malloc.FirstNeedsMore`). The predicate `Grant` is the exact condition on the regions
  under which a request gets memory, and `Malloc.RoomIsGranted` says that it holds whenever a region has the padded size
  left, or 256 bytes more for the first request.
- `heap_ptr + incr` in `elua_sbrk` can wrap around past 2^32; the request is then granted although there is no memory.
  `Sbrk.WrapsIff` says exactly when the answer is right, `Sbrk.WrapAround` is an input for which it is not.
- The space check of `romfs_write_r` can wrap around likewise, so that the length is not cut; `Wofs.ClampIff` says
  exactly when it is cut right, `Wofs.ClampMissed` is an input for which it is not.
- A truncating open of the write-once file system that fails for lack of space has already deleted the old file. By
  `Wofs.Fs.Open` that is so exactly if there is no space before the call; `Wofs.LostByTruncation` is an input.
- The receiver of XMODEM never acknowledges a repeated block, so a lost acknowledgement is final
  (`XmodemLink.LostAckIsFinal`; `XmodemLink.AnotherBlockIff` says exactly when a further block can still be stored),
  and block numbers protect the order exactly as long as fewer than 256 acknowledgements are repeated
  (`XmodemLink.InOrderIff`, with `XmodemLink.WrongAfter256` as the run that breaks it).
- The multiplexer accepts eight ports next to the RFS service, but the last one then has no service ID
  (`Multiplexer.PortsAreServices`).
- A request for the service ID that finds nothing to send again stops the multiplexer; a board takes it for data if it
  knows the incoming service, and asks for the service ID itself otherwise. `SermuxRuns.RequestAsData` is such an
  input. `SermuxRuns.Faithful` says for all runs that what was sent comes out exactly if no request is harmful in this
  sense (the function `Harms` counts them), and `SermuxLink` shows that none is between the two ends.
- A size field of at most 4, or one larger than the buffer, makes `rfs_mem_read_request_packet` store bytes behind the
  end of its buffer (`rfs_server_src/rfs_transports.c:257-258`); a malformed one makes it drop everything from then
  on. `Transport.NeverOverrunsIff` says from the first four bytes exactly when no input can overrun the buffer,
  `Transport.FourByteRequest` is an input that does, `Transport.DeafForEver` and `MuxRuns.DeafRun` are about malformed
  fields. `Transport.MemTransport.ReadRequestPacket` and the turns of the multiplexer are about the bytes before that
  happens.

## Assumptions

- RTCHECK conditions hold, and assertions are not part of the model; that the conditions they name hold is part of what
  is proved.
- RAM regions do not touch 0, and dlmalloc's requests do not make `elua_sbrk`'s pointer wrap (`Unwrapped`, `Reachable`).
- Requests to `salloc` are below the wrap of `size + 16`.
- Names in the write-once file system are not empty, have at most 30 characters, contain no 0, are not "\1" and do not
  begin with 0xFF; creating opens ask for write access; no open and no directory scan happens while a file is open for
  writing; the size of the file system is a multiple of 4.
- The RFS server answers in place with a packet that fits in the buffer; it is a parameter of the multiplexer.
- The Lua interpreter runs the hook while it is set and does not run it inside itself.

## Model

| member | source | states |
|---|---|---|
| `BinMaps.MarkClear` | src/dlmalloc.c:1496-1506 | Marking or clearing a bin in a bin map changes the mark of that bin and of no other. |
| `BinMaps.Bit2IdxOfBit` | src/dlmalloc.c:1546-1556 | The five shift-and-mask steps of the portable compute_bit2idx find the index of every single bit. |
| `BinMaps.LeastIsLowest` | src/dlmalloc.c:1508-1508 | least_bit followed by compute_bit2idx names the lowest marked bin of any non-zero map. |
| `BinMaps.NextIsLowest` | src/dlmalloc.c:3044-3048 | left_bits, least_bit and compute_bit2idx together give the lowest marked bin strictly above a given one, and the masked map is zero exactly if there is none. |
| `BinMaps.ShiftedNextIsLowest` | src/dlmalloc.c:3180-3182 | The same for the form dlmalloc uses on small bins, with the map shifted down and up again. |
| `BinMaps.ShiftedMarks` | src/dlmalloc.c:3160-3164 | The two low bits of the shifted small map are the marks of the bin for the size and of the next one, and the shifted map is zero exactly if no bin from there on is marked. |
| `BinMaps.EmptyMap` | src/dlmalloc.c:3202-3212 | A bin map is zero exactly if no bin is marked. |
| `TreeIndex.IndexFormsAgree` | src/dlmalloc.c:1416-1477 | The branch-free compute_tree_index and the count-leading-zeros form agree on every 32-bit size. |
| `TreeIndex.IndexBracketsSize` | src/dlmalloc.c:1479-1490 | Every large size lies between minsize_for_tree_index of its bin and that of the next bin. |
| `TrieKeys.KeyStart` | src/dlmalloc.c:1483-1486 | Shifting a size left by leftshift_for_tree_index gives the key of that size within the range of its bin. |
| `TrieKeys.KeyStep` | src/dlmalloc.c:2241-2245 | The sign bit of the key tells whether the size is in the upper half of a trie node's range, and the doubled key is the key within that half. |
| `Tries.InsertKeepsTrie` | src/dlmalloc.c:2226-2274 | Inserting a size keeps the bitwise trie order and adds exactly that size to those stored. |
| `Tries.InsertView` | src/dlmalloc.c:2226-2274 | Inserting a chunk adds it under its size to the map of stored chunks and changes nothing else. |
| `Tries.RemoveView` | src/dlmalloc.c:2294-2363 | Removing a chunk takes exactly that chunk off the map of stored chunks, also when its node is replaced by a leaf from below. |
| `Tries.RemoveSizes` | src/dlmalloc.c:2294-2363 | Removing a chunk keeps the trie order. |
| `Tries.TakeLeafTrie` | src/dlmalloc.c:2309-2322 | The leaf found by following right children first can be moved to any node above it: the rest stays a trie without that leaf's size. |
| `TreeLinks.InsertShape` | src/dlmalloc.c:2240-2272 | The pointer writes of insert_large_chunk turn the links that represent a trie, with parents and same-size rings, into those of the trie with the chunk inserted. |
| `TreeUnlink.UnlinkShape` | src/dlmalloc.c:2294-2363 | The pointer writes of unlink_large_chunk, wherever the chunk sits (ring member, ring head, leaf or interior node), turn the links into those of the trie without it, and touch no other chunk. |
| `TreeTable.FindLeaf` | src/dlmalloc.c:2309-2322 | The loop down from a child ends at the leaf that right children first lead to. |
| `TreeTable.TreeTable.InsertLarge` | src/dlmalloc.c:2226-2274 | insert_large_chunk keeps all tree bins and the tree map in order and adds the chunk with its size, and nothing else. |
| `TreeTable.TreeTable.UnlinkLarge` | src/dlmalloc.c:2294-2363 | unlink_large_chunk keeps all tree bins and the tree map in order and removes the chunk, and nothing else. |
| `TreeSearch.LeftBelowRight` | src/dlmalloc.c:1923-1925 | Every size of a left subtree is below every size of its sibling. |
| `TreeSearch.DescendLeft` | src/dlmalloc.c:3024-3041 | One step of the search to the left keeps its invariant: sizes that may still beat the candidate are in the current subtree or in the deepest untaken right one. |
| `TreeSearch.DescendRight` | src/dlmalloc.c:3024-3041 | The same for a step to the right. |
| `TreeFit.BestOfBin` | src/dlmalloc.c:3043-3060 | The least fit of one tree bin is the least of all bins if no bin from the request's own up to it holds a fit. |
| `TreeFit.FindLarge` | src/dlmalloc.c:3014-3060 | Following one path, one deferred right subtree and one later bin finds a chunk of least size at or above the request among all tree chunks, and the rest over the request, or no chunk if none fits. |
| `TreeFit.FindSmall` | src/dlmalloc.c:3085-3100 | The search for small requests finds a smallest chunk among all tree chunks. |
| `SmallBins.MarkedHolds` | src/dlmalloc.c:1941-1962 | A small bin is marked exactly if a chunk of its size is in it. |
| `SmallBins.SmallTable.InsertSmall` | src/dlmalloc.c:2148-2164 | insert_small_chunk keeps every small bin a doubly linked ring of chunks of its size, keeps the small map exact, and adds the chunk and nothing else. |
| `SmallBins.SmallTable.UnlinkSmall` | src/dlmalloc.c:2167-2190 | unlink_small_chunk keeps the rings and the map and removes the chunk and nothing else. |
| `SmallBins.SmallTable.UnlinkFirst` | src/dlmalloc.c:2193-2208 | unlink_first_small_chunk removes the first chunk of a marked bin. |
| `SmallBins.SmallTable.First` | src/dlmalloc.c:3165-3167 | The first chunk of a marked bin has exactly the size of the bin. |
| `Layouts.RecutOk` | src/dlmalloc.c:1797-1862 | Replacing a run of chunks by a new cut of it keeps the whole physical layout: chunks aligned, adjacent and apart, in-use bits and footers in agreement with the neighbours, no two free chunks touching, fenceposts in place. |
| `Layouts.TopCutOk` | src/dlmalloc.c:1803-1814 | Moving the top chunk, with or without a chunk cut off below it, keeps the layout. |
| `Writes.TakeOk` | src/dlmalloc.c:3109-3109 | set_inuse_and_pinuse on a whole free chunk keeps the layout. |
| `Writes.SetFreeOk` | src/dlmalloc.c:3001-3003 | set_free_with_pinuse on a run of chunks keeps the layout when its neighbours are in use. |
| `Writes.GrowOk` | src/dlmalloc.c:3450-3453 | set_inuse on a run of chunks keeps the layout. |
| `Writes.GiveToTop` | src/dlmalloc.c:2974-2983 | Giving a run next to top to top keeps the layout. |
| `Segments.Tiling` | src/dlmalloc.c:1970-2030 | Chunks tile every segment: each byte from its base to the end of its run lies in exactly one chunk. |
| `Segments.FooterOfUsed` | src/dlmalloc.c:699-753 | The footer word of a chunk in use is the owner's to write: nothing in the heap depends on it. |
| `HeapSteps.TakeStep` | src/dlmalloc.c:3106-3108 | Handing out a free chunk whole keeps the heap invariant with that chunk out of its bin, and touches no other caller's chunk. |
| `HeapSteps.FrontBinned` | src/dlmalloc.c:3071-3075 | Cutting a request off the front of a binned chunk and binning the rest keeps the heap invariant. |
| `HeapSteps.FrontVictim` | src/dlmalloc.c:3110-3113 | The same when the rest becomes the designated victim. |
| `HeapSteps.VictimFront` | src/dlmalloc.c:3221-3226 | Cutting a request off the designated victim keeps the heap invariant. |
| `HeapSteps.TopStep` | src/dlmalloc.c:3238-3248 | Cutting a request off top keeps the heap invariant. |
| `HeapFrees.OpenBack` | src/dlmalloc.c:2945-2960 | The chunk before a freed one, found through its footer, is a binned chunk of that size or the victim, and can be merged. |
| `HeapFrees.OpenForward` | src/dlmalloc.c:2973-2999 | The free chunk after the run can be merged too, and what follows it is in use. |
| `HeapFrees.FreeDone` | src/dlmalloc.c:2990-3004 | Turning the merged run into one free chunk, the victim if it holds the victim and binned otherwise, restores the heap invariant and gives back exactly the freed chunk. |
| `HeapFrees.FreeTop` | src/dlmalloc.c:2974-2983 | Giving the merged run to top restores the heap invariant, also when it holds the victim. |
| `HeapResizes.GrowDone` | src/dlmalloc.c:3436-3453 | A chunk that grows over all of the free chunk behind it keeps the heap invariant and every other caller's chunk. |
| `HeapResizes.GrowVictim` | src/dlmalloc.c:3423-3435 | The same when it grows into the victim and the rest stays the victim. |
| `HeapResizes.GrowTopDone` | src/dlmalloc.c:3411-3422 | The same when it grows into top. |
| `HeapGrowth.FirstSegment` | src/dlmalloc.c:2754-2765 | The first memory from MORECORE makes a heap of one top chunk. |
| `HeapGrowth.ExtendStep` | src/dlmalloc.c:2781-2787 | Memory right behind the top segment extends top. |
| `HeapGrowth.FrontedStep` | src/dlmalloc.c:2518-2530 | Memory right in front of a segment becomes chunks of that segment. |
| `HeapSegments.CloseSmall` | src/dlmalloc.c:2560-2598 | Closing the old top segment when all of the old top goes into the segment record keeps the heap invariant and every caller's chunk. |
| `HeapSegments.CloseLarge` | src/dlmalloc.c:2560-2607 | Closing it when a rest is left gives a heap in which that rest only has to be freed. |
| `Sbrk.SbrkState.Morecore` | src/newlib/stubs.c:427-473 | elua_sbrk, with its loop over the RAM regions and its 32-bit addition, gives what the specification Serve32 gives and moves its region index and heap pointer accordingly. |
| `Sbrk.WrapsIff` | src/newlib/stubs.c:457-470 | The 32-bit addition gives the answer of unbounded addition exactly if it wraps around in no region that is tried. |
| `Sbrk.WrapAround` | src/newlib/stubs.c:457-470 | A region with 240 bytes left near 2^32 from which a request of 4096 bytes is granted. |
| `Sbrk.ServeIsFirst` | src/newlib/stubs.c:442-472 | The answer comes from the first region, from the current one on, that has room for it, and the call fails exactly if none has. |
| `Sbrk.FailsIff` | src/newlib/stubs.c:442-472 | A call fails exactly if no region, from the current one on, has room, and then no later call, however small, succeeds. |
| `Sbrk.ServeGives` | src/newlib/stubs.c:442-472 | A successful answer is memory of the requested length inside one region, all of it handed out now. |
| `Sbrk.FreshBlock` | src/newlib/stubs.c:442-472 | Memory handed out before and a new answer never overlap. |
| `Sbrk.JoinedIffAdjacent` | src/dlmalloc.c:2699-2713 | When no region begins where another ends: the last block and the answer to one more call are one block of memory exactly if they meet, which they do exactly if the region has room for both. |
| `Sbrk.FollowsIff` | src/dlmalloc.c:2699-2713 | When no region begins where another ends: a further answer is failure or follows the last block exactly if its region has room for it or no region behind has. |
| `Sbrk.TouchingRegions` | src/newlib/stubs.c:457-463 | Regions that touch, on which two answers that do not follow each other leave all the memory behind the first one passed over for good; so the condition on the regions is needed. |
| `Malloc.RequestFits` | src/dlmalloc.c:805-814 | The chunk size for a request is the least legal one with room for the bytes and a header word, and it is small exactly if the request is. |
| `Malloc.NeedFits` | src/dlmalloc.c:3155-3206 | Every request is turned into the least legal chunk size with room for it, or into the largest word if no chunk can hold it. |
| `Malloc.MallocState.InsertChunk` | src/dlmalloc.c:2367-2369 | insert_chunk keeps both kinds of bins and adds the chunk with its size. |
| `Malloc.MallocState.UnlinkChunk` | src/dlmalloc.c:2371-2373 | unlink_chunk keeps both kinds of bins and removes the chunk. |
| `Malloc.MallocState.ReplaceVictim` | src/dlmalloc.c:2212-2221 | replace_dv bins the old victim, if there is one, and makes the new chunk the victim. |
| `Malloc.MallocState.TmallocLarge` | src/dlmalloc.c:3014-3082 | tmalloc_large takes a chunk of least size at or above the request, unless the victim fits and is no larger or nothing fits; then it returns 0 and changes nothing. Otherwise the heap invariant holds again, the chunk is handed out with less than a minimal chunk to spare, and no other caller's chunk changed. |
| `Malloc.MallocState.TmallocSmall` | src/dlmalloc.c:3085-3120 | tmalloc_small hands out a smallest tree chunk and keeps the heap invariant. |
| `Malloc.MallocState.Dispose` | src/dlmalloc.c:2943-3009 | dispose_chunk keeps the heap invariant and gives back exactly its chunk. |
| `Malloc.MallocState.DisposeForward` | src/dlmalloc.c:2972-3005 | Its forward half: from a run merged backwards to the heap invariant, in each of the cases top, victim, binned and in use. |
| `Malloc.MallocState.DlFree` | src/dlmalloc.c:3262-3369 | dlfree keeps the heap invariant, gives back exactly the chunk of the pointer, changes no other caller's chunk, and does nothing for a null pointer. |
| `Malloc.MallocState.TryRealloc` | src/dlmalloc.c:3391-3468 | The in-place resize succeeds exactly if the chunk is large enough or grows far enough with top, the victim or the free chunk behind it; then it keeps the heap invariant and all other callers' chunks, and otherwise it changes nothing. |
| `Malloc.MallocState.ShrinkTo` | src/dlmalloc.c:3402-3409 | Splitting a chunk in use and disposing of the rest keeps the heap invariant and leaves the chunk the requested size. |
| `Malloc.MallocState.GrowTo` | src/dlmalloc.c:3450-3453 | A chunk takes the whole run behind it. |
| `Malloc.MallocState.InitHeap` | src/dlmalloc.c:2754-2773 | First-time initialization makes the heap invariant hold. |
| `Malloc.MallocState.AppendTop` | src/dlmalloc.c:2777-2787 | New memory behind the top segment is appended to it. |
| `Malloc.MallocState.AddSegment` | src/dlmalloc.c:2560-2610 | add_segment moves top to new memory, leaves a segment record of 24 bytes in use and at least two fenceposts up to the end of the old segment, frees the rest of the old top, and keeps the heap invariant and all callers' chunks. |
| `Malloc.MallocState.Prepend` | src/dlmalloc.c:2518-2557 | prepend_alloc hands out the front of new memory and merges the rest with the first chunk of the old segment, whichever kind it is. |
| `Malloc.MallocState.More` | src/dlmalloc.c:2661-2693 | What MORECORE returns is fresh memory outside all segments, or failure. |
| `Malloc.MallocState.SysAlloc` | src/dlmalloc.c:2615-2821 | sys_alloc keeps the heap invariant and all callers' chunks on every MORECORE path (first memory, contiguous growth, partial failure, non-contiguous fallback) and hands out a chunk of the requested size, or changes neither chunks nor bins. It fails exactly if there is no memory for the request, which can be told from the regions, the heap pointer and the top segment before the call; it requires Joins of the regions. |
| `Malloc.RoomIsGranted` | src/dlmalloc.c:2630-2752 | There is memory for a request whenever a region, from the current one on, has the padded size left, or 256 bytes more if it is the first request. |
| `Malloc.FirstNeedsMore` | src/dlmalloc.c:2665-2684 | A single region, not at a page boundary, that has exactly the padded size left, from which the first request gets nothing. |
| `Malloc.MallocState.MoreContiguous` | src/dlmalloc.c:2661-2717 | The contiguous attempt gives fresh memory that is enough for the request, or failure, if Joins holds of the regions; it or the fallback after it succeeds exactly if there is memory for the request; if Joins does not hold and no two regions touch, what is used is not all given or not enough. |
| `Malloc.MallocState.MoreAnywhere` | src/dlmalloc.c:2728-2744 | The non-contiguous attempt gives fresh memory that is enough, and fails exactly if no region has the padded size left. |
| `Malloc.SizesAdd` | src/dlmalloc.c:2684-2703 | The request for what top lacks and the request for what that block lacks are together exactly the padded size, so that the one call and the two calls need the same room. |
| `Malloc.MallocState.Cope` | src/dlmalloc.c:2695-2717 | The partial-failure path uses good memory if what the block lacks fits behind it in its region or in no region behind; otherwise, when no two regions touch, what it uses is not all given or not enough. |
| `Malloc.GrowthCanOverrun` | src/dlmalloc.c:2696-2713 | A heap in order and backed by memory, reached by a small malloc and a free, on RAM regions without Joins: the two answers of elua_sbrk to a request of 400 bytes lie in two regions, and with the segment made of them the heap is not backed any more. |
| `Malloc.StrayNeverHeld` | src/dlmalloc.c:2788-2806 | A segment that is not all given, new or in front of another one, leaves the heap without its memory. |
| `Malloc.ShortPrepend` | src/dlmalloc.c:2518-2530 | A block that is given but too small for the request, in front of a segment: the chunk that prepend_alloc would hand out reaches into the first chunk of that segment, and the size of the rest wraps around. |
| `Malloc.MallocState.TakeFirst` | src/dlmalloc.c:3162-3173 | A remainderless fit hands out the first chunk of its small bin. |
| `Malloc.MallocState.SplitFirst` | src/dlmalloc.c:3176-3200 | A chunk of the next marked small bin is split and its rest becomes the victim. |
| `Malloc.MallocState.TakeVictim` | src/dlmalloc.c:3218-3236 | A request the victim can serve is cut off it, or takes it whole. |
| `Malloc.MallocState.FromBins` | src/dlmalloc.c:3155-3216 | The bins' part of dlmalloc takes a smallest chunk that is large enough, one of nearly the size or, for a large request, smaller than the victim if the victim would do; or it changes nothing, and then the bins have no such chunk. |
| `Malloc.MallocState.DlMalloc` | src/dlmalloc.c:3124-3258 | dlmalloc keeps the heap invariant. Success hands out a new chunk with room for the request and less than a minimal chunk to spare and changes no caller's chunk; the chunk is a best fit of the bins if they have one to serve the request, or else comes from the victim, or else from top, or else from new memory. It fails, changing neither chunks nor bins, exactly if no free chunk, victim or top can serve the request and there is no memory for it. |
| `Malloc.MallocState.DlRealloc` | src/dlmalloc.c:3765-3808 | dlrealloc resizes in place whenever there is room there, otherwise moves to a new chunk and frees the old one; it frees for size 0 and leaves the old chunk alone when it fails, which it does exactly if there is no room in place and dlmalloc fails. The bytes of the payload, as many as the old and the new size have in common, are at the new place, and no other payload is written. |
| `Malloc.MallocState.MoveAway` | src/dlmalloc.c:3796-3804 | A chunk that cannot grow in place is replaced by a new one with its payload, or left alone exactly if dlmalloc fails. |
| `Malloc.KeptIff` | src/dlmalloc.c:3798-3801 | The bytes that a move keeps are exactly those that are in the old payload and within the new size. |
| `Malloc.MallocState.DlCalloc` | src/dlmalloc.c:3371-3384 | dlcalloc hands out memory for the product of its arguments, all of it cleared, or fails, which it does exactly if the product is too large for any chunk or dlmalloc fails for it; it writes to no other payload. |
| `Payloads.Payload.Copy` | src/dlmalloc.c:3801-3801 | Copying between stretches that do not overlap puts the bytes there and changes nothing else. |
| `Malloc.PayloadsApart` | src/dlmalloc.c:699-753 | In every valid heap, payloads of different callers never overlap, are 8-aligned, lie in memory that MORECORE handed out, and hold no chunk header and nothing of a free chunk from its header to the end of its footer, where its links are. |
| `Calloc.NeverShort` | src/dlmalloc.c:3371-3385 | dlcalloc asks for exactly the product of its arguments, or for the largest size, which fails, when the product does not fit in 32 bits. |
| `BlockLists.JoinedLinked` | src/salloc.c:110-114 | Rewriting the two links around a run of blocks gives the block list with that run as one block. |
| `BlockLists.SplitLinked` | src/salloc.c:147-152 | The four link writes of a split give the block list with one more block. |
| `BlockSteps.JoinKeeps` | src/salloc.c:98-115 | Joining free blocks leaves every other block with its place, size and payload. |
| `BlockSteps.CutKeeps` | src/salloc.c:145-154 | Splitting a block leaves every other block, and its own payload in front of the cut, alone. |
| `Salloc.SimpleAllocator.CompactFree` | src/salloc.c:98-115 | s_compact_free frees a block and joins it with all free neighbours; both scans end because the guards are taken; no two free blocks touch afterwards and no other block changes. |
| `Salloc.SimpleAllocator.FindFit` | src/salloc.c:127-141 | The scan finds a least free block of at least the size, or none exactly if none fits. |
| `Salloc.SimpleAllocator.GetFreeBlock` | src/salloc.c:119-156 | s_get_free_block takes a best fit and splits it if the rest is at least two headers, or changes nothing. |
| `Salloc.SimpleAllocator.CutOff` | src/salloc.c:145-154 | Cutting a taken block keeps the list linked, with no two free neighbours, and keeps the payload that stays. |
| `Salloc.SimpleAllocator.Init` | src/salloc.c:189-210 | s_init lays out two guards in every region with all the memory between them as one free block. |
| `Salloc.SimpleAllocator.Smalloc` | src/salloc.c:214-225 | smalloc takes a best fit from the first region that has one, keeps the payload of every other block, and returns NULL exactly without a fit or for size 0; the first call of all fails exactly if no region has the size between its guards. |
| `Salloc.SimpleAllocator.Sfree` | src/salloc.c:227-232 | sfree gives back exactly its block and keeps the payload of every other one. |
| `Salloc.SimpleAllocator.ShrinkBlock` | src/salloc.c:172-187 | s_shrink_block keeps the first bytes of the payload and leaves less than two headers to spare. |
| `Salloc.SimpleAllocator.Srealloc` | src/salloc.c:245-278 | srealloc stays in place exactly if the new size is no larger than the payload, and then leaves less than two headers to spare or the block as it is; otherwise it moves to a best fit, as smalloc does for a null pointer. It keeps the first min(old, new) bytes either way, keeps every other block, and changes nothing if it fails, which it does exactly without a fit. |
| `Salloc.Localize` | src/salloc.c:98-156 | A step in one region leaves the blocks of all other regions as they were. |
| `Salloc.Tiling` | src/salloc.c:63-69 | The blocks of a region tile it from guard to guard: each byte is in exactly one of them. |
| `Salloc.TwoBlocks` | src/salloc.c:119-156 | Blocks of different callers never overlap. |
| `Salloc.PayloadWrites` | src/salloc.c:27-61 | Callers can write anything in their own payloads without disturbing the lists or other blocks. |
| `WofsLog.Tombstone` | src/romfs.c:198-204 | Writing the tombstone goes onto erased flash and gives the log with that record deleted. |
| `WofsLog.Begin` | src/romfs.c:222-227 | Writing the name goes onto erased flash and begins a record behind the log. |
| `WofsLog.Extend` | src/romfs.c:296-300 | Writing data goes onto erased flash and extends the pending record. |
| `WofsLog.Finish` | src/romfs.c:260-267 | Writing the size word goes onto erased flash and completes the record. |
| `WofsLog.SizeBytes` | src/romfs.c:260-265 | The size is stored with its low byte first. |
| `WofsLog.RoomForHeader` | src/romfs.c:208-213 | The space check of a creating open leaves room for the header and for an erased end marker behind it. |
| `WofsFiles.DeletedFiles` | src/romfs.c:198-204 | Deleting the live record of a name takes exactly that name off the map of files. |
| `WofsFiles.AddedFiles` | src/romfs.c:254-275 | Adding a record for an absent name puts exactly that file on the map. |
| `WofsFiles.FoldedIff` | src/romfs.c:113-113 | Two names count as the same exactly if they have the same length and differ in the case of ASCII letters only. |
| `WofsFiles.FoundIff` | src/romfs.c:91-132 | A file is found by a name exactly if a record that is not deleted has that name but for the case of letters. |
| `WofsFiles.ListingIsMap` | src/romfs.c:369-405 | The names a directory listing gives are exactly those of the map. |
| `WofsFiles.ListingDistinct` | src/romfs.c:369-405 | No two entries of a listing have names that differ in case only. |
| `Wofs.Fs.WriteFlash` | src/romfs.c:504-510 | Every flash write of the file system requires all its cells to be erased. |
| `Wofs.Fs.OpenFile` | src/romfs.c:74-132 | The scan finds the live record of a name, ignoring case and skipping deleted ones, or the end of the log if there is none. |
| `Wofs.Fs.Create` | src/romfs.c:196-232 | A creating open puts a tombstone on the old file, checks the space and begins the new record; for lack of space it fails with the old file gone. |
| `Wofs.Fs.Open` | src/romfs.c:134-252 | Which error or success an open gives for every combination of flags, presence, space and free descriptors, in particular for O_CREAT on a new file, O_EXCL and O_TRUNC on one that is there, other write access, and reading; what it does to the map of files; and that a reader gets the contents last closed under that name. The size of the device and the end of the log, which decide about space, stay as they were. |
| `Wofs.RefusedIfFull` | src/romfs.c:208-213 | An open is refused for lack of space only if not one byte could be written to the file; otherwise its header and the bytes that a write leaves have room. |
| `Wofs.LostByTruncation` | src/romfs.c:193-213 | A device on which a truncating open of the only file finds no space, which it does after deleting it. |
| `Wofs.Fs.Write` | src/romfs.c:277-302 | A write appends as many bytes as fit in front of the last word of flash to the pending contents, only at the end of the file and only on the descriptor open for writing; it requires the condition of ClampIff of writes that get that far. |
| `Wofs.ClampIff` | src/romfs.c:294-297 | The 32-bit space check cuts the length to what is left of the device exactly if the end of the write does not wrap around or wraps around to an address near the end of the device. |
| `Wofs.ClampMissed` | src/romfs.c:294-297 | A length near 2^32 that is not cut. |
| `Wofs.Fs.Read` | src/romfs.c:304-321 | A read returns the bytes of the file at the offset, up to its end, and advances the offset. |
| `Wofs.Fs.Lseek` | src/romfs.c:324-350 | A seek moves the offset to the 32-bit sum, if that is within the file. |
| `Wofs.SeekIff` | src/romfs.c:324-350 | On files below 2^31 bytes a seek succeeds exactly if the place, counted from the beginning, the offset or the end, is in the file, and leads there. |
| `Wofs.Fs.Close` | src/romfs.c:254-275 | Closing the writer adds its file to the map with what was written; closing a reader changes no file. |
| `Wofs.Fs.Readdir` | src/romfs.c:369-405 | Each call gives the next live record in order of creation, skipping deleted ones, until the end. |
| `FlashWriter.Flash.Write` | src/common.c:529-575 | platform_flash_write changes exactly the bytes of the target range to the source, for every alignment and length. |
| `FlashWriter.Flash.ProgramUnits` | src/common.c:548-572 | Only unit-aligned stretches of whole units are programmed, and cells outside the target range only with what they hold. |
| `FlashWriter.Flash.WritePart` | src/common.c:542-552 | A part of one unit is written by programming the unit with its other cells as they were. |
| `FlashSectors.Sectors.FindSector` | src/common.c:474-500 | The loop over sectors of different sizes finds the sector that holds the address and its bounds. |
| `FlashSectors.FormsAgree` | src/common.c:477-499 | For sectors of one size, the sector found is the address divided by the size. |
| `FlashSectors.FindUniform` | src/common.c:477-486 | For sectors of one size, the division finds the sector that holds the address, and its bounds. |
| `FlashSectors.Sectors.FirstFree` | src/common.c:518-527 | The first free address is the least sector boundary at or behind the program image. |
| `WofsFormat.Formatter.Format` | src/romfs.c:524-538 | From a file system in order, formatting succeeds exactly if no sector from the first free one to the one with the end marker fails, and then the whole file system area is erased, also behind that sector. |
| `WofsFormat.Formatter.EraseUpTo` | src/romfs.c:534-537 | The loop erases exactly the sectors up to the last one, or stops at the first that fails. |
| `WofsFormat.Formatter.OneLast` | src/romfs.c:530-537 | The sector up to which formatting erases is determined by the file system. |
| `Sermux.FlipFacts` | inc/sermux.h:6-14 | The escape mask changes bit 5 and no other, is its own inverse, and maps special bytes to plain ones. |
| `Sermux.DecodeChar` | src/common_uart.c:134-155 | The bytes of one character decode to it and set the service it was sent on. |
| `Sermux.DecodeWire` | src/common_uart.c:134-155 | Decoding the encoded bytes of any sequence of characters gives that sequence. |
| `Sermux.OneIdPerChange` | mux_src/main.c:356-362 | A service ID goes out exactly where the service changes. |
| `SermuxRuns.RunDecodes` | src/common_uart.c:92-132 | What a receiver delivers is what the bytes that are not requests decode to, whatever it sends, asks for and answers meanwhile, exactly if no request is harmful: none finds nothing to send again, at a board that waits for a service ID itself aside. |
| `SermuxRuns.Faithful` | mux_src/main.c:283-347 | From the initial state, any interleaving of characters comes out as sent, with requests for the service ID inserted anywhere, also between an escape and its payload, exactly if no request is harmful. The multiplexer stops at a harmful request and at nothing else, and what came out until then is a front part; a board delivers one character too many for each. |
| `SermuxRuns.MuxRun` | mux_src/main.c:294-325 | From any state the multiplexer stops exactly at a harmful request; what it delivers is a front part of what the other bytes decode to. |
| `SermuxRuns.StopsIff` | mux_src/main.c:286-327 | On any input whatever the multiplexer stops exactly if a request for the service ID finds nothing to send again or an escape is followed by a byte that had not to be escaped. |
| `SermuxRuns.AgainOnce` | mux_src/main.c:293-306 | In every run of an end, characters are sent again at most as often as characters are sent: no character is sent again twice. |
| `SermuxRuns.BoardRun` | src/common_uart.c:92-128 | From any state a board delivers as many characters as the other bytes decode to and one more for each harmful request. |
| `SermuxRuns.RequestAsData` | src/common_uart.c:101-126 | A request between the service ID and the character: the board that has sent nothing delivers it as a character of its own, and the multiplexer stops. |
| `SermuxLink.DataStep` | mux_src/main.c:306-346 | Delivering a byte keeps one direction of the link in order and brings it closer to being idle. |
| `SermuxLink.RequestStep` | src/common_uart.c:101-109 | Answering a request keeps the direction in order: the last character is under way again behind its service ID. |
| `SermuxLink.StepKeeps` | mux_src/main.c:293-371 | Every move of the whole link, sending, delivering or forgetting, keeps both directions in order, and every delivery decreases the work left. |
| `SermuxLink.ExactlyOnce` | mux_src/main.c:293-325 | In every run from the start in which a service ID is only forgotten while the link is idle and one character per direction is unanswered at most, each end has delivered what the other sent, in order and once, at most the last character missing, and none when nothing is under way. |
| `VirtualUarts.Uarts.Send` | src/common_uart.c:134-155 | platform_uart_send on a virtual UART sends the encoded bytes and remembers the character for a later request. |
| `VirtualUarts.Uarts.RxHandler` | src/common_uart.c:92-132 | cmn_rx_handler on the multiplexed UART does what the receiving step function says, with its replies and deliveries. |
| `Transport.MemTransport.ReadRequestPacket` | rfs_server_src/rfs_transports.c:217-268 | Byte by byte, the buffer holds the bytes of the request so far; the response flag is up exactly if there are as many as the size field says; after a malformed size field bytes are dropped. |
| `Transport.MemTransport.WriteResponse` | rfs_server_src/rfs_transports.c:275-291 | The request in the buffer is executed and the length of the response is that of its size field, or 0 if that is malformed. |
| `Transport.PartOfPacket` | rfs_server_src/rfs_transports.c:234-264 | A part of a packet is complete exactly if it is all of it. |
| `Transport.Rebuilt` | rfs_server_src/rfs_transports.c:217-268 | Feeding a packet to an idle transport rebuilds it byte for byte. |
| `Transport.NeverOverrunsIff` | rfs_server_src/rfs_transports.c:234-264 | Once the size field is there, no bytes that follow can overrun the buffer exactly if the field is malformed, or is above 4 and at most the size of the buffer. |
| `Transport.FourByteRequest` | rfs_server_src/rfs_transports.c:253-258 | A size field of 4, and bytes behind it that run over the end of the buffer. |
| `Transport.DeafForEver` | rfs_server_src/rfs_transports.c:226-251 | After a malformed size field everything is dropped. |
| `Multiplexer.ServiceLoop.SendChar` | mux_src/main.c:349-371 | The sending part of the loop sends the encoded bytes and remembers the character. |
| `Multiplexer.ServiceLoop.LineByte` | mux_src/main.c:283-347 | The receiving part does what the receiving step function says and stops the program exactly when the protocol is violated. |
| `Multiplexer.ServiceLoop.ServeOnce` | mux_src/main.c:262-373 | One turn of the service loop does what the step function of the multiplexer says, on its own variables and the transport's buffer. |
| `Multiplexer.PortsAreServices` | mux_src/main.c:207-212 | All ports have service IDs, different ones, exactly if ports and offset together are at most eight; the check of the number of ports ignores the offset. |
| `MuxRuns.TurnKeeps` | mux_src/main.c:262-373 | Every turn keeps, also the one with which the loop stops: the run of the link explains what was decoded, the bytes for the RFS server are those of executed requests and of the one in the buffer, and every byte of a response has been sent or waits unchanged in the buffer. |
| `MuxRuns.RunKeeps` | mux_src/main.c:262-373 | Every run from the start, whatever comes in, is in order in this sense. |
| `MuxRuns.Drained` | mux_src/main.c:264-271 | Whatever comes in meanwhile, the next turns send exactly the rest of the response in order with nothing in between, and the buffer does not change until all of it is sent. |
| `MuxRuns.EndToEnd` | mux_src/main.c:326-336 | In every run from the start, packets sent on the RFS service amid other services' bytes and requests are rebuilt byte for byte and executed in order, each exactly when its last byte has been decoded; the loop stops exactly at a harmful request. |
| `MuxRuns.RoomForPackets` | rfs_server_src/rfs_transports.c:24-24 | In every run from the start, packets that each fit in the transport's buffer never exceed it. |
| `MuxRuns.RoomFromHeader` | rfs_server_src/rfs_transports.c:234-264 | Whatever comes next has room in the buffer if the size field of the request in it fits. |
| `MuxRuns.DeafRun` | rfs_server_src/rfs_transports.c:226-251 | After a malformed size field no request is executed any more, whatever else comes in. |
| `MuxTraffic.TurnFlows` | mux_src/main.c:262-373 | Every turn takes in one input or sends the next byte of a response: what was received is what was taken in, what was decoded for others is at the ports, what was sent interleaves port characters and response bytes and is on the line. |
| `MuxTraffic.Traffic` | mux_src/main.c:262-373 | In every run from the start: the bytes of the line that were taken in are what was decoded; each character for another service, and none for the RFS server, is at the ports, in order; what was sent interleaves the characters of the ports that were taken in with the response bytes; the line carries what the end of the link emits for these events, and unless a service ID was asked for, that is the encoding of what was sent; each request got as many bytes of the server's buffer as the size field in it says. |
| `MuxTraffic.ResponseFills` | rfs_server_src/rfs_transports.c:275-291 | A response is as many bytes of the buffer as its size field says, or nothing if that is malformed. |
| `Rpc.PacketSize` | src/eluarpc.c:150-161 | A packet below 65536 bytes carries its own length in its first four bytes. |
| `Rpc.LowByteFirst` | src/eluarpc.c:28-44 | Numbers of 16 and 32 bits travel with their low byte first. |
| `Rpc.TwosComplement` | src/eluarpc.c:254-256 | Signed numbers travel as the unsigned ones equal to them modulo 2^32, and come back. |
| `Rpc.TagBits` | src/eluarpc.c:238-240 | A response tag has bit 7 set and the other bits of the operation ID, so tags are the same exactly if the IDs agree in these bits. |
| `RpcCode.WriteArg` | src/eluarpc.c:228-270 | Each format character writes the printed form of its argument at the position and nothing else. |
| `RpcCode.EndPacket` | src/eluarpc.c:150-161 | The end mark goes behind the arguments and the length into the first four bytes. |
| `RpcCode.GenWrite` | src/eluarpc.c:220-272 | eluarpc_gen_write puts the printed packet at the start of the buffer and changes nothing behind it. |
| `RpcParser.ArgPrinted` | src/eluarpc.c:297-355 | The type marks of one argument are right exactly if memory holds the printed form of what is read there. |
| `RpcParser.ParsedIsPrinted` | src/eluarpc.c:284-358 | The parser's conditions hold exactly if printing what it reads gives the bytes from offset 4 to the end mark. |
| `RpcParser.RoundTrip` | src/eluarpc.c:220-358 | Parsing a printed packet with its own formats succeeds and gives the arguments back. |
| `RpcReader.Reader.ReadArg` | src/eluarpc.c:297-355 | Each format character reads its value, moves past its printed form and raises the error flag exactly if a mark is wrong. |
| `RpcReader.Reader.GenRead` | src/eluarpc.c:284-358 | eluarpc_gen_read succeeds exactly if all marks are right, and stores the values either way. |
| `RpcReader.Reader.GetPacketSize` | src/eluarpc.c:202-208 | eluarpc_get_packet_size gives the length and checks its two marks. |
| `RpcReader.ReadBack` | src/eluarpc.c:297-355 | What is stored after reading a printed packet stands for the arguments; an empty block comes back as a null pointer. |
| `Crc.FeedLinear` | src/xmodem.c:108-119 | The remainder is linear over bitwise differences. |
| `Crc.ZerosInvertible` | src/xmodem.c:113-116 | Shifting never turns a non-zero remainder into zero. |
| `Crc.LowStep` | src/xmodem.c:111-118 | The low half of the 32-bit accumulator takes exactly the steps of the 16-bit polynomial remainder. |
| `Crc.AcceptedIff` | src/xmodem.c:108-124 | A payload with its two check bytes is accepted exactly if together they leave no remainder. |
| `Crc.BurstDetected` | src/xmodem.c:108-124 | Changing an accepted payload and check by any non-zero pattern within sixteen consecutive bits gets it refused. |
| `Crc.SeventeenBitsMissed` | src/xmodem.c:115-116 | Sixteen is the limit: the generator polynomial itself is a pattern of seventeen bits that leaves no remainder. |
| `XmodemRecords.SessionBounds` | src/xmodem.c:136-210 | In every session, the length returned is that of the stored bytes, no accepted block took more than twenty attempts, counted one by one since the block before, and the receiver gives up only when exactly twenty attempts since the last block have failed. |
| `XmodemRecords.Invitations` | src/xmodem.c:146-152 | In every session the receiver sends 'C' before each attempt up to the one in which a record, an end or a cancel begins, or before every attempt if none does, and never after that. |
| `XmodemRecords.NobodyThere` | src/xmodem.c:146-210 | If nothing comes, it sends one 'C' for each attempt and then three cancels. |
| `XmodemRecords.Uninvited` | src/xmodem.c:148-149 | Once something has come, no further 'C' is sent. |
| `XmodemRecords.AckPerBlock` | src/xmodem.c:154-210 | In every session one ACK goes out for each block that is stored and one for an end or a cancel, and three cancels exactly if the receiver gives up for lack of attempts or memory. |
| `XmodemRecords.LeastRoom` | src/xmodem.c:188-198 | The destination is the least multiple of 4096 bytes that holds what is stored, and a record is turned down exactly if that does not fit in memory. |
| `XmodemRecords.FlushSkips` | src/xmodem.c:69-71 | Flushing drops whatever comes before the line is quiet. |
| `XmodemRecords.WholeRecord` | src/xmodem.c:181-204 | A record that arrives whole is stored and acknowledged exactly if it carries the expected number and a matching check, and refused with NAK otherwise. |
| `XmodemRecords.RefusedRecord` | src/xmodem.c:92-129 | Any other characters of the length of a record are refused with NAK: a wrong number, a complement that does not match, or a wrong check. |
| `XmodemRecords.CutRecord` | src/xmodem.c:87-91 | A record that is cut short is refused with NAK after two waits in vain. |
| `XmodemRecords.DamagedRecord` | src/xmodem.c:108-129 | A record damaged by a burst of at most sixteen bits is refused. |
| `Xmodem.Receiver.ReadChars` | src/xmodem.c:87-101 | The characters of a record are read with one further wait each, until one does not come. |
| `Xmodem.Receiver.PayloadChecksum` | src/xmodem.c:108-120 | The two loops compute the polynomial remainder of the payload. |
| `Xmodem.Receiver.GetRecord` | src/xmodem.c:82-131 | A record is accepted exactly if all of it came, its number and complement match and its check is right; otherwise a NAK goes out. |
| `Xmodem.Receiver.Consume` | src/xmodem.c:188-203 | The destination grows by one increment when needed, which is always enough, and the payload is stored behind what is there. |
| `Xmodem.Receiver.Receive` | src/xmodem.c:136-210 | xmodem_receive returns, sends and stores exactly what the session function says for its input, inside the destination. |
| `XmodemArrivals.NumbersDiffer` | src/xmodem.c:186-186 | Two block numbers of eight bits are equal exactly if the blocks are the same, for blocks fewer than 256 apart. |
| `XmodemArrivals.SessionTakes` | src/xmodem.c:136-210 | On whole, damaged, cut and missing records in any order, the receiver stores blocks that carry the expected number when they arrive, and no others. Damaged is any record whose number does not match its complement or whose check does not match its payload. |
| `XmodemArrivals.UnbrokenTaken` | src/xmodem.c:92-124 | No other damage can be told: with matching complement and check there is a number for which the record is taken. |
| `XmodemLink.MoveKeeps` | src/xmodem.c:145-205 | Every move of sender, line and receiver keeps the blocks stored so far a prefix of the sender's and the records under way in order. |
| `XmodemLink.StoredInOrder` | src/xmodem.c:136-210 | Against a stop-and-wait sender over a line that loses, repeats, damages and cuts records and loses and repeats acknowledgements, fewer than 256 repeats of the latter, the stored bytes are a part from the front of the sender's blocks, each once, although block numbers wrap. |
| `XmodemLink.WrongAfter256` | src/xmodem.c:186-186 | With 256 repeated acknowledgements the sender can be ahead by a full round of block numbers, and the receiver stores block 257 behind block 0. |
| `XmodemLink.InOrderIff` | src/xmodem.c:181-186 | What is stored is a front part of the sender's blocks in all runs with at most n repeated acknowledgements exactly if n is below 256. |
| `XmodemLink.LostAckIsFinal` | src/xmodem.c:181-183 | Once the acknowledgement of a stored block is lost, the receiver refuses the repeated block for ever, so no further block is stored. |
| `XmodemLink.AnotherBlockIff` | src/xmodem.c:181-183 | From any state of the link in order, a further block can be stored exactly if the next block is under way, or the sender is at it or gets to it with the acknowledgements under way. |
| `IntSteps.AddKeeps` | src/elua_int.c:61-88 | An interrupt is accepted exactly while fewer wait than there are slots, so all slots are usable, and it is queued behind those that wait. |
| `IntSteps.HookKeeps` | src/elua_int.c:27-57 | Every single step of the hook keeps the ring and the hook in order: it never runs on an empty queue, takes the oldest interrupt, and is clear only when nothing waits. |
| `IntSteps.TakenInOrder` | src/elua_int.c:27-88 | In every interleaving of adds with the single steps of the hook, interrupts are taken in the order of acceptance, each once, and a non-empty queue has the hook set. |
| `IntSteps.CalledIff` | src/elua_int.c:27-57 | In every interleaving the handler is called, in the order of acceptance, for exactly those interrupts that are enabled at the fourth step of the round that takes them; if all always are, for every one taken except one not yet looked at. |
| `IntSteps.Drains` | src/elua_int.c:53-56 | Left alone, the hook takes everything that was accepted and clears itself. |
| `IntQueue.Ints.AddInt` | src/elua_int.c:61-88 | elua_int_add accepts exactly valid, enabled interrupts while Lua runs and there is room, and then does what the step function says. |
| `IntQueue.Ints.HookEmpty` | src/elua_int.c:33-34 | The step that marks the slot empty takes the copied interrupt out of the queue. |
| `IntQueue.Ints.HookMove` | src/elua_int.c:35-35 | The masked increment of the read index moves to the next slot of the ring. |
| `IntQueue.Ints.HookFinish` | src/elua_int.c:53-56 | With interrupts disabled, the hook stays set exactly if something waits. |
| `IntQueue.Ints.Enable` | src/elua_int.c:91-95 | Enabling an interrupt changes the state of that one and of no other, and does nothing for an ID out of range. |
| `IntQueue.Ints.Disable` | src/elua_int.c:98-102 | Disabling likewise. |
| `IntQueue.Ints.IsEnabled` | src/elua_int.c:105-110 | The flag test tells whether the interrupt is enabled. |

## Left out

- dlmalloc: locks, mspaces, mmap and mremap, trimming, footers, statistics, bulk free and memalign are compiled out or thin layers over what is modelled.
- dlmalloc: `least_addr`, `footprint`, `magic` and the other bookkeeping that only RTCHECK, statistics or trimming read.
- dlmalloc: the words of a segment record in memory; the list of records is the sequence `segs`, and the chunks that hold them are the pinned ones.
- Malloc.MallocState.SysAlloc: does not cover RAM layouts on which the rest of a block that was too small comes from yet another region; what the code then uses is not memory it was given, as said above.
- dlmalloc: one memory. Heads, footers, links and payload bytes are maps of their own; `Malloc.PayloadsApart` says that they are at different places in every valid heap, so that the writes to one of them spare the others.
- salloc: `scalloc`, which is smalloc and memset; sizes that wrap at the top of the range.
- The read-only ROM file system format, which shares the scan but has neither tombstones nor alignment, and `romfs_getaddr_r`.
- Wofs.Fs.Open: does not cover opens while a file is open for writing, nor creating opens with read-only access: the size word is still erased then and the scan runs over it.
- WofsFormat.Formatter.Format: does not say anything about descriptors that are open while the file system is formatted.
- FlashWriter.Flash.ProgramUnits: does not model the wear or the failure of flash cells; a write always succeeds.
- eluarpc: pointer arguments that are NULL with a length other than 0, for which the printer leaves the bytes as they were; `eluarpc_get_request_id` and `eluarpc_replace_flag`.
- rfs_server_src: the serial and UDP transports, and the request handlers behind `server_execute_request`.
- mux_src: argument parsing, the serial port drivers and logging; the ports are the sequence of characters that went to them.
- common_uart: UARTs that are not multiplexed, receive timeouts, and the receive buffer behind the decoder, for which a sequence stands.
- xmodem: the timer behind the input function, for which each call is a character or silence, and the 32-bit wrap of the destination size.
- XmodemLink.StoredInOrder: does not model lines that reorder records, damage the character in front of one or put characters between them.
- elua_int: the calls into the Lua interpreter in the hook, and `elua_int_cleanup`, which runs when the Lua state with its hook is closed.
