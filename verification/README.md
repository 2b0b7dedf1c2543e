# A verified model of BMC and its memcached

BMC answers memcached GETs inside the kernel, in front of memcached 1.5.19. This project models the parts of
both that are hard to get right and proves what they promise, for every input or over every interleaving of steps.

| files | what they are about |
|---|---|
| Crc32c, Crc32cPolynomial, Gf2, Crc32cHardware, Crc32cSoftware | One bit-serial definition of CRC-32C, proved to be the remainder by the Castagnoli polynomial, and the two fast forms proved equal to it. |
| Assoc, HashChains, AssocMemory | The hash table that grows while in use, as one finite map; its chains in memory. |
| Extstore, ExtstoreEngine, ExtstoreVersions, ExtstoreAccounts, ExtstoreBuckets, ExtstoreMemory | The external store: pages, write buffers, flushes, reads, eviction; when its 32-bit versions run out; what its counters count and why objects are missed; which page its writers fill; its headers and buffers in memory. |
| SlabMover, SlabMoverSafety, SlabRescue, SlabLosses, FreeLists, SlabMoverMemory | Emptying a slab page while the cache is in use, and which values that costs; the free lists in memory. |
| SlabMemory, SlabAllocator | The books of the slab allocator: pages, chunks, the memory limit. |
| LruList, LruLists, LruMemory, Crawler, CrawlerMemory | The doubly linked LRU lists and the crawler that swaps its way through them. |
| Items, ItemsSafety, ItemsPlace, ItemsMemory, ItemsRuns | Items between table, lists and owners; pulling at the tail. |
| BumpQueue, BumpRuns, BumpMemory | The queue of items to bump, between workers and the maintenance thread. |
| Bmc, BmcRuns, BmcMemory, BmcParse, BmcReply | The in-kernel cache: its slots over any run, and a GET from packet to packet. |
| BipBuffer, BipMemory | The two-region buffer as a queue. |
| Udp, UdpMemory, Chunks, Cas, Strtoull, Decimals, Itoa | Replies over UDP, chunked append, compare-and-swap and counting, numbers read and printed. |
| Numbers, Options, Sequences | Shared arithmetic, options and sequences. |

Concurrent code is a state machine: each section under a lock, and each disk transfer, is one step, and a run is any
order of steps of any threads. Item locks are those of the code: one for each value of the low bits of the hash.
Code that works in place is a class whose methods are proved to take the model's steps. The LRU lists, the free
lists and the hash chains are pointers in shared link fields; page headers, write buffers, packets, queues, iov lists
and tables are arrays. Items and chunks with their flags are values in maps, and a class's page list and an item's chain
of chunks are sequences. `dafny verify dfyconfig.toml` checks everything.

Some promises turn out to hold only under a condition. Each of these has an example where it fails and the exact
condition:

- A GET that BMC passes on is the packet that came in exactly if the walk over its keys does not strand and does not
  end one tail call short of an answer: the last word must begin at least 14 bytes before the end of the packet, with
  fewer than 30 keys saved before it, the kernel must allow a tail call for every word, and the call to
  bmc_prepare_packet must not be the last (`BmcReply.Get`, `BmcReply.ShortRequestIsLost`, `BmcReply.CrowdIsLost`). The
  bound on tail calls, 32 or 33 in Linux, is a parameter; a GET that is answered has saved fewer than half as many keys,
  so at most 16, not the 30 there is room for.
- A valid slot of BMC's cache stores a reply for a name with the slot's hash exactly as long as no reply that is cut
  short overwrites a valid slot of another hash (`BmcRuns.ValidSlotsMatch`, `BmcRuns.CutReplyDoesHarm`).
- The external store reads right at every moment of a run exactly if no page is handed a version that is in its own log
  (`ExtstoreEngine.RightIffFresh`). Versions are 32-bit, so that is so until the 2^32nd allocation
  (`ExtstoreVersions.FewAllocationsAreRight`), and not for ever (`ExtstoreVersions.WrappedVersionServesOthers`).
- A page of the external store is replaced only when it has given out all its space, as the code asserts, if no two
  writers share a bucket, which is how the storage threads use it; with two, the second can fail the assertion
  (`ExtstoreBuckets.PagesAreReplacedWhole`, `ExtstoreBuckets.SecondWriterFails`).
- A number stored by an increment reads back exactly if it is below 2^63 or no minus sign is found behind it, up to the
  next zero byte and beyond the item if need be (`Cas.DeltaReadsBack`).
- Datagrams of a UDP reply carry their number and their count exactly if there are fewer than 65536
  (`Udp.NumbersFit`, `Udp.NumbersRunOut`).
- A pull at a list's tail has given back every lock, or handed over the item, exactly if the search ended at no item,
  none was asked for, or it was pulled from COLD without evicting; the code's only caller that asks for an item does
  that (`ItemsMemory.Cache.PullTail`, `ItemsMemory.AskedForStaysLocked`, `ItemsMemory.LonerStaysLocked`).
- A bip buffer survives a poll exactly if the poll is refused or stays within region A
  (`BipBuffer.PollValid`, `BipBuffer.PollPastRegion`).
- mem_malloced is the size of the pages exactly if malloc has never failed (`SlabMemory.RunSound`,
  `SlabMemory.FailedMallocCounts`).
- A cas store that succeeds means that the value has not changed since its id was read as long as fewer than 2^64 ids
  have been given out since; this one is stated one way, with a run that breaks it (`Cas.CasMeansUnchanged`,
  `Cas.OvertakenStores`).

## Model

| member | source | states |
|---|---|---|
| `Crc32c.CrcChains` | memcached-sr/crc32c.c:85-114 | A checksum continued from an earlier one is the checksum of the two strings joined, for every starting value. |
| `Crc32c.CrcOfPieces` | memcached-sr/memcached.c:3922-3936 | The running checksum over any list of iovecs is the checksum of their concatenation, which is what was taken over the single buffer at write time (storage.c:84-86). |
| `Crc32c.RawAppend` | memcached-sr/crc32c.c:85-114 | The register after a joined string is the register after its parts in turn. |
| `Crc32c.BitsLinear` | memcached-sr/crc32c.c:174-186 | Shifting zero bits through the register is linear over GF(2). |
| `Crc32c.RawXor` | memcached-sr/crc32c.c:257-261 | A difference in the register before a string comes out as that difference shifted past the whole string. |
| `Crc32c.RawZeroBytes` | memcached-sr/crc32c.c:198-203 | Feeding n zero bytes is shifting the register by 8n bits. |
| `Crc32cPolynomial.PolyTerms` | memcached-sr/crc32c.c:49-50 | The constant is the Castagnoli polynomial of section 12.1 of RFC 3720 without its highest term, lowest bit first. |
| `Crc32cPolynomial.StepShifts` | memcached-sr/crc32c.c:63-70 | A step of the register multiplies its polynomial by x, up to a multiple of that polynomial. |
| `Crc32cPolynomial.RemainderIsUnique` | memcached-sr/crc32c.c:49-50 | Division by it leaves one remainder. |
| `Crc32cPolynomial.RawIsRemainder` | memcached-sr/crc32c.c:85-114 | For every start and every string, the register is the remainder of the start ahead of the message and the message ahead of 32 zeros, and nothing else is. |
| `Crc32cPolynomial.CrcIsRemainder` | memcached-sr/crc32c.c:85-114 | A value is the checksum of a string exactly if, start and result complemented, it is that remainder. |
| `Gf2.TimesLinear` | memcached-sr/crc32c.c:174-186 | A matrix acts linearly on registers. |
| `Gf2.SquareComposes` | memcached-sr/crc32c.c:190-196 | The squared matrix acts as the matrix applied twice. |
| `Gf2.OneBitShifts` | memcached-sr/crc32c.c:209-215 | The first operator, the polynomial and the powers of two, shifts one zero bit through any register. |
| `Gf2.ZerosMatrixFeedsZeroBytes` | memcached-sr/crc32c.c:203-238 | For every k the operator squared 3 + k times takes any register to the one after 2^k zero bytes. |
| `Gf2.MatrixTimes` | memcached-sr/crc32c.c:174-186 | The loop over the bits of the vector computes the matrix product. |
| `Gf2.MatrixSquare` | memcached-sr/crc32c.c:190-196 | In place, every row is the matrix applied to that row: the square. |
| `Gf2.SquareDown` | memcached-sr/crc32c.c:217-238 | The alternating squarings of the two arrays leave the last square in the right one, for every length. |
| `Gf2.ZerosOp` | memcached-sr/crc32c.c:203-238 | The array holds the operator for the largest power of two not above the length; with ZerosMatrixFeedsZeroBytes, for the length itself when it is a power of two. |
| `Crc32cHardware.Zeros` | memcached-sr/crc32c.c:242-254 | Every entry of the four tables is the register of its byte in its lane after the zero bytes. |
| `Crc32cHardware.ShiftIsZeroBytes` | memcached-sr/crc32c.c:257-261 | Four lookups shift any register past the block the tables were built for. |
| `Crc32cHardware.JoinStreams` | memcached-sr/crc32c.c:324-325 | Shifting the register of one stream past the next stream and adding the register of that one gives the register over both. |
| `Crc32cHardware.Streams` | memcached-sr/crc32c.c:316-323 | The three interleaved registers each hold their own block. |
| `Crc32cHardware.ThreeBlocks` | memcached-sr/crc32c.c:312-328 | A turn of a block loop gives the register over all three blocks. |
| `Crc32cHardware.Blocks` | memcached-sr/crc32c.c:312-348 | A block loop advances the register over all whole triples, and fewer than three blocks are left. |
| `Crc32cHardware.Body` | memcached-sr/crc32c.c:295-371 | Head bytes, LONG triples, SHORT triples, words and tail bytes together give the register over the buffer, for every alignment. |
| `Crc32cHardware.Compute` | memcached-sr/crc32c.c:279-372 | The three-stream form, tables included, returns the bit-serial CRC-32C of section 12.1 of RFC 3720, which CrcIsRemainder says is the remainder by the Castagnoli polynomial, for every buffer, alignment and starting value. |
| `Crc32cSoftware.LookupStep` | memcached-sr/crc32c.c:109-112 | Eight zero bits are one lookup of the low byte and a shift of the rest. |
| `Crc32cSoftware.RawIsTerms` | memcached-sr/crc32c.c:96-108 | Any string through any register is the sum of independent table terms of its bytes, with the bytes of the register folded into the first of them. |
| `Crc32cSoftware.SlicedStep` | memcached-sr/crc32c.c:96-108 | The eight lookups of a loaded word are the bit-serial register after its eight bytes. |
| `Crc32cSoftware.InitTables` | memcached-sr/crc32c.c:57-80 | Row k of the tables holds every byte shifted past k + 1 bytes. |
| `Crc32cSoftware.SliceByEight` | memcached-sr/crc32c.c:96-108 | The 64-bit arithmetic of a turn of the middle loop yields the register after eight bytes. |
| `Crc32cSoftware.Compute` | memcached-sr/crc32c.c:57-114 | The sliced form, tables included, returns the same bit-serial CRC-32C for every buffer, alignment and starting value, so it agrees with the hardware form everywhere. |
| `Assoc.FindRefines` | memcached-sr/assoc.c:74-98 | Lookup is map lookup, whichever of the two tables holds the key. |
| `Assoc.InsertRefines` | memcached-sr/assoc.c:155-172 | Inserting an absent key is a map update and keeps the table valid. |
| `Assoc.DeleteRefines` | memcached-sr/assoc.c:174-191 | Deleting a present key is a map removal and keeps the table valid. |
| `Assoc.ExpandRefines` | memcached-sr/assoc.c:122-141 | Starting to grow, or failing to allocate, changes no binding. |
| `Assoc.ChainMembers` | memcached-sr/assoc.c:74-98 | An item is on a chain only if its own hash selects that chain. |
| `Assoc.PushAt` | memcached-sr/assoc.c:216-221 | What migrating a chain does to each new bucket: the items that belong there, in reverse order, in front of what it held. |
| `Assoc.MigrateWrites` | memcached-sr/assoc.c:216-223 | Migrating old bucket b writes only new buckets b and b + 2^(hashpower-1). |
| `Assoc.MigrateValid` | memcached-sr/assoc.c:215-235 | Migration keeps every item in the bucket its hash selects, keys distinct, and the buckets ahead of the cursor empty. |
| `Assoc.MigrateBucket` | memcached-sr/assoc.c:215-235 | A migration step is invisible to every key. |
| `Assoc.MigrateRefines` | memcached-sr/assoc.c:215-235 | A migration step keeps the table valid and the map it stands for. |
| `Assoc.MigrateCommutes` | memcached-sr/assoc.c:211-223 | Reading or replacing a bucket under another item lock commutes with the migration step. |
| `Assoc.OperationsCommute` | memcached-sr/assoc.c:211-223 | So find, insert and delete under other item locks give the same results and the same table before and after it. |
| `Assoc.ExpansionEnds` | memcached-sr/assoc.c:225-235 | Whatever else happens to the table meanwhile, growing is over exactly at the 2^(hashpower-1)th turn of the maintenance thread that got its item lock. |
| `Assoc.RunRefinesMap` | memcached-sr/assoc.c:74-235 | Over any mix of inserts, deletes, lookups, expansions and migration steps, every lookup answers as one finite map does. |
| `Assoc.TableIsMap` | memcached-sr/assoc.c:59-235 | So a table that starts out empty is a finite map. |
| `HashChains.CutChained` | memcached-sr/assoc.c:174-191 | Unhooking the item at any place, by the pointer to it and its own h_next, leaves the others chained in order. |
| `HashChains.OneChanges` | memcached-sr/assoc.c:155-191 | A change to one chain leaves the others chained, though all share the h_next fields. |
| `HashChains.MoveOne` | memcached-sr/assoc.c:216-221 | The head of one chain becomes the head of another, and both and all others are chained. |
| `AssocMemory.HashTable.constructor` | memcached-sr/assoc.c:59-72 | An empty table of the size asked for. |
| `AssocMemory.HashTable.Find` | memcached-sr/assoc.c:74-98 | Following the pointers finds what the two-table model finds. |
| `AssocMemory.HashTable.HashItemBefore` | memcached-sr/assoc.c:103-119 | The first item with the key, and the item whose h_next points to it, or the bucket. |
| `AssocMemory.HashTable.Insert` | memcached-sr/assoc.c:155-172 | The pointer writes amount to the model's insertion, and every chain is linked. |
| `AssocMemory.HashTable.Delete` | memcached-sr/assoc.c:174-191 | The pointer writes unhook the item and nothing else. |
| `AssocMemory.HashTable.Expand` | memcached-sr/assoc.c:122-141 | Both arrays are exchanged, or nothing changes. |
| `AssocMemory.HashTable.MoveItem` | memcached-sr/assoc.c:216-221 | One item is hung from the old bucket to its new one, pointer by pointer. |
| `AssocMemory.HashTable.MigrateBucket` | memcached-sr/assoc.c:215-235 | The loop moves one old bucket item by item and ends as the model's migration step; with the lock taken it does nothing. |
| `Extstore.VersionsRepeat` | memcached-sr/extstore.c:149-151 | Two allocations get the same version exactly when a multiple of 2^32 apart, and the reserved version 0 comes up exactly at those multiples. |
| `Extstore.ReadBeginsRight` | memcached-sr/extstore.c:755-773 | Asking for an object where it was put meets the assertions of the buffer read. It is a miss exactly if the page is free, closed or of another version; else the bytes are the object's, or it is on disk where the transfer will look. |
| `Extstore.DiskReadIsRight` | memcached-sr/extstore.c:776-790 | Nor does the disk transfer, at any moment while the read is in flight. |
| `Extstore.LandedOk` | memcached-sr/extstore.c:448-474 | The flush callback keeps the page in order: what was whole in the buffer is whole on disk. |
| `Extstore.FlushedOk` | memcached-sr/extstore.c:793-797 | Writing the buffer to disk changes nothing below the written mark. |
| `Extstore.AppendedOk` | memcached-sr/extstore.c:567-585 | A new object is whole in the buffer and the older ones stay whole. |
| `Extstore.FreedOk` | memcached-sr/extstore.c:824-870 | A page without readers can be freed and no object of its old version can be taken for a new one. |
| `Extstore.ReusedVersionFails` | memcached-sr/extstore.c:397-403 | A page that is handed a version one of its objects has fails that object's reader at once. |
| `ExtstoreEngine.EnabledIsSafe` | memcached-sr/extstore.c:448-474 | In every state of a run the assertions of the callback and of the buffer read hold, buffers do not overrun, and a read that ends had a reference. |
| `ExtstoreEngine.RequestAvailable` | memcached-sr/extstore.c:479-500 | The request object that submitting a buffer pops, unchecked, is always there. |
| `ExtstoreEngine.WriteKeeps` | memcached-sr/extstore.c:511-585 | A write request with its write, successful or not, keeps the engine's invariant: buffers and request objects conserved and never shared, pages in order. |
| `ExtstoreEngine.AllocateKeeps` | memcached-sr/extstore.c:383-417 | So does taking a page off a free list. |
| `ExtstoreEngine.FlushDoneKeeps` | memcached-sr/extstore.c:448-474 | So does the flush callback. |
| `ExtstoreEngine.VisitKeeps` | memcached-sr/extstore.c:907-938 | So does the maintenance pass at one page, freeing or not. |
| `ExtstoreEngine.EvictKeeps` | memcached-sr/extstore.c:940-955 | So does the eviction at its end, and the page evicted is still the one that was chosen. |
| `ExtstoreEngine.StepKeeps` | memcached-sr/extstore.c:383-955 | Every step of every thread keeps the invariant, unless it hands a page a version that is in the page's own log. |
| `ExtstoreEngine.RunKeeps` | memcached-sr/extstore.c:383-955 | So does every interleaving of steps in which no page is handed such a version. |
| `ExtstoreEngine.RightIffFresh` | memcached-sr/extstore.c:383-955 | The exact condition: in a run, at every moment every read of a reported location is in order, misses exactly if the page is free, closed or of another version, and is right otherwise, exactly if no allocation of the run hands a page a version that is in its log. |
| `ExtstoreEngine.AllocateTakes` | memcached-sr/extstore.c:383-417 | An allocation opens the first page of the list asked for, or else of the default list, under the next version, and no other. |
| `ExtstoreEngine.WriteSucceeds` | memcached-sr/extstore.c:511-564 | A write succeeds exactly if its page is filling, its buffer is not full, and the object fits that buffer or one that is to be had. |
| `ExtstoreEngine.WriteRecords` | memcached-sr/extstore.c:567-585 | A successful write records its bytes under the location it reports. |
| `ExtstoreEngine.ReadYieldsWrittenOrMiss` | memcached-sr/extstore.c:755-815 | The engine's promise for such runs: a read of a reported location, after any interleaving of flushes, deletes, closes, evictions and page reuse, is a miss exactly if the page is free, closed or of another version, which just after the write it was not but for being closed, and yields exactly the bytes written otherwise. |
| `ExtstoreEngine.InitOk` | memcached-sr/extstore.c:312-325 | The engine as initialised meets the invariant, for every configuration. |
| `ExtstoreVersions.FewAllocationsAreFresh` | memcached-sr/extstore.c:149-151 | With fewer than 2^32 allocations from the start no page is handed a version of its own. |
| `ExtstoreVersions.FewAllocationsAreRight` | memcached-sr/extstore.c:149-151 | So until the 2^32nd allocation every read is right, in every run of every configuration. |
| `ExtstoreVersions.WrappedVersionServesOthers` | memcached-sr/extstore.c:149-151 | For pages and buffers of any size, a run of 2^32 rounds from the start, step by step, after which a reader of the first object is given another one's bytes. |
| `ExtstoreAccounts.DeedBalanced` | memcached-sr/extstore.c:567-660 | Every step keeps a page's counters equal to the number and the length of its objects that have not been deleted, if owners delete their objects once. |
| `ExtstoreAccounts.RunBalanced` | memcached-sr/extstore.c:567-660 | So does every run. |
| `ExtstoreAccounts.FreedIff` | memcached-sr/extstore.c:907-938 | The pass frees a page exactly if nobody fills or reads it and it is closed or all its objects have been deleted. |
| `ExtstoreAccounts.OpeningBalanced` | memcached-sr/extstore.c:312-325 | A new store's counters are right. |
| `ExtstoreAccounts.WrittenIsHeld` | memcached-sr/extstore.c:567-585 | A page that is not closed holds what has just been written to it. |
| `ExtstoreAccounts.StepSpares` | memcached-sr/extstore.c:383-955 | A close and an eviction take from a page what it holds, and nothing else does. |
| `ExtstoreAccounts.MissHasCause` | memcached-sr/extstore.c:755-773 | Over every run, an object its owner has not deleted is missed only if its page has been closed, or evicted as the oldest seen when no page was free. |
| `ExtstoreBuckets.SpentIsWhole` | memcached-sr/extstore.c:532-533 | A page in use that takes no more data has given out all its space. |
| `ExtstoreBuckets.KeptOk` | memcached-sr/extstore.c:834-848 | A bucket without its freed pages still has, behind its first page, only pages that have given out all their space. |
| `ExtstoreBuckets.StepHolds` | memcached-sr/extstore.c:383-564 | Every step of a writer or of anybody else keeps the buckets in order and meets the assertion of _allocate_page, if no two writers are at one bucket. |
| `ExtstoreBuckets.PagesAreReplacedWhole` | memcached-sr/extstore.c:383-564 | So over every run from the start of every configuration, maintenance freeing pages between a writer's look at one and its replacement included. |
| `ExtstoreBuckets.SecondWriterFails` | memcached-sr/extstore.c:517-538 | In every state where a bucket's first page is spent and another is to be had, two writers who both look it up and try it get to where the second fails that assertion. |
| `ExtstoreMemory.SweepMore` | memcached-sr/extstore.c:907-938 | One page more of a pass keeps exactly what has been collected and which page is the oldest seen. |
| `ExtstoreMemory.Store.constructor` | memcached-sr/extstore.c:312-352 | The headers, buffers and lists as initialised. |
| `ExtstoreMemory.Store.SubmitWbuf` | memcached-sr/extstore.c:479-500 | The memset loop zeroes the tail of the page's buffer and of no other page's; the flush is queued and a request object taken. |
| `ExtstoreMemory.Store.AllocateWbuf` | memcached-sr/extstore.c:420-440 | A spare buffer, contents and all, is placed at the page's allocation mark, or nothing changes. |
| `ExtstoreMemory.Store.WriteRequest` | memcached-sr/extstore.c:511-562 | The branches of the request amount to the model's, it succeeds exactly if the page then has room, and the engine's invariant holds. |
| `ExtstoreMemory.Store.Write` | memcached-sr/extstore.c:567-585 | The bytes go behind those in the buffer, no other page changes, and the location reported is where they are. |
| `ExtstoreMemory.Store.WriteObject` | memcached-sr/extstore.c:511-585 | Both together are the model's write, and the object is recorded at the place reported. |
| `ExtstoreMemory.Store.CopyOut` | memcached-sr/extstore.c:693-713 | The loop over the destinations fills them, put together, with the stretch of the buffer asked for. |
| `ExtstoreMemory.Store.ReadBegin` | memcached-sr/extstore.c:755-773 | For an object once written: a miss exactly if the page is free, closed or of another version; else destinations that put together hold the object, or a reference for a transfer that will find it. |
| `ExtstoreMemory.Store.MaintPass` | memcached-sr/extstore.c:891-955 | A pass nothing interrupts frees every page that can be freed; if there was none and the default list is empty, the page with the lowest version is closed, and freed unless it is being read; nothing else changes, and the engine's invariant holds. |
| `SlabMoverSafety.FreeKeeps` | memcached-sr/slabs.c:438-509 | Freeing an item, chained parts included, keeps free lists, table, chains and the mover's knowledge consistent. |
| `SlabMoverSafety.UnlinkKeeps` | memcached-sr/items.c:506-519 | Unlinking keeps them too, freeing the item if nobody else holds it. |
| `SlabMoverSafety.TakeSpareKeeps` | memcached-sr/slabs.c:775-804 | So does the mover's allocation. |
| `SlabMoverSafety.TakeSpareIs` | memcached-sr/slabs.c:775-804 | It returns a chunk that was free and is outside the page, or none, and touches free chunks only. |
| `SlabMoverSafety.VisitKeeps` | memcached-sr/slabs.c:855-978 | A look at a chunk in any state keeps the invariant. |
| `SlabMoverSafety.EndRescueKeeps` | memcached-sr/slabs.c:979-1032 | So does moving an item or a chained part, or giving the item up. |
| `SlabMoverSafety.RescueKeepsValues` | memcached-sr/slabs.c:979-1020 | Moving an item, or one part of a chunked one, changes no value under any key. |
| `SlabMoverSafety.VisitKeepsValues` | memcached-sr/slabs.c:855-978 | A look changes no value either, except that an item still referenced after more than 1000 rounds loses its key. |
| `SlabMoverSafety.DropKeepsOthers` | memcached-sr/slabs.c:1021-1030 | An item given up loses its own key and no other value changes. |
| `SlabMoverSafety.DonePageIsEmpty` | memcached-sr/slabs.c:1092-1104 | When the page is declared done none of its chunks is allocated, linked, chained or on a free list. |
| `SlabMoverSafety.FinishKeeps` | memcached-sr/slabs.c:1077-1127 | The page can then leave its class with everything else intact. |
| `SlabMoverSafety.StepKeeps` | memcached-sr/slabs.c:719-1127 | Every step of the mover and of the workers keeps the invariant. |
| `SlabMoverSafety.MovedPageIsEmpty` | memcached-sr/slabs.c:1092-1104 | In every interleaving from an empty allocator the page is empty when done is set. |
| `SlabMoverSafety.RescuedItemsKeepTheirValues` | memcached-sr/slabs.c:979-1020 | In every reachable state the step that ends a rescue leaves every key with the value it had. |
| `SlabLosses.SpareFound` | memcached-sr/slabs.c:775-804 | With as many tries as the page has chunks, a spare is found exactly if the free list holds a chunk outside the page. |
| `SlabLosses.SavedIff` | memcached-sr/slabs.c:880-972 | A turn begins a rescue exactly if it looks at a linked, unlocked item in nobody's use, or a part of one, and has a spare for it exactly if it has not expired and its class has a free chunk outside the page. |
| `SlabLosses.EndLoses` | memcached-sr/slabs.c:973-1023 | The end of a rescue takes a value away exactly if there is no spare, and then that of its own key. |
| `SlabLosses.LookLoses` | memcached-sr/slabs.c:889-933 | A look takes a value away exactly if it is that of a linked, unlocked item in use after more than 1000 rounds. |
| `SlabLosses.TurnClears` | memcached-sr/slabs.c:860-1040 | A free chunk is taken off its list and stays clear; one that is neither free nor clear nor being rescued makes the mover come back. |
| `SlabLosses.SavedClears` | memcached-sr/slabs.c:979-1020 | A chunk whose item or part has been saved is clear, and the mover moves on. |
| `SlabLosses.WorkersChange` | memcached-sr/slabs.c:394-560 | Among the workers' steps only linking an item sets, and only unlinking it takes away, what is found under its key. |
| `SlabLosses.LossHasReason` | memcached-sr/slabs.c:860-1060 | In every run from an empty allocator the mover changes what is found under a key only if its item was in use too long, or if, when the rescue that ends began, the item had expired or its class had no free chunk outside the page. |
| `SlabRescue.StepLeaves` | memcached-sr/slabs.c:855-1033 | While the mover holds an item lock and not the slabs lock, nothing a worker may do touches the item, its chain or its table entry. |
| `SlabRescue.RescueKeepsValue` | memcached-sr/slabs.c:855-1033 | From the look that begins a rescue to the step that ends it, with any run of the workers in between, the locked key has the same value before, meanwhile and after. |
| `FreeLists.Slots.Push` | memcached-sr/slabs.c:497-505 | The chunk becomes the head of its free list, linked both ways; the other lists, which share the link fields, stay linked. |
| `FreeLists.Slots.Pop` | memcached-sr/slabs.c:415-423 | The head comes off and the rest is linked. |
| `FreeLists.Slots.CutFree` | memcached-sr/slabs.c:808-818 | A chunk anywhere on its list is cut out and the rest is linked. |
| `SlabMoverMemory.Slabs.FreeChunked` | memcached-sr/slabs.c:438-481 | The loop returns the head and every chained chunk to the free list of its own class, link by link. |
| `SlabMoverMemory.Slabs.RebalanceAlloc` | memcached-sr/slabs.c:775-804 | The loop is the model's allocation: chunks of the page that come up are cleared, the first other one is the spare. |
| `SlabMoverMemory.Slabs.AssessLinked` | memcached-sr/slabs.c:887-934 | A linked item keeps its count unless it is to be moved or has been busy too long. |
| `SlabMoverMemory.Slabs.Assess` | memcached-sr/slabs.c:873-934 | The flags and the reference count decide the status; a free chunk is cut out of its list. |
| `SlabMoverMemory.Slabs.Look` | memcached-sr/slabs.c:855-978 | A turn up to the release of the slabs lock is the model's visit; it begins a rescue exactly if the item is at rest, with a spare exactly if it has not expired and its class has a free chunk outside the page. |
| `SlabMoverMemory.Slabs.RepointChunks` | memcached-sr/slabs.c:992-999 | Every chunk of the chain gets the new head. |
| `SlabMoverMemory.Slabs.MoveItem` | memcached-sr/slabs.c:980-1005 | The copy takes over key, value, chain and table entry, and the old chunk is clear. |
| `SlabMoverMemory.Slabs.MovePart` | memcached-sr/slabs.c:1006-1020 | One part changes places with the spare chunk in its chain. |
| `SlabMoverMemory.Slabs.EndRescue` | memcached-sr/slabs.c:979-1033 | The rest of the turn is the model's second half of a rescue. |
| `SlabMoverMemory.Slabs.Move` | memcached-sr/slabs.c:842-1075 | A bulk of turns nothing interrupts keeps the invariant and the links, and if it leaves the mover done the page is empty. |
| `SlabMemory.PartedCounts` | memcached-sr/slabs.c:341-436 | If every chunk of a class's pages is free, in use or cleared, and only one of them, their numbers add up to slabs × perslab. |
| `SlabMemory.NewSlabInPlace` | memcached-sr/slabs.c:361-391 | A new page, a page from the pool, the limit and a failed malloc leave every page in one place and every chunk in one heap. |
| `SlabMemory.NewSlabBalanced` | memcached-sr/slabs.c:361-391 | And memory accounted for, a failed request counting as a page. |
| `SlabMemory.ReleaseBalanced` | memcached-sr/slabs.c:627-640 | Returning pool pages keeps the account, and stops only within the limit or with the pool empty. |
| `SlabMemory.ReleaseIsNeeded` | memcached-sr/slabs.c:627-640 | And returns none that need not go: with one page more it would be over the limit. |
| `SlabMemory.LimitIsKept` | memcached-sr/slabs.c:361-391 | A class that has a page gets memory from malloc only within the limit; a page of the pool is always taken first. |
| `SlabMemory.FinishMoves` | memcached-sr/slabs.c:1077-1127 | A page move takes the source's first page to the end of the destination's list, split into free chunks, or to the pool. |
| `SlabMemory.FinishInPlace` | memcached-sr/slabs.c:1077-1127 | Handing a page all of whose chunks are clear to its destination or the pool leaves everything in place. |
| `SlabMemory.FinishBalanced` | memcached-sr/slabs.c:1077-1127 | And accounted for. |
| `SlabMemory.RunSound` | memcached-sr/slabs.c:341-640 | After any run under a fixed limit every chunk is free, in use or cleared and only one of them, slabs × perslab = free + allocated + cleared; mem_malloced is page size × pages exactly if malloc did not fail in the run, and then exceeds the limit by at most one page per class that owns one. |
| `SlabMemory.FailedMallocCounts` | memcached-sr/slabs.c:596-624 | A failed malloc is counted all the same: memory nobody has, over the limit with no page owned. |
| `SlabAllocator.FreeIsUnowned` | memcached-sr/slabs.c:394-436 | A chunk on a free list is in use in no class. |
| `SlabAllocator.Slabs.SplitPage` | memcached-sr/slabs.c:341-348 | All chunks of the page are on the free list, last first. |
| `SlabAllocator.Slabs.GetPage` | memcached-sr/slabs.c:351-359 | The last page of the pool, or none exactly if the pool is empty. |
| `SlabAllocator.Slabs.DoNewSlab` | memcached-sr/slabs.c:361-391 | The books as in the model, mem_malloced grown by a page exactly if malloc was asked; it succeeds exactly if the list has room, the limit allows it and a page is to be had. |
| `SlabAllocator.Slabs.DoAlloc` | memcached-sr/slabs.c:394-436 | The head of the free list, after a new page if it is empty and one is allowed, or nothing; what is handed out was in use nowhere. |
| `SlabAllocator.Slabs.MemoryRelease` | memcached-sr/slabs.c:627-640 | The loop is the model's release. |
| `SlabAllocator.Slabs.ShuffleOut` | memcached-sr/slabs.c:1110-1113 | The shuffle loop drops the first page of the list and no other. |
| `SlabAllocator.Slabs.RebalanceFinish` | memcached-sr/slabs.c:1077-1127 | The page goes to the other class, split up, or to the pool, as in the model. |
| `LruList.HeadLinkedOk` | memcached-sr/items.c:406-431 | Linking at the head is correct for the doubly linked list: both directions, head and tail. |
| `LruList.UnhookedOk` | memcached-sr/items.c:446-476 | Unlinking anywhere leaves the others linked in order. |
| `LruList.PoppedThenUnhooked` | memcached-sr/items.c:1754-1829 | Unlinking the crawler after do_item_crawl_q has popped it changes nothing more. |
| `LruList.SwungOk` | memcached-sr/items.c:1777-1829 | The crawler and the item before it change places and every other link is right. |
| `LruLists.OneChanges` | memcached-sr/items.c:406-476 | A change to one list leaves the others linked, though all share the link fields, because no item is on two. |
| `LruMemory.Lrus.LinkQ` | memcached-sr/items.c:406-431 | In place, the item is in front of its list and all lists are linked. |
| `LruMemory.Lrus.LinkTailQ` | memcached-sr/items.c:1733-1752 | The crawler becomes the tail. |
| `LruMemory.Lrus.UnlinkQ` | memcached-sr/items.c:446-476 | The item is cut out. |
| `LruMemory.Lrus.UnlinkTailQ` | memcached-sr/items.c:1754-1773 | The crawler is cut out, or nothing changes if it had been popped. |
| `LruMemory.Lrus.CrawlQ` | memcached-sr/items.c:1777-1829 | The crawler changes places with the item before it, which is returned; at the head it is popped and NULL returned. |
| `Crawler.TurnMoves` | memcached-sr/crawler.c:388-395 | A turn takes exactly one item from ahead of the crawler to behind it. |
| `Crawler.FullCrawlVisitsAll` | memcached-sr/crawler.c:365-438 | Every item that stays is looked at exactly once, tail to head, whatever is linked at the head or unlinked meanwhile; afterwards those items are in the order they started in. |
| `Crawler.CapHolds` | memcached-sr/crawler.c:522-555 | With remaining = n + 1 at most n items are looked at. |
| `CrawlerMemory.Crawling.Begin` | memcached-sr/crawler.c:522-555 | The crawler is the tail of the list and its count as asked for. |
| `CrawlerMemory.Crawling.Turn` | memcached-sr/crawler.c:387-395 | A turn, link by link, is the model's, the pop at the head and the end of the count included. |
| `CrawlerMemory.Crawling.CrawlAll` | memcached-sr/crawler.c:365-438 | Undisturbed, it returns the whole list in reverse and leaves the list as it was. |
| `ItemsSafety.AllocKeeps` | memcached-sr/items.c:247-346 | A new item, unlinked with one owner, keeps the invariant: reference count = owners + bump entries + 1 if linked; linked = in the table under its key and on exactly one list, its own; sizes, bytes and curr_items match. |
| `ItemsSafety.LinkKeeps` | memcached-sr/items.c:484-504 | Linking an item whose key is absent keeps it. |
| `ItemsSafety.UnlinkKeeps` | memcached-sr/items.c:506-519 | Unlinking keeps it, with the asserts of item_free if the item is freed; an item somebody holds is not freed. |
| `ItemsSafety.RemoveKeeps` | memcached-sr/items.c:537-545 | Giving up a reference keeps it, with the same asserts. |
| `ItemsSafety.FreeIsSafe` | memcached-sr/items.c:348-360 | An unlinked item whose count drops to zero is on no list and in no table. |
| `ItemsSafety.RelistKeeps` | memcached-sr/items.c:548-575 | Moving a linked item to the head of any list keeps it. |
| `ItemsPlace.Cache.constructor` | memcached-sr/items.c:55-59 | An empty cache, its lists linked, meets the invariant. |
| `ItemsPlace.Cache.LinkQ` | memcached-sr/items.c:406-431 | The item is linked in front of its list in memory, and the sizes counted. |
| `ItemsPlace.Cache.UnlinkQ` | memcached-sr/items.c:446-476 | It is unlinked and the sizes counted. |
| `ItemsPlace.Cache.Link` | memcached-sr/items.c:484-504 | Statement by statement, the model's link, with the 256 lists linked in memory. |
| `ItemsPlace.Cache.Unlink` | memcached-sr/items.c:506-519 | The model's unlink; nothing happens to an item that is not linked. |
| `ItemsPlace.Cache.Remove` | memcached-sr/items.c:537-545 | The count drops and the item is freed at zero. |
| `ItemsPlace.Cache.Update` | memcached-sr/items.c:548-575 | An active COLD item is idle at the head of WARM, any other linked one stays with its time set; without segments, one not moved for a minute is at the head of its list; and nothing else changes. |
| `ItemsPlace.Cache.Replace` | memcached-sr/items.c:577-584 | The old item out, the new one in. |
| `ItemsMemory.JudgeIs` | memcached-sr/items.c:1157-1234 | The verdict on a live item: active in HOT it rises, active in WARM it goes round, idle in either it sinks if the list is over its share or it is too old, in COLD it is evicted if asked and allowed, or rises if active, unasked for and segmented. |
| `ItemsMemory.CycleKeeps` | memcached-sr/items.c:1166-1175 | Requeueing an item keeps the invariant. |
| `ItemsMemory.ReclaimKeeps` | memcached-sr/items.c:1136-1152 | So does reclaiming one. |
| `ItemsMemory.Cache.Search` | memcached-sr/items.c:1100-1237 | The loop ends within its tries; what it has removed was expired or flushed and of the class asked for; what it found is judged as stated and locked, and no other lock is held that was not before. It ends at the tail, untouched, whenever that is no crawler, nobody has its lock and it is not to be reclaimed or requeued. |
| `ItemsMemory.Cache.PullTail` | memcached-sr/items.c:1080-1254 | On every branch the invariant holds, only items of the class move, and only expired, flushed or the one evicted item lose their key. Locks are only taken when free and given back when held; all are given back, or the item handed over, exactly if the search ended at no item, none was asked for, or it was pulled from COLD without evicting. A live tail whose lock is free is then at the head of WARM and idle, at the head of COLD, off its list and not found, or where it was, as JudgeIs has it; a dead one is not found. |
| `ItemsMemory.AskedForStaysLocked` | memcached-sr/items.c:1246-1250 | Every pull from HOT or WARM that asks for the item and ends at the tail keeps the tail's lock and a reference to it without handing it over. |
| `ItemsMemory.LonerStaysLocked` | memcached-sr/items.c:1246-1250 | Such a pull, on a cache of one item. |
| `ItemsRuns.UpdateKeeps` | memcached-sr/items.c:548-575 | Updating keeps the invariant. |
| `ItemsRuns.UpdateTouches` | memcached-sr/items.c:548-575 | Where an update leaves an item, in all its cases. |
| `ItemsRuns.BumpKeeps` | memcached-sr/items.c:1289-1310 | So does an asynchronous bump, dropped or not. |
| `ItemsRuns.ReplaceKeeps` | memcached-sr/items.c:577-584 | Replacing keeps the invariant. |
| `ItemsRuns.KeysChange` | memcached-sr/items.c:348-584 | What is found under a key is set by linking and replacing, taken away by unlinking and reclaiming, and changed by nothing else. |
| `ItemsRuns.RunKeeps` | memcached-sr/items.c:348-584 | In every run from an empty cache the reference counts, the table, the lists and their sizes agree. |
| `ItemsRuns.OwnedStays` | memcached-sr/items.c:537-545 | As long as somebody has a reference to an item it is not freed and does not become another. |
| `BumpQueue.PlainSound` | memcached-sr/items.c:96-99 | There is a layout of an entry in 16 bytes from which every 64-bit address reads back. |
| `BumpQueue.AddedOk` | memcached-sr/items.c:1289-1310 | A record added to the buffer, at whatever point of the thread's work, keeps the queue in order. |
| `BumpQueue.EntryIs` | memcached-sr/items.c:1318-1351 | Whatever has been added since it looked, the thread reads the next entry that was accepted. |
| `BumpQueue.EmptiedOk` | memcached-sr/items.c:1345-1347 | The poll takes out exactly the entries worked off. |
| `BumpRuns.SevenIsWorkedOff` | memcached-sr/items.c:1289-1351 | A run the next rows are about: an item is allocated, linked, hit, and its entry looked at, worked off and taken out. |
| `BumpRuns.StepHolds` | memcached-sr/items.c:1289-1351 | Every step of the queue and every other item operation keeps cache and queue in order, with one reference for each entry not worked off. |
| `BumpRuns.EntriesInOrder` | memcached-sr/items.c:1289-1351 | In every interleaving from an empty cache: nothing is touched that is not there, entries are worked off first come first served and each once, and every entry not yet worked off has its reference and its item. |
| `BumpMemory.Bumper.BumpAsync` | memcached-sr/items.c:1289-1310 | In place, through the request and the push, the record is in the buffer exactly if there was room. |
| `BumpMemory.Bumper.Bumps` | memcached-sr/items.c:1318-1351 | In place, the entries region A held are read in order, each with its reference, and taken out. |
| `BmcRuns.CopyHasName` | bmc/bmc_kern.c:589-599 | What is stored of a reply that has a name is a prefix that still has it. |
| `BmcRuns.FillOkIff` | bmc/bmc_kern.c:566-611 | A fill leaves a slot in order exactly if the copy is complete, the slot was not valid, or it had the reply's hash already. |
| `BmcRuns.SameIffNames` | bmc/bmc_kern.c:574-582 | The comparison spares a slot exactly if it holds a reply for the same name. |
| `BmcRuns.CopiedIsForKey` | bmc/bmc_kern.c:360-382 | What a GET copies is a reply for a name with the key's hash that begins with the key, and the key's own exactly if the name ends there. |
| `BmcRuns.NoCopyAfterInvalidation` | bmc/bmc_kern.c:353-382 | In any run no GET copies bytes out of a slot between an invalidation of it and its next completed fill. |
| `BmcRuns.ValidSlotsMatch` | bmc/bmc_kern.c:557-611 | Over any run a valid slot stores a reply for a name with its hash, in the place of that hash, at every moment exactly if no fill does it harm. |
| `BmcRuns.CutReplyDoesHarm` | bmc/bmc_kern.c:589-611 | From any invalid slot, a complete reply for one name and then a cut one for another leave the slot valid, with the first name's hash, over the second name. |
| `BmcRuns.ValidSlotsHoldLastReply` | bmc/bmc_kern.c:589-611 | A valid slot holds the reply that last wrote into it, and has not been invalidated since. |
| `Bmc.FnvKnown` | bmc/bmc_common.h:24-25 | The hash is FNV-1a: it gives its published values. |
| `BmcMemory.HashKey` | bmc/bmc_kern.c:218-238 | The loop stops at a space, a carriage return, the end or one byte past the longest key, with the hash of what it passed. |
| `BmcMemory.HashName` | bmc/bmc_kern.c:557-564 | The loop hashes exactly the name of the reply. |
| `BmcMemory.Store` | bmc/bmc_kern.c:589-599 | The loop copies up to the second line end and counts the line ends. |
| `BmcMemory.Cache.UpdateCache` | bmc/bmc_kern.c:550-614 | The slot of the name is filled as in the model and no other changes. |
| `BmcMemory.Cache.InvalidateCache` | bmc/bmc_kern.c:442-506 | Exactly the slots of the keys the scanner finds lose their validity. |
| `BmcMemory.SetIsSeen` | bmc/bmc_kern.c:464-503 | A set request met by the idle scanner yields the hash of its key and leaves the scanner idle behind it. |
| `BmcMemory.HashesAgree` | bmc/bmc_kern.c:218-238 | A key of 1 to 250 bytes without space or carriage return has the same hash in a GET, a reply and a set request. |
| `BmcMemory.FoundAreWords` | bmc/bmc_kern.c:464-503 | Every hash the scanner yields is that of a word of the payload. |
| `BmcParse.WalkIs` | bmc/bmc_kern.c:218-283 | The walk over the keys of a GET, as a whole: where it stops, which keys it saves, and how many keys and words come before the last word. |
| `BmcParse.KeysAreWords` | bmc/bmc_kern.c:205-261 | No more keys are saved than there are words. |
| `BmcParse.HashKeys` | bmc/bmc_kern.c:199-283 | The tail calls over one GET act as that walk, the head ends up away from the packet exactly if the walk strands, for want of room, of key slots or of tail calls, and what is left of the tail calls is known. |
| `BmcReply.Matches` | bmc/bmc_kern.c:360-366 | The comparison loop decides whether the slot's bytes at the key's place are the key. |
| `BmcReply.CopyOut` | bmc/bmc_kern.c:367-380 | Eight bytes at a time and then one, the entry is copied up to its end or the packet's. |
| `BmcReply.Prepare` | bmc/bmc_kern.c:286-329 | The new headers, addresses and ports exchanged, go in front of the request and nothing else changes; or nothing changes at all. |
| `BmcReply.Send` | bmc/bmc_kern.c:396-425 | The end mark, the lengths and the cut to size make the packet the answer. |
| `BmcReply.Reply` | bmc/bmc_kern.c:332-439 | Sent, dropped or passed on is decided by the entries, the room and the tail calls left: what is sent is whole entries in the order of the keys and the end mark; what does not fit, or runs out of calls, is dropped; what is passed on had no hit and is the request byte for byte. |
| `BmcReply.Answer` | bmc/bmc_kern.c:286-439 | The same from the saved keys on, and what is passed on is the request exactly if the call to bmc_prepare_packet was not the last or it had no room. |
| `BmcReply.Find` | bmc/bmc_kern.c:126-283 | The keys of a GET are found and saved, the packet is in place exactly if the walk over them does not strand, and there are keys to answer exactly if it ends at a last key with some saved. |
| `BmcReply.Get` | bmc/bmc_kern.c:126-439 | A GET from end to end, for any bound on tail calls: its fate is a function of its words, the slots and the room; a packet passed on is identical exactly if the walk did not strand and did not end one call short of an answer; a packet sent is the answer to the keys saved, and they are fewer than half as many as the calls allowed. |
| `BmcReply.LengthsMatch` | bmc/bmc_kern.c:418-423 | The IP and UDP lengths of an answer are those of the packet. |
| `BmcReply.AnswerGoesBack` | bmc/bmc_kern.c:304-321 | An answer goes to where the request came from, with the request's own memcached header. |
| `BmcReply.ShortRequestIsLost` | bmc/bmc_kern.c:274-280 | A request whose second key lies too close to the end of the packet is passed on as something else, whatever the slots hold. |
| `BmcReply.HitIsAnswered` | bmc/bmc_kern.c:126-439 | A request for one key that is cached is answered with what is cached and the end mark, if there is room and the kernel allows three tail calls. |
| `BmcReply.CrowdIsWalked` | bmc/bmc_kern.c:279-282 | A request of n words and a last one is walked exactly if more than n tail calls are allowed. |
| `BmcReply.CrowdIsLost` | bmc/bmc_kern.c:279-282 | With no more than n calls it is passed on as something else, whatever the slots hold. |
| `BipBuffer.OfferAppends` | memcached-sr/bipbuffer.c:109-128 | An offer appends to the queue, region A before region B, or is refused for want of room. |
| `BipBuffer.PollTakesFront` | memcached-sr/bipbuffer.c:151-180 | A poll within region A takes that many bytes off the front. |
| `BipBuffer.PollValid` | memcached-sr/bipbuffer.c:151-180 | A poll keeps the buffer intact exactly if it is refused or stays within region A. |
| `BipBuffer.PollPastRegion` | memcached-sr/bipbuffer.c:151-180 | A poll for more than region A holds, but within the array, that breaks it. |
| `BipBuffer.SlotIsFree` | memcached-sr/bipbuffer.c:77-89 | The stretch handed out is inside the array and outside both regions. |
| `BipBuffer.PushCostsAtMost` | memcached-sr/bipbuffer.c:91-107 | Pushing n bytes costs at most n bytes of room. |
| `BipBuffer.PushThenOfferFits` | memcached-sr/logger.c:302-329 | With room confirmed for both parts, the offer after the push cannot fail. |
| `BipBuffer.PeekThenPoll` | memcached-sr/bipbuffer.c:142-180 | Bytes peeked at do not change under any offers and are what the matching poll takes. |
| `BipBuffer.FirstInFirstOut` | memcached-sr/bipbuffer.c:77-180 | Over any mix of offers, requests with pushes, and polls inside region A, what was polled and then what the buffer holds are the bytes accepted, in order. |
| `BipBuffer.OfferStaysWhole` | memcached-sr/bipbuffer.c:109-128 | Records offered one at a time are never split between the regions. |
| `BipBuffer.PollStaysWhole` | memcached-sr/bipbuffer.c:151-180 | Nor are they after polls of whole records. |
| `BipMemory.Buffer.Request` | memcached-sr/bipbuffer.c:77-89 | The position of that many free bytes in a row, or nothing exactly if there is no room. |
| `BipMemory.Buffer.Push` | memcached-sr/bipbuffer.c:91-107 | The cursors move as in the model. |
| `BipMemory.Buffer.Offer` | memcached-sr/bipbuffer.c:109-128 | The bytes are in the array and the cursors as in the model. |
| `BipMemory.Buffer.PeekAll` | memcached-sr/bipbuffer.c:142-149 | The front of the queue, or nothing exactly if it is empty. |
| `BipMemory.Buffer.Poll` | memcached-sr/bipbuffer.c:151-180 | The cursors move as in the model. |
| `Udp.DatagramFits` | memcached-sr/memcached.c:1091-1153 | No datagram exceeds 1400 bytes, header included. |
| `Udp.ReceiverGetsAll` | memcached-sr/memcached.c:1172-1212 | Stripped of headers and joined in order the datagrams are exactly the bytes added, however many there are. |
| `Udp.NumbersFit` | memcached-sr/memcached.c:1172-1212 | Every datagram carries its number and their count exactly if there are fewer than 65536. |
| `Udp.NumbersRunOut` | memcached-sr/memcached.c:1200-1205 | Of 65537 the last carries the number 0 and the count 1. |
| `Udp.ReceiverReorders` | memcached-sr/memcached.c:1172-1212 | Up to 65536 datagrams, arriving in any order and any of them more than once, a receiver that goes by the numbers gets the bytes back. |
| `Udp.FirstIs` | memcached-sr/memcached.c:1155-1167 | What is sent of a chunked item is the first len bytes of its chunks joined. |
| `UdpMemory.Conn.constructor` | memcached-sr/memcached.c:332-372 | Empty lists. |
| `UdpMemory.Conn.Repoint` | memcached-sr/memcached.c:1070-1074 | Every message header points to where the entries before it end, in the new list. |
| `UdpMemory.Conn.EnsureIovSpace` | memcached-sr/memcached.c:1054-1078 | There is room, and reallocation has not broken any message. |
| `UdpMemory.Conn.AddMsghdr` | memcached-sr/memcached.c:332-372 | One message more, holding room for its header. |
| `UdpMemory.Conn.AddPart` | memcached-sr/memcached.c:1097-1133 | A turn of the loop adds the front of the bytes and ends with every message within its limits. |
| `UdpMemory.Conn.AddIov` | memcached-sr/memcached.c:1091-1153 | The messages carry the bytes they carried and then these, each within 1400 bytes and 1024 entries. |
| `UdpMemory.Conn.AddChunks` | memcached-sr/memcached.c:1155-1167 | The same for a chunked item. |
| `UdpMemory.Conn.BuildHeaders` | memcached-sr/memcached.c:1172-1212 | Each header is put in front of its own message, so that what the entries of a message make up is its datagram. |
| `Chunks.ReadOn` | memcached-sr/memcached.c:2904-2972 | Reading on across unrelated chunk boundaries reads the joined bytes. |
| `Chunks.Item.Take` | memcached-sr/items.c:221-245 | A full chunk gets a successor, no chunk exceeds its size, and it fails exactly if a chunk was filled and there is no other. |
| `Chunks.Item.CopyChunks` | memcached-sr/memcached.c:2904-2972 | Exactly the first len bytes of a chunked source are appended, whatever the boundaries, empty chunks included; if the chunks run out, a beginning of them. |
| `Chunks.Item.CopyFlat` | memcached-sr/memcached.c:2904-2972 | And of a flat one. |
| `Chunks.Item.CopyData` | memcached-sr/memcached.c:2974-2998 | Append and prepend give the two values joined with a single line end, or, if the chunks run out, a beginning of that. |
| `Chunks.JoinFlat` | memcached-sr/memcached.c:2974-2998 | The same in a flat item. |
| `Cas.Cache.DoStoreItem` | memcached-sr/memcached.c:3006-3140 | In place: add stores exactly if the key is absent, replace if it is present, cas if the id matches, append and prepend if the value is in memory, the id matches or none is sent, and there is room; what is stored is the data sent, or old and new words, or new and old, with one line end, under a new id; what is not stored changes nothing and is answered with its reason; no other key changes. |
| `Cas.Cache.DoAddDelta` | memcached-sr/memcached.c:5342-5448 | In place, the result and state of the model, with the number read off the stored text and printed as its decimal text; a refusal has its reason and changes nothing, and no other key changes. |
| `Cas.ThereAndBack` | memcached-sr/memcached.c:5379-5392 | Subtracting what was added gives the number back exactly if adding did not wrap around. |
| `Cas.StepEnded` | memcached-sr/memcached.c:5418-5437 | Every stored value keeps its line end, if what the clients send has one. |
| `Cas.DeltaReadsBack` | memcached-sr/memcached.c:5374-5437 | After an increment or decrement the stored value reads as the old number plus the delta in 64 bits, or less the delta down to 0, whatever lies in memory beyond it, exactly if the number is below 2^63 or no minus sign is found behind it. |
| `Cas.StepRenews` | memcached-sr/memcached.c:3021-3125 | Every change of a value gives its key an id newer than all before. |
| `Cas.RunFresh` | memcached-sr/items.c:112-117 | In every run no id in use is newer than the last one given out. |
| `Cas.CasMeansUnchanged` | memcached-sr/memcached.c:3021-3071 | In every run a cas store succeeds only if the key's value and id have not changed since the token was read, as long as fewer than 2^64 ids have been given out since that id. |
| `Cas.OvertakenStores` | memcached-sr/items.c:112-117 | A run of 2^64 stores after which one succeeds over another value. |
| `Strtoull.SignedReads` | memcached-sr/util.c:49-72 | With a minus sign a number up to 2^63 is refused, but for zero, and a larger one is taken for what is left to 2^64. |
| `Strtoull.ReadsBack` | memcached-sr/util.c:49-72 | The text of a 64-bit number, at the end or before a blank, reads as that number, unless it is 2^63 or more and a minus sign stands somewhere behind it. |
| `Decimals.RowIs` | memcached-sr/itoa_ljust.c:64-69 | The lookup table holds the two digits of every number below 100. |
| `Decimals.DecimalReadsBack` | memcached-sr/itoa_ljust.c:109-149 | The canonical text is digits only, has no leading zero and reads back as the number. |
| `Decimals.DecimalSplit` | memcached-sr/itoa_ljust.c:128-140 | The text of a number is that of its upper digits followed by its lower ones, zeros included. |
| `Itoa.Print` | memcached-sr/itoa_ljust.c:92-107 | Entered at the case for the digits still to print, the fall-through cases complete the text. |
| `Itoa.WrappedComesOff` | memcached-sr/itoa_ljust.c:94-95 | A product that does not fit an int, wrapped around, still comes off right. |
| `Itoa.ProductFits` | memcached-sr/itoa_ljust.c:94-95 | It does not fit from 2200000000 on. |
| `Itoa.Digits` | memcached-sr/itoa_ljust.c:83-90 | An odd number of digits has its first one printed, and the rest is entered at the right case. |
| `Itoa.ItoaU32` | memcached-sr/itoa_ljust.c:109-117 | The canonical text, a NUL after it, and where the NUL is, for every 32-bit number. |
| `Itoa.ItoaU64` | memcached-sr/itoa_ljust.c:128-140 | The same for every 64-bit number, by way of its upper digits. |
| `Itoa.Itoa32` | memcached-sr/itoa_ljust.c:119-126 | And for every signed 32-bit number, the least included. |
| `Itoa.Itoa64` | memcached-sr/itoa_ljust.c:142-149 | And for every signed 64-bit number. |
| `Itoa.AtMostTwenty` | memcached-sr/itoa_ljust.c:142-149 | No text is longer than twenty characters, sign included. |

## Left out

- The aarch64 CRC (crc32c.c:128-164), which lacks the initial and final complement and is another function.
- The hash functions: `Assoc` is proved for every hash.
- ExtstoreEngine.StepKeeps: a write may address any page, which allows more than the code does; ExtstoreBuckets has the buckets and the assertion at extstore.c:385. page_free, failed disk transfers and statistics are not modelled.
- ExtstoreEngine.RunKeeps: as StepKeeps.
- ExtstoreEngine.ReadYieldsWrittenOrMiss: as StepKeeps.
- ExtstoreEngine.RightIffFresh: as StepKeeps.
- ExtstoreVersions.WrappedVersionServesOthers: the run is one of the model, where the page to write to is chosen freely; page and buffer have the same size.
- ExtstoreAccounts.MissHasCause: owners delete an object once and with its length, as the callers do; that a deletion is not told to a closed page is modelled, that the engine's totals still count it is not.
- ExtstoreBuckets.PagesAreReplacedWhole: is stated for runs in which no page is handed a version of its own log, as the engine's invariant is.
- ExtstoreBuckets.StepHolds: as PagesAreReplacedWhole.
- ExtstoreMemory.Store.MaintPass: the interleaved pass is ExtstoreEngine's; this is the pass nothing interrupts. The disk, the queue of flushes and the free lists are values.
- SlabMoverSafety.StepKeeps: page moves whose source is the global pool, and chunk sizes, are not modelled; the copying of an item is one step under its lock, as its key is locked throughout.
- SlabLosses.LossHasReason: whether an item has expired is a parameter of each look.
- SlabMoverSafety.RescuedItemsKeepTheirValues: is about the last step of a rescue; SlabRescue.RescueKeepsValue is about all of it.
- SlabMoverMemory.Slabs.MovePart: an item's chain of chunks is a sequence; the next and prev fields of its chunks are not modelled.
- SlabMemory.RunSound: preallocation, prefilling and changes of the limit are not modelled, nor is the destination of a page move before it finishes.
- SlabAllocator.Slabs.DoAlloc: free lists are sequences here; FreeLists has their links.
- ItemsRuns.RunKeeps: tail repair, which overrides reference counts by design, page moves and a crawler moving during the run are not modelled; an item taken off one list and put on another is one step, though the code releases the list lock in between.
- ItemsPlace.Cache.Link: the hash table is a map here; AssocMemory has its chains.
- ItemsMemory.Cache.Search: says that the search ends at the tail when it can, and not, otherwise, at which item; as PullTail in the rest.
- ItemsMemory.Cache.PullTail: what becomes of an active tail of WARM is stated for a list of one, as the search goes on after it and may come upon it again; the shares of HOT and WARM are computed without 64-bit overflow; the storage hooks and the crawl trigger are left out; lists are sequences, and which item locks others hold is a parameter.
- BumpRuns.EntriesInOrder: one buffer; the code has one per worker thread, and the list of them is not modelled. The layout of an entry is any that reads a 64-bit address back.
- CrawlerMemory.Crawling.Turn: what the modules do with an item, the item lock and the client's buffer are left out; so are the paths for a client that has gone.
- BmcRuns.ValidSlotsMatch: only slots are claimed, not freshness against memcached: only `set` over TCP invalidates, and a late reply can refill a slot.
- BmcReply.Get: the checksum bytes are a parameter (bmc_kern.c:110-123 folds the carry once); the packet lies in a page of 4096 bytes; map lookups that find nothing and statistics are left out.
- BmcReply.Find: as Get.
- BmcReply.Reply: as Get.
- BmcReply.Answer: as Get.
- BmcParse.HashKeys: as Get; what is found in the slots is a parameter, one look for each key.
- UdpMemory.Conn.AddIov: the TCP branch and failed allocations are left out; so is building the headers again during transmission.
- UdpMemory.Conn.EnsureIovSpace: reallocation succeeds.
- UdpMemory.Conn.AddMsghdr: reallocation succeeds.
- UdpMemory.Conn.BuildHeaders: an iov entry holds the bytes it points to; that all headers lie in one buffer, which must not change until they are sent, is not modelled.
- Chunks.Item.CopyData: the chain of chunks is a sequence, its pointers are not modelled; when the allocator runs out of chunks is a number fixed beforehand.
- Chunks.Item.CopyChunks: as CopyData.
- Chunks.Item.CopyFlat: as CopyData.
- Chunks.Item.Take: as CopyData.
- Cas.CasMeansUnchanged: the bound is enough and not exact, since ids of other keys count too; set_cas_id and stale sets are left out.
- Cas.Cache.DoStoreItem: stale sets are left out.
- Cas.Cache.DoAddDelta: strtoull itself is given by its meaning in the C locale; what lies in memory beyond the value is a parameter.
- Itoa.Print: from 2200000000 on `d * 100000000` does not fit a C int, which C leaves undefined; here it wraps around as two's complement does.
- Itoa.Digits: is stated for the buffers and numbers its callers pass.
- Sockets, event loops, protocol parsing, TLS, authentication, options, statistics text, slab automove policy, storage compaction, restart and the user-space part of BMC.
