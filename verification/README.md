# The copy-on-write block store of the qcow2 reader, in Dafny

This project models `Qcow2Reader` of `src/reader.rs`, with the geometry `src/header.rs` guarantees it, and proves what
the reader's documentation promises of it: a write changes exactly the bytes written, snapshots never see it, a crash
leaks but never corrupts, and the caches, the resident tables and the allocation cursor change no answer.
`dafny verify dfyconfig.toml` checks all of it.

## How it is laid out

* `Bytes`, `Arith`: big-endian words, puts and slices; multiplication, division and powers of two as recursive
  functions with the laws the proofs use.
* `Format`: header, two-level addresses, L1 and L2 entries, compressed descriptors, refcount blocks.
* `Accounting`: slots (places that name host clusters), refcounts, and the invariant, without bytes. A slot is a path: a
  data cluster reached through an L2 table that two L1 tables share has two slots, as the format counts it.
* `Disk`, `DiskSteps`, `Images`: the same read off the bytes of an image, cluster by cluster, for the active L1 table and
  every snapshot's; what one changed word, count or cluster does to words, counts and guest content.
* `Engine`: the reader as total functions on any device contents, every branch and refusal included. Each device change
  is logged with the bytes before it, which is what a crash is stated about.
* `Bridge`, `Safety`, `Allocation`, `Scanning`, `Allocator`, `Refcounts`, `Tables`, `Publishing`: the steps of a write on
  a well-formed image, and every crash within them.
* `Reading`, `Uncached`: reads byte by byte, the caches, and the reader without any cache.
* `Lookups`, `Payloads`, `Statuses`, `Widths`, `InPlaceWrites`: what table entries, payloads, cluster statuses, refcount
  widths and refcounts mean, stated on the bits of the entries and the fields of the header, without the functions the
  reader computes them with.
* `Opening`, `Chains`, `Acceptance`, `Structures`: opening an image and its backing chain, and what the chain reads; which
  headers open; the header and the snapshot list an image carries, and what keeps them.
* `Chunks`, `Writes`, `Spans`, `Runs`, `Histories`: one chunk, one write call, and any history of reads, writes and crashes.
* `Leaks`, `Refusals`: what a write leaks, exactly; when it is refused, and when it cannot be.
* `FirstFit`: the allocator against a first-fit search of the device.
* `Extents`: the extent walk.
* `StaleFlags`: a write through a COPIED flag that is not true.
* `Reader`: the classes `Qcow2Reader` and `ExtentIter`, whose methods change fields in place and loop where the source
  does. Each method's contract gives the whole new state as the `Engine` function of the same name of the old one, so
  every lemma about that function is about the method; `ReadAt` and `WriteAt` also say what that means for the guest.
* `Building`, `SmallImages`, `FreshImage`, `SharedImage`, `SharedWrites`: two images written down byte by byte and opened,
  a fresh one whose file ends with its L1 table, and one whose snapshot shares an L2 table and everything under it.

## What a well-formed image is

`Images.WellFormed` says of the device's bytes, for one context (header, snapshot L1 tables, decompressors, and what
the backing chain reads as):

* `Sound`: every refcount is at least the number of slots that name the cluster;
* `Exclusive`: the header, the refcount table, its blocks, the snapshot table and the L1 tables share a cluster with
  nothing;
* `CopiedMeansOne`: a COPIED flag in the active L1 table or in an L2 table it names means refcount exactly one;
* `Legal`: every entry is one the reader accepts (aligned, without reserved bits, naming bytes inside the image); the
  header and the refcount table are inside the image whole, the active L1 table with the bytes of its entries. Nothing is
  asked of the snapshot table or of the snapshots' L1 tables: where the file has ended they read as zeros.

`Chunks.StateOK` adds that the resident L1 and refcount tables are the device's, no present refcount entry below the
cursor is zero, and the caches tell the truth.

`CopiedMeansOne` covers every L2 entry under the active table, not only those a lookup would trust (which need COPIED on
the L1 entry too). The weaker reading is not kept by the verbatim copy of a shared L2 table: `Accounting.CopyBelievesFlags`
says exactly when it is, and `StaleFlags.BelievedFlagShows` what a write through a believed flag does to the other views.

## Premises

* The device never exceeds a limit below 2^56 bytes (`DeviceOK`). Growth past the limit is an I/O error.
* `virtual_size + cluster_size` and every host offset the refcount table can count fit in 64 bits; `refcount_order` is at
  most 6. The model's integers do not wrap, except where the source casts (`as u32` in `split_virtual`).
* A run starts from an image whose own bytes hold the header and the snapshot list of the context
  (`Structures.Describes`). That no write and no crash changes them is proved (`Runs.CutOK`, `Histories.RunOK`).
* A step of at most 8 bytes inside one 512-byte sector reaches the device whole or not at all, as every table entry and
  refcount does; any bytes of any other step, a guest's in-place write included, may have arrived.
* Steps arrive in order. Between the steps of one allocation the source's flushes ensure it. Nothing is flushed after an
  in-place write (src/reader.rs:782-784), so that it arrives before the writes that follow it is assumed, not ensured.
* The decompressors are arbitrary functions of the payload; `Unpack` does with their output what the source does.

## Where code and documentation differ

* The repository says writes grow the refcount table (README.md:12-13). The code adds refcount blocks and refuses when the table
  is full (src/reader.rs:1106-1108); the model follows the code, and `FirstFit.AllocateFirst` says exactly when it refuses.
* "Exact" refcounts are not kept by every write: a compressed payload across host clusters, or a zero flag that still
  carries a host offset, leaves counts behind. `Leaks.Conservation` says exactly when equality is kept, and
  `SharedWrites.ZeroFlagLeaks` and `SharedWrites.PackedSpanLeaks` give an image with exact refcounts for each case.

## Model

| member | source | states |
|---|---|---|
| Format.ParseHeader | src/header.rs:125-316 | an accepted header has an L1 table that covers the virtual size, and cluster-aligned tables |
| Building.AcceptedExactly | src/header.rs:125-316 | of byte strings long enough to hold any header, exactly those are accepted that begin with the bytes of a header the format allows, of version 2 or 3 |
| Building.ShortIsRefused | src/header.rs:126-128 | fewer than 72 bytes are no header, and fewer than 104 none of version 3 |
| Building.ParsedIsEncoded | src/header.rs:125-316 | an accepted string begins with the bytes of what it parses to |
| Building.MagicBytes | src/header.rs:129-132 | those begin with the letters QFI and the byte fb |
| Acceptance.OpensExactly | src/reader.rs:459-491 | an image opens exactly when its header has no encryption, no feature but dirty, corrupt and compression type (for writing, the last alone), deflate or zstd, and the L1 bytes are there |
| Acceptance.RefusedBecause | src/header.rs:329-417 | which error each refused field gives, the first where several do |
| Format.AddressInRange | src/reader.rs:947-958 | below the virtual size the `as u32` casts lose nothing, each index is inside its table, and the parts recompose to the offset |
| Format.AddressUnique | src/reader.rs:947-958 | the split of an offset is the only triple of indices that recomposes to it |
| Format.EntryForFacts | src/reader.rs:1778-1780 | the entry for any host offset has COPIED, no other flag and no reserved bit, and keeps an aligned offset below 2^56 whole |
| Format.DescriptorRoundTrip | src/reader.rs:1811-1824 | decoding an encoded payload gives its offset and the shortest sector-ended span that covers it, for every cluster size |
| Format.DescriptorBounds | src/reader.rs:1811-1824 | any entry decodes to a span of one byte to two clusters below 2^64, and a compressed one is the encoding of what it decodes to |
| Format.EntryInverse | src/reader.rs:1199-1205 | the (block, entry) walk and the index split are inverse |
| Lookups.L1Answer | src/reader.rs:1527-1564 | on any image, which of its five answers an L1 entry gets, from its bits |
| Lookups.L2Answer | src/reader.rs:1592-1654 | on any image, which answer an L2 entry gets, from its bits; its COPIED bit counts only under a marked L1 entry |
| Lookups.LookupByEntries | src/reader.rs:1566-1654 | on any device, a lookup is the answer of the L1 entry it indexes and, past that, of the L2 word it names |
| Lookups.UnmarkedTable | src/reader.rs:1581-1586 | under an L1 entry without COPIED, on any device, a write to a plain cluster with more than one reference takes a new cluster, whatever the L2 entry's flag |
| Accounting.ClaimInv | src/reader.rs:1045-1102 | setting a free cluster's count to one keeps the invariant and leaves the cluster unnamed |
| Accounting.ReleaseInv | src/reader.rs:1229-1272 | dropping a share nothing holds keeps the invariant and moves only that cluster's slack |
| Accounting.LinkInv | src/reader.rs:1381-1383 | pointing an entry at a claimed cluster keeps the invariant; the old cluster gains slack, the new one loses it |
| Accounting.BlockInv | src/reader.rs:1137-1161 | a block that counts itself and one claimed cluster keeps the invariant, and exactly those two counts move |
| StaleFlags.BelievedFlagShows | src/reader.rs:826-842 | whatever the refcounts, after a write through a believed COPIED flag the view of a plain entry kept elsewhere, of any L1 table, changed exactly when it names the same host cluster and the bytes there were others |
| Safety.GrowQuiet | src/reader.rs:675-681 | growing changes no view at any moment, and a growth that goes through makes room for the cluster |
| Safety.SmallWrite | src/reader.rs:683-701 | a word or count written where that changes no view changes none at any crash |
| Safety.FillWrite | src/reader.rs:801 | filling a cluster nothing names is invisible, torn or whole |
| Scanning.RootLoaded | src/reader.rs:1014-1029 | the refcount table read whole has the device's words |
| Scanning.ScanFinds | src/reader.rs:1046-1102 | the scan stops at the first free entry of a present block and passes over none |
| Scanning.FirstAbsentFinds | src/reader.rs:1036-1042 | the first absent slot found is absent, and none before it is |
| Scanning.BlockCounts | src/reader.rs:1056-1067 | the two bytes the walk reads are the refcount of the entry's cluster |
| Widths.OtherWidthRefused | src/reader.rs:926-937 | on any device of version 3 with an order other than 4, allocation, refcount read and decrement answer the width error and change nothing |
| Widths.SixteenBitTaken | src/reader.rs:926-937 | on any device of version 2 or order 4, none of them ever gives that error |
| Widths.EntriesFill | src/reader.rs:44-52 | for every order up to 6 the entries of a block fill it exactly |
| Widths.CountByWidth | src/reader.rs:44-52 | the count an entry of each width holds, from the block's bytes |
| InPlaceWrites.OtherWidthWrite | tests/synthetic.rs:1068-1107 | on any device of another width, a write that has to read or claim a refcount changes nothing, and the width refuses it unless bytes to copy cannot be read |
| Allocator.HeaderCounted | src/reader.rs:1071-1084 | a well-formed image counts the header, so the scan never offers cluster 0 |
| Allocator.ClaimEntryOK | src/reader.rs:1067-1100 | claiming keeps the invariant and the memory, changes no view at any crash, and gives an aligned cluster other than the header, once free, named by nothing |
| Allocator.AddBlockOK | src/reader.rs:1106-1167 | the same for pass 2: the block is written, then published, and resident table and cursor follow |
| Allocator.AllocateOK | src/reader.rs:1000-1168 | any allocation: no view changes at any crash, all refcounts above zero stay, the cluster was free and is now claimed with room on the device; a refused one changes at most the resident table |
| FirstFit.RootResident | src/reader.rs:328-333 | loading the resident table is never refused and gives the device's bytes, resident or not |
| FirstFit.ResumeIsFirstFit | src/reader.rs:334-340 | forgetting the cursor and the resident table changes no outcome, no byte and no device step |
| FirstFit.AllocateFirst | src/reader.rs:1045-1108 | the answer is the first free cluster; "table full" exactly when every slot names a block and every entry is taken; otherwise only an unsupported width or a device that cannot hold that cluster refuses |
| FirstFit.FirstFreeUnique | src/reader.rs:1053-1108 | there is one first free cluster, and none when the table is full |
| FirstFit.AllocateFrame | src/reader.rs:1045-1167 | the cluster was named by nothing and counted 0, now 1; no other refcount moves but a new block's own, from 0 to 1 |
| FirstFit.ReadersAgree | src/reader.rs:1199-1227 | the walk over the resident table and the lookup by host offset give the same count for every host cluster |
| FirstFit.NeverTheHeader | src/reader.rs:1071-1084 | on any device at all, malformed or not, the header's cluster is never handed out |
| FirstFit.TableOutside | src/reader.rs:1014-1024 | on any device, a refcount table that is not all there refuses the allocation by name, nothing changed |
| Refcounts.LocateOK | src/reader.rs:1199-1227 | which of the three answers a host offset gets, from the table's words |
| Refcounts.ReadRefcountOK | src/reader.rs:1282-1300 | the count read is the cluster's refcount, zero where there is no block; it is refused only for the width or a missing table |
| Refcounts.DecrementOK | src/reader.rs:1229-1272 | a share that is there is dropped, no view changes at any crash, and nothing present below the cursor is free afterwards |
| Refcounts.DecrementRefused | src/reader.rs:1229-1260 | a count that is zero or kept nowhere is not decremented: which of the three cases it is, and nothing changes |
| Tables.UpdateL1OK | src/reader.rs:1412-1422 | an L1 entry moves to a claimed cluster with the same words: no view changes, and the resident table follows |
| Tables.AllocateL2TableOK | src/reader.rs:1401-1407 | a missing L2 table is allocated, zeroed and linked; every view stays as it was |
| Tables.CopyL2TableOK | src/reader.rs:1361-1373 | a shared L2 table is copied verbatim, then L1 moves, then exactly one share of the old table is dropped; every view stays as it was |
| Tables.OwnL2TableOK | src/reader.rs:1329-1377 | whatever the L1 entry named, afterwards it names a table nothing else reaches, with the same words |
| Tables.OwnTableByCount | src/reader.rs:1300-1313 | an L2 table with one reference is used where it is, nothing changed, whatever the L1 flag; one with more is copied |
| Tables.NoSuchL1Entry | src/reader.rs:1329-1337 | on any device, an L1 index past the table is refused by name and nothing changes |
| Publishing.PublishEntry | src/reader.rs:1379-1383 | the L2 entry write switches one cluster's view, whole, at one device step |
| Publishing.DropShare | src/reader.rs:805-807 | the release of the replaced cluster cannot fail, and loses exactly its share |
| Publishing.PublishOK | src/reader.rs:800-807 | fill, publish, release: every crash reads wholly old or wholly new; refused, only leaks remain; counts move as told |
| Reading.LookupCached | src/reader.rs:1656-1679 | a lookup through the one-slot L2 cache is the lookup without it |
| Reading.UnpackCached | src/reader.rs:1683-1763 | a slice through the decompressed-cluster cache is the slice unpacked afresh |
| Payloads.CompressedRead | src/reader.rs:1712-1755 | a read within a compressed cluster is that part of the payload's deflate output cut at one cluster, or of a zstd frame of exactly one cluster, and is refused exactly when the payload gives neither |
| SharedWrites.SharedPackedRead | src/reader.rs:1712-1755 | the compressed cluster of the shared image reads so |
| Reading.ReadAtOK | src/reader.rs:1425-1480 | a read gives, byte by byte, the first image of the chain that holds the cluster, and fails only where such a byte cannot be read |
| Reading.ReadUnallocatedOK | src/reader.rs:1484-1506 | under a cluster the child does not hold: the parents' bytes, zeros with no parent or past its end |
| Chains.OverlayRead | src/reader.rs:1484-1506 | under an unallocated cluster a chain's read is the parents' read, and zeros from the parent's end on |
| Reading.AdjacentReads | src/reader.rs:1425-1480 | two adjacent reads are one longer read, whatever the caches hold |
| Uncached.ReadAtPure | src/reader.rs:1425-1480 | reads with caches answer, errors included, as a reader that has none |
| Uncached.WriteAtPure | src/reader.rs:742-815 | writes with caches answer and leave the device and memory as a writer that has none |
| Chunks.LookupSlot | src/reader.rs:1566-1654 | a lookup on a well-formed image is never refused and reads the words of the slots |
| Chunks.GuestByte | src/reader.rs:1425-1506 | the byte a reader gets is the byte the slot's cluster holds |
| Chunks.PlanOK | src/reader.rs:824-881 | a cluster is written through only when no other slot of any table names it; the share dropped is one the entry holds |
| InPlaceWrites.SingleRefWrite | src/reader.rs:834-842 | a write within a plain cluster with one reference goes through whatever its flags and however full the image: the bytes, at one device step, and nothing else on the device or in memory |
| InPlaceWrites.SinglesWrite | src/reader.rs:710-711 | a write of any length over such clusters goes through and moves no entry, no refcount and nothing in memory |
| InPlaceWrites.ManyRefsWrite | src/reader.rs:834-839 | a plain cluster with more references is left behind: a write that goes through gives its entry a new word, marked as the only reference |
| Chunks.PlanSeeds | src/reader.rs:824-881 | each kind of seed is chosen for exactly the cluster state it reproduces |
| Chunks.SeedOK | src/reader.rs:888-905 | a seed is the guest's view of the whole cluster, copy-up through the chain included, and fails only where that view is an error |
| Chunks.InPlaceOK | src/reader.rs:782-784 | writing through a private cluster puts exactly these bytes, and a crash leaves each of them old or new |
| Writes.CacheSurvives | src/reader.rs:1385-1387 | caches stay true across every step that does not clear them |
| Writes.ReallocateOK | src/reader.rs:785-808 | seed, allocate, publish: the cluster gets exactly these bytes over its old view, or nothing visible happens |
| Writes.WriteChunkOK | src/reader.rs:776-813 | one chunk of a write in any of the five cluster states |
| Spans.WriteLoopOK | src/reader.rs:762-815 | any length over any mix of states, finished or refused: exactly the bytes got through are there, in every table nothing else moved, every crash is sound, slack never shrinks |
| Spans.ProgressWhole | src/reader.rs:762-815 | a write succeeds exactly when all its bytes got through |
| Leaks.WriteLeaks | src/reader.rs:800-807 | any write, finished or refused: every cluster gains one share too many for each overwritten entry that leaves it behind, and a refused write one more share of at most one cluster; nothing else |
| Leaks.Conservation | src/reader.rs:800-807 | with refcounts equal to references, a successful write keeps them equal exactly when no overwritten entry is a compressed span across clusters or a zero flag with a host offset |
| Leaks.ReleasableMeans | src/reader.rs:843-870 | that condition on an entry holds exactly when no host cluster it names goes unreleased |
| Spans.ApartSpans | src/reader.rs:762-815 | the chunks of one write meet different clusters, so a crash in a later one finds the earlier ones whole |
| Runs.ProgressAligned | src/reader.rs:776-814 | a refused write stops at a cluster boundary |
| Runs.WriteAtOK | src/reader.rs:742-815 | a write call: refusals, bytes, snapshots, crashes, leaks, and the guest's disk as an array overlaid with what was taken |
| Runs.WriteAtConserves | src/reader.rs:742-815 | the conservation condition for a whole call |
| Refusals.WriteAtRefused | src/reader.rs:730-741 | a refused in-range write ran into refcounts of another width, a full table, a device that cannot hold the first free cluster, or a cluster of its range with a byte that cannot be read |
| Refusals.MarkedWrite | src/reader.rs:730-734 | a write over plain clusters marked COPIED in both tables never fails, however full the image |
| Refusals.ArgumentsRefused | src/reader.rs:742-758 | a read-only image, a range past 2^64 and a range past the disk are refused each with its own error, before anything changes; empty ranges succeed |
| Refusals.RoomGoesThrough | src/reader.rs:785-808 | with two free clusters the device can hold and a readable cluster, a chunk in any cluster state goes through |
| Structures.HeaderRead | src/reader.rs:459-482 | the header parsed from the device's first bytes is the context's |
| Structures.DescribesKept | src/reader.rs:727-729 | an image whose header, snapshot table and snapshot L1 clusters keep their bytes still parses to the same header and lists the same snapshots |
| Runs.OpenOK | src/reader.rs:449-559 | a well-formed image opens, from its own bytes, into a state that meets the invariant |
| Runs.CutOK | src/reader.rs:723-725 | after a crash anywhere in a write the image opens from its own bytes, with the same header and snapshot list; every guest byte is old or new, and a cluster given a new home is wholly one or the other |
| Histories.ReadOK | src/reader.rs:1425-1480 | a read call against an array of bytes, range errors included |
| Histories.WriteOK | src/reader.rs:742-815 | a write call against an array of bytes: all of it, or a prefix of whole clusters |
| Histories.RunOK | src/reader.rs:719-741 | every history of reads, writes and crashes keeps the invariant, behaves as an array of bytes, and neither a snapshot's view nor the bytes of the header, the snapshot table and the snapshots' L1 tables change |
| Histories.RunPure | src/reader.rs:1385-1387 | every such history answers and leaves the device as it would with no caches |
| Extents.WalkOK | src/reader.rs:249-286 | the walk is the run-length encoding of the cluster statuses, from any cluster boundary, up to the first error |
| Statuses.StatusFromBits | src/reader.rs:600-615 | the status of a cluster from its entry's bits: zero for an uncompressed version 3 entry with bit 0, unallocated for no table or an entry with neither flag nor host offset, allocated otherwise, never an error |
| Statuses.NoStatusPastEnd | src/reader.rs:601-607 | exactly past the end of the disk a status is refused as out of bounds, and nothing is looked up |
| Statuses.StatusReads | src/reader.rs:589-599 | reading in a cluster of status zero gives zeros whatever is below; in one of status unallocated, what is below |
| Extents.ErrorsFound | src/reader.rs:260-280 | the walk meets an error exactly when some cluster's status is one |
| Extents.WholeDisk | src/reader.rs:625-638 | an error-free walk of a non-empty disk costs clusters + extents - 1 lookups |
| Opening.OpenChainStep | src/reader.rs:520-545 | an image with both a name offset and a name size stands on the chain of the next place, or is refused for its name or for that chain; one that lacks either opens alone |
| Opening.OpenChainOK | src/reader.rs:449-545 | a chain opens exactly when it ends within the depth and each image on the way opens, its header supported and its backing name readable; then it is those images in order |
| Chains.OpenedOverlay | src/reader.rs:520-545 | an opened overlay reads, where its own tables hold nothing, as the chain of its parent |
| Chains.OpenedAlone | src/reader.rs:520-545 | an image that lacks a name or its place is the whole chain, with zeros under it |
| Opening.EndlessIsTooDeep | src/reader.rs:455-457 | a chain every place of which leads on is refused as too deep |
| Opening.SixteenDeep | src/reader.rs:136 | a full open takes chains of up to sixteen images and no longer ones |
| Opening.CycleRefused | src/reader.rs:134-136 | files each of which has a name offset and a name size are refused, at every depth |
| Building.HeaderRoundTrip | src/header.rs:125-316 | the bytes of any header the format allows, of version 2, or of version 3 with or without a compression type, parse back to it, whatever follows them |
| FreshImage.FreshOpens | src/reader.rs:449-560 | a file that ends with its L1 table opens for writing and meets every premise |
| FreshImage.FreshWrite | tests/qemu_validation.rs:299-303 | the first write to it goes through and the guest's disk changes in that byte alone |
| SharedImage.SharedOpens | src/reader.rs:449-560 | a file with a snapshot, shared tables and clusters, and every refcount exact opens for writing and meets every premise |
| SharedWrites.SharedPlainWrite | src/reader.rs:834-839 | a write to a cluster the snapshot shares goes through and leaks nothing; the active view takes the byte, the snapshot's does not |
| SharedWrites.ZeroFlagLeaks | src/reader.rs:873-876 | a write over a zero flag with a host offset goes through and leaks one share of that cluster, and nothing else |
| SharedWrites.PackedSpanLeaks | src/reader.rs:844-872 | a write over a compressed payload across two clusters goes through and leaks one share of the second, and nothing else |
| Reader.Qcow2Reader.OpenInner | src/reader.rs:449-560 | a chain of readers, parents read-only, or the same error as the chain of images |
| Reader.Qcow2Reader.FirstAbsent | src/reader.rs:1036-1042 | the loop finds what the recursive search finds |
| Reader.Qcow2Reader.FirstZero | src/reader.rs:1064-1067 | the loop finds what the recursive search finds |
| Reader.Qcow2Reader.ScanTable | src/reader.rs:1044-1067 | the loop finds what the recursive scan finds |
| Reader.Qcow2Reader.ReadAt | src/reader.rs:1425-1480 | answer and caches of the whole chain; on a sound state, the guest's bytes |
| Reader.Qcow2Reader.WriteAt | src/reader.rs:742-815 | outcome and the state of the whole chain; on a sound state, the guest's disk afterwards |
| Reader.ExtentIter.Next | src/reader.rs:249-286 | item, cursor, cache and lookups after one step of the walk |

## Left out

* Concurrent readers beside a writer: the model runs calls one after another; `lookup_cluster` reads L1 before it takes
  the L2-cache lock, so nothing is said about reads that overlap a write.
* Device failures inside an operation: reads and writes inside the device succeed, growth fails only past its limit. The
  on-disk side of stopping anywhere is the crash property.
* Reordering of device writes between flushes, and torn writes of table entries and refcounts.
* Malformed images: the engine covers every branch on them, the theorems assume well-formed ones (but for `Lookups`,
  `StaleFlags`, `Widths` and `FirstFit.NeverTheHeader`); the unchecked assumption of pass 2 follows from well-formedness.
* Deflate and zstd themselves; whether a backing name is UTF-8 and which path it resolves to (src/reader.rs:1850-1860),
  so what there is to open in each place of a chain is a parameter of `Opening.OpenChain`.
* The count of leaks in a crash image: its refcounts are proved to cover its references, not how far they exceed them.
* `flush`, `open_best_effort` and the on-device entry points; `src/capi.rs`,
  `src/error.rs`, `src/cli` and the `fs_core` bridges; error texts (an error is one of `Format.Error`).
* The caller's buffer of a failed read, which the source may have filled in part: `ReadAt` returns bytes or an error.
* 64-bit wrap-around of host offsets for refcount tables that could count beyond 2^64 bytes, and of shifts by a
  refcount order above 31; bit masks are arithmetic on unbounded integers.
- Accounting.CopyBelievesFlags: speaks of the accounting alone, not of the device the copy is made on.
- Extents.WalkOK: counts the lookups, not the device reads a lookup with a cold L2 cache makes.
- Histories.RunOK: a history's writes all come from one handle, with the parents of the chain unchanged under it.
