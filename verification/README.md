# SparkNVM, modelled and verified

SparkNVM is a Spark shuffle that spills to persistent memory. This project models its core in Dafny and
proves what it is for: that records come out of the shuffle as they went in, however they were buffered,
cut into blocks, spilled, stored, hashed, read back, merged and combined.

Every module follows one component. What the source does to objects, its classes here do to their
fields; each method is proved against a function of the old state, and the theorems are about those
functions, over every input or every run.

- `Bytes`, `Words`, `Options`: bytes, blocks, memcpy, missing values; arithmetic and bit operations on words as integers.
- `XxHash`, `HashStream`, `XxHashLaws`, `XxHash32`, `XxHash64`: the vendored xxHash, one-shot and
  streaming, once for both widths; in `XxHash32Answers` and `XxHash64Answers` inputs with known hashes. It follows the XXH32 and XXH64 algorithm descriptions of the xxHash
  fast digest algorithm specification, steps 1 to 6.
- `PmemBuffers`: the native byte buffer with its read and flush cursors.
- `Pmem`, `PmemLog`, `MetaIndex`, `PmemKv`: durable stores in program order; the persistent linked log
  and what a crash leaves of a put; the volatile index as an explicit C heap; the store that keeps both
  in agreement. Blocks are stored per hash, not per string, as in the source.
- `KeyHashes`: the hash of the store, and ids that it keeps apart.
- `OutputStreams`, `BlockStreams`, `BlockStreamLaws`, `InputStreams`, `BlockInput`, `RoundTrips`: records through a
  serializer into a fixed buffer, into stored blocks, and back; and the whole way round.
- `Aggregation`, `MergeSort`, `MergeAggregation`: what combining by key means; the heap merge, where a
  dequeue may return any iterator with a minimal head; both branches of the merge with aggregation.
- `PartitionIterators`, `ExternalSorter`: per-partition iterators over shared streams; inserting, spilling
  at any time, and reading back in order of partitions, with streams as sequences.
- `RecordStreams`, `StoredMerge`, `StoredSorters`: the same in bytes: streams that are objects on one store,
  spilled to, opened again and merged.
- `ShuffleWriters`: the map task, with and without map-side combining.
- `DeviceAllocator`: the choice of the device an executor mounts.

Where the code falls short of its intent, the exact condition under which it meets it is proved, and an
input outside it is given:

- streaming against one-shot hashing: `XxHashLaws.StreamIsOneShot`, `XxHash32.OneStripeDiffers`,
  `XxHash64.OneStripeDiffers`;
- loading into a partly read buffer: `PmemBuffers.LoadAppendsIff`, `LoadRepeats`;
- growing by one step, in ints: `PmemBuffers.WriteIsSafeIff`, `WriteOverruns`, `WriteOutgrowsInt`, `WriteWrapsEnd`;
- loading in ints: `PmemBuffers.LoadIsSafeIff`, `LoadOverruns`;
- moving under the flush cursor: `PmemBuffers.WriteTracksIff`, `FlushRepeats`;
- flushing without a reset: `OutputStreams.FlushStoresPendingIff`, `RunStoresIntendedIff`,
  `FlushWithoutResetRepeats`;
- overflow of a stream's buffer: `BlockStreamLaws.SucceedsIff`, `EveryChoiceSucceedsIff`, whose failing
  records are all those longer together than the buffer;
- the Int size: `BlockStreams.ForcedSpillStoresAll`, `BlockStreamLaws.SizeWraps`;
- record counts of blocks: `BlockStreamLaws.StepAlignsIff`, `RunAlignsIff`, `CountMisleads`;
- empty blocks: `InputStreams.OpenLoads`, `OpenMisses`, `ByteEndsIff`;
- reading with too few records: `BlockInput.ItemNumber`, where the failing calls are part of the statement;
- grouping by adjacent keys: `MergeAggregation.TotalMergeNeedsTotalOrder`, `RepeatsKey`.

A single-byte write puts three zeros before the byte, always: `OutputStreams.WriteIntPads`.

Three contracts stand for what is outside the repository. Spark's in-memory collection hands out, as a
parameter `it` of the methods that take it, any permutation of its contents in the order asked for
(`ExternalSorter.Iterates`). A serializer reads back what it wrote from just the bytes of each object
(`BlockInput.SelfDelimiting`, which `ShortDelimitsItself` shows of one); it may pass bytes on at any time,
and passes all of them on when flushed.
The device gives fresh addresses and keeps stores in program order (`Pmem.Device`).

`dafny verify dfyconfig.toml` checks the whole project.

## Model

| member | source | states |
|---|---|---|
| XxHash.EndianAlign | native/src/xxhash.hpp:459-492 | the moving-pointer loop computes the hash defined by whole stripes, mixed lanes, length, tail and final mix |
| XxHash.SubEnding | native/src/xxhash.hpp:395-456 | the three tail loops and the final mix equal the recursive tail fold, in both widths |
| HashStream.FeedsUnique | native/src/xxhash.hpp:552-602 | the state (lanes and buffered bytes) depends only on the concatenation of what was fed in, however it was cut |
| HashStream.HashState.constructor | native/src/xxhash.hpp:624-631 | a fresh state has been fed nothing |
| HashStream.HashState.Reset | native/src/xxhash.hpp:638-646 | so has a reset one, with the new seed |
| HashStream.HashState.Update | native/src/xxhash.hpp:552-602 | a null input is refused and changes nothing; any other is appended to what was fed in, whatever was buffered |
| HashStream.HashState.GetDigest | native/src/xxhash.hpp:604-621 | the digest is a function of the seed and the bytes fed in alone, for any number of them, counted modulo 2^64; below that it is the streaming hash |
| XxHashLaws.RoundInjective | native/src/xxhash.hpp:366-373 | from one result, equal states go with equal words and unequal with unequal: a round is injective in each argument |
| XxHashLaws.AvalancheInjective | native/src/xxhash.hpp:415-419 | the final mix never maps two values to one |
| XxHashLaws.StreamIsOneShot | native/src/xxhash.hpp:459-492 | for every input the streaming digest equals the one-shot hash if and only if the input is not exactly one stripe long, or its mixed lanes happen to equal the start of a short input (the test for a short input is > in one and >= in the other) |
| XxHashLaws.TailChangeChangesHash | native/src/xxhash.hpp:399-456 | in either width two equally long inputs that differ inside one word of the tail have different hashes |
| XxHashLaws.LaneChangeChangesHash32 | native/src/xxhash.hpp:459-492 | in 32 bits so have two that differ inside one lane word of a stripe |
| XxHash32.WordLawful | native/src/xxhash.hpp:348-373 | 32-bit rotation, multiplication by each prime, xor-shift and little-endian reads all have left inverses |
| XxHash32.StreamMeetsOneShot | native/src/xxhash.hpp:604-621 | XXH32: streaming and one-shot agree exactly off 16-byte inputs, and on those just when the lanes coincide |
| XxHash32.OneStripeDiffers | native/src/xxhash.hpp:610 | the exception is real: on sixteen zero bytes they differ |
| XxHash32.SingleWordChangesNeverCollide | native/src/xxhash.hpp:399-492 | XXH32 never collides on equally long inputs of any length that differ inside one aligned 4-byte word or one of the last len % 4 bytes |
| XxHash32Answers.MulIs | native/src/xxhash.hpp:348-364 | multiplication is by the prime of that number, modulo 2^32 |
| XxHash32Answers.HashOfNothing | native/src/xxhash.hpp:459-492 | a known answer: XXH32 of no bytes is 0x02CC5D05 |
| XxHash32Answers.HashOfCounting | native/src/xxhash.hpp:395-492 | and XXH32 with seed 1 of the bytes 0 to 36, two stripes and a tail through both loops, is 0x290908E6 |
| XxHash64.WordLawful | native/src/xxhash.hpp:349-373 | the same left inverses in 64 bits |
| XxHash64.StreamMeetsOneShot | native/src/xxhash.hpp:604-621 | XXH64: they agree exactly off 32-byte inputs, and on those just when the lanes coincide |
| XxHash64.OneStripeDiffers | native/src/xxhash.hpp:610 | the exception is real in 64 bits too: on 31 zero bytes and a 1 they differ |
| XxHash64.TailChangesNeverCollide | native/src/xxhash.hpp:425-456 | XXH64 never collides on inputs that differ inside one word of the tail |
| XxHash64Answers.MulIs | native/src/xxhash.hpp:348-364 | multiplication is by the prime of that number, modulo 2^64 |
| XxHash64Answers.HashOfNothing | native/src/xxhash.hpp:459-492 | a known answer: XXH64 of no bytes is 0xEF46DB3751D8E999 |
| XxHash64Answers.HashOfCounting | native/src/xxhash.hpp:395-492 | and XXH64 with seed 1 of the bytes 0 to 76, two stripes and a tail through all three loops, is 0x559B350D2790CDFF |
| XxHash64Answers.HashOfFirstBlock | native/src/xxhash.hpp:395-456 | and XXH64 with seed 0 of the id shuffle_0_0_0, a word of eight bytes, one of four and a byte, is 0x3D4E7EFAEBC2A367 |
| PmemBuffers.WriteAppends | native/src/PmemBuffer.h:121-150 | a write that fits after one growth step appends to the unread contents, whether it moves them or not |
| PmemBuffers.WriteIsSafeIff | native/src/PmemBuffer.h:129-146 | in the int arithmetic of the source, which wraps around: the copy of a write stays inside the allocation if and only if the end of the bytes fits an int and, where the buffer has to grow, one growth step is enough and the grown capacity fits one too |
| PmemBuffers.WriteOverruns | native/src/PmemBuffer.h:129-132 | a step that is not enough: more than two growth steps' worth of bytes runs past a buffer that was never allocated |
| PmemBuffers.WriteOutgrowsInt | native/src/PmemBuffer.h:131-133 | a capacity that wraps: 50 bytes behind 2^31 - 101 unread ones overrun, although one step would be enough |
| PmemBuffers.WriteWrapsEnd | native/src/PmemBuffer.h:129 | a sum that wraps: one byte behind one unread byte at the end of the largest buffer overruns |
| PmemBuffers.LoadIsSafeIff | native/src/PmemBuffer.h:40-66 | the copies of a load stay inside the allocation if and only if the unread and the loaded bytes fit an int together |
| PmemBuffers.LoadOverruns | native/src/PmemBuffer.h:46-56 | and else not: one unread byte and 2^31 - 1 loaded ones |
| PmemBuffers.ReadTakes | native/src/PmemBuffer.h:106-119 | a read takes a prefix of the contents |
| PmemBuffers.LoadAppendsIff | native/src/PmemBuffer.h:36-75 | on the counters: a load appends, whatever the bytes are, if and only if it loads nothing, has to grow the buffer, or finds the read cursor at the front or nothing unread |
| PmemBuffers.LoadRepeats | native/src/PmemBuffer.h:45-56 | otherwise a reader sees bytes again: a concrete run of two loads and a read |
| PmemBuffers.WriteTracksIff | native/src/PmemBuffer.h:129-148 | a write keeps the flush cursor consistent if and only if it does not move the contents under a flush cursor that is ahead of the read cursor |
| PmemBuffers.FlushRepeats | native/src/PmemBuffer.h:140-141 | otherwise a byte is flushed twice: a concrete run of two writes and two flushes |
| PmemBuffers.LoadTracks | native/src/PmemBuffer.h:70-74 | a load leaves nothing to flush and the flush cursor at the end |
| PmemBuffers.ReadTracks | native/src/PmemBuffer.h:112-117 | a read past the flush cursor takes the skipped bytes off what is to be flushed |
| PmemBuffers.FlushTracks | native/src/PmemBuffer.h:95-104 | a granted flush is the front of what is to be flushed |
| PmemBuffers.FlushGrantedIff | native/src/PmemBuffer.h:95-104 | with the cursors consistent a request is granted if and only if something is unflushed and no more than that is asked for; it is given exactly the front of it, and the next one starts behind |
| PmemBuffers.StepTracks | native/src/PmemBuffer.h:95-148 | every write (moving only with the cursors together), load, read, flush and clean keeps pos <= pos_dirty and pos_dirty + remaining_dirty == pos + remaining |
| PmemBuffers.RefinesQueue | native/src/PmemBuffer.h:36-150 | every run of writes, loads, reads, flushes and cleans that keeps those conditions reads and leaves what a plain queue reads and leaves |
| PmemBuffers.FlushesInOrder | native/src/PmemBuffer.h:95-148 | in every such run the slices handed to flushes are stretches of the stream of all bytes entered, in order, none overlapping |
| PmemBuffers.PmemBuffer.constructor | native/src/PmemBuffer.h:20-27 | an empty buffer of the given capacity |
| PmemBuffers.PmemBuffer.Load | native/src/PmemBuffer.h:36-75 | the object's bytes and five counters after a load, in terms of those before |
| PmemBuffers.PmemBuffer.Read | native/src/PmemBuffer.h:106-119 | the bytes copied out are the next ones, at the offset, and nothing else in the target changes |
| PmemBuffers.PmemBuffer.Get | core/src/main/java/org/apache/spark/storage/nvm/PmemBuffer.java:40-44 | the single-byte read gives the next byte |
| PmemBuffers.PmemBuffer.Write | native/src/PmemBuffer.h:121-150 | the object's bytes and counters after any write that stays inside its allocation, by the comparisons of the source |
| PmemBuffers.PmemBuffer.GetDataForFlush | native/src/PmemBuffer.h:95-104 | refuses if and only if nothing, or less than was asked for, is unflushed; else hands out the offset of the front of it and moves on |
| PmemBuffers.PmemBuffer.Clean | native/src/PmemBuffer.h:82-93 | the unallocated empty buffer |
| Pmem.Device.TBPAlloc | native/src/memory_interface.h:16-20 | allocation gives an address not used before and changes nothing stored |
| Pmem.Device.TBPSet | native/src/pmemkv.h:110-113 | one durable word store, recorded in program order |
| Pmem.Device.TBPAdd | native/src/pmemkv.h:121-126 | a load and one durable store of the 64-bit sum |
| Pmem.Device.TBPSub | native/src/pmemkv.h:128-133 | the same for the difference, wrapping around below zero |
| PmemLog.WalkUnique | native/src/pmemkv.h:247-260 | from one head there is only one walk, so the log is well defined |
| PmemLog.WalkDistinct | native/src/pmemkv.h:247-260 | a walk never visits an entry twice, so it terminates |
| PmemLog.PutPrepares | native/src/pmemkv.h:146-151 | before that the entry is written field by field in program order: after k stores exactly its first k parts are there |
| PmemLog.PutSurvivesCrash | native/src/pmemkv.h:146-162 | cut the eight stores of put after any of them: the walk ends and sees the old log, or from the linking store on the old log with the whole new entry; tail lags by one store and bytes_written by two |
| PmemLog.PutCommits | native/src/pmemkv.h:146-162 | after all eight the root is consistent with the log extended by the entry |
| MetaIndex.AddedReflects | native/src/pmemkv.h:350-372 | the first entry of a key makes an index that reflects the log extended by it, and disturbs no other key's list |
| MetaIndex.ExtendedReflects | native/src/pmemkv.h:373-389 | so does appending a node behind the tail of an existing list |
| MetaIndex.DroppedHolds | native/src/pmemkv.h:329-342 | freeing one key's list leaves every other list intact |
| MetaIndex.Index.UpdateMeta | native/src/pmemkv.h:348-391 | the index of a log becomes the index of the log with one more entry, and bytes_allocated stays the exact size of the live nodes |
| MetaIndex.Index.FreeMeta | native/src/pmemkv.h:325-346 | frees every node and list once: nothing is left and bytes_allocated is 0, which is the source's assertion; also when called again on the empty index |
| PmemKv.FittingIsLongest | native/src/pmemkv.h:184-191 | what get copies is the longest run of leading blocks that fits |
| PmemKv.CreateRoot | native/src/pmemkv.h:307-314 | an allocated root consistent with the empty log |
| PmemKv.Kv.constructor | native/src/pmemkv.h:98-101 | a new store has an empty log and an index that reflects it |
| PmemKv.Kv.Put | native/src/pmemkv.h:135-169 | one more block under the key's hash and every other hash as before; log and index agree again; and the stores were exactly the eight of the crash theorem, in order |
| PmemKv.Kv.Get | native/src/pmemkv.h:171-194 | copies the longest whole-block prefix of the key's value that fits and nothing else; refuses an unknown key and then changes nothing |
| PmemKv.Kv.GetValueSize | native/src/pmemkv.h:196-207 | the total length of the blocks under the key, and -1 with 0 for an unknown one |
| PmemKv.Kv.GetMetaSize | native/src/pmemkv.h:229-240 | their number |
| PmemKv.Kv.GetMeta | native/src/pmemkv.h:209-227 | where each block of the key is and how long it is, in log order, with the number of words; for an unknown key the length field is left as it was, and the result is still 0 |
| PmemKv.Kv.IndexedIffStored | native/src/pmemkv.h:89-94 | a key is in the index if and only if the log has entries of it, and then its list has them in log order with the right head, total_size and length |
| PmemKv.Kv.DumpAll | native/src/pmemkv.h:242-263 | the walk ends and visits every entry of the log in order |
| PmemKv.Kv.FreeAll | native/src/pmemkv.h:278-300 | takes exactly what was written off bytes_written, so the source's assertion holds, and leaves a store equal to a fresh one |
| PmemKv.Kv.Close | native/src/pmemkv.h:320-323 | the second free_meta of the destructor is harmless |
| OutputStreams.OutputStream.Write | core/src/main/scala/org/apache/spark/storage/nvm/nvmOutputStream.scala:24-27 | an array write that fits is appended to the buffer; one that does not is refused and changes nothing |
| OutputStreams.OutputStream.WriteInt | core/src/main/scala/org/apache/spark/storage/nvm/nvmOutputStream.scala:29-32 | a single-byte write appends the four bytes of the Int |
| OutputStreams.WriteIntPads | core/src/main/scala/org/apache/spark/storage/nvm/nvmOutputStream.scala:29-32 | so the byte is preceded by three zeros |
| OutputStreams.IntBytesTell | core/src/main/scala/org/apache/spark/storage/nvm/nvmOutputStream.scala:29-32 | any Int is told by its four bytes, the highest first |
| OutputStreams.OutputStream.Flush | core/src/main/scala/org/apache/spark/storage/nvm/nvmOutputStream.scala:34-43 | stores the first bufferRemainingSize bytes of the buffer as one more block of this id, or nothing; every other id's blocks stay |
| OutputStreams.FlushStoresPendingIff | core/src/main/scala/org/apache/spark/storage/nvm/nvmOutputStream.scala:34-43 | on the counters: a flush stores the pending bytes, whatever they are, if and only if the position of the buffer is the number of bytes pending |
| OutputStreams.RunStoresIntendedIff | core/src/main/scala/org/apache/spark/storage/nvm/nvmOutputStream.scala:24-57 | a run of writes, flushes and resets stores, whatever the bytes are, just what was written between them if and only if no flush of pending bytes follows an earlier flush without a reset |
| OutputStreams.CountersAddUp | core/src/main/scala/org/apache/spark/storage/nvm/nvmOutputStream.scala:24-57 | after any write, flush or reset the bytes flushed since the last reset and those pending are together the bytes in the buffer |
| OutputStreams.FlushWithoutResetRepeats | core/src/main/scala/org/apache/spark/storage/nvm/nvmOutputStream.scala:53-57 | two flushes without a reset between them store the first byte twice |
| OutputStreams.OutputStream.Reset | core/src/main/scala/org/apache/spark/storage/nvm/nvmOutputStream.scala:53-57 | an empty buffer |
| OutputStreams.OutputStream.Close | core/src/main/scala/org/apache/spark/storage/nvm/nvmOutputStream.scala:59-66 | flushes and resets the first time, and does nothing after that |
| BlockStreams.BlockOutputStream.Write | core/src/main/scala/org/apache/spark/storage/nvm/nvmBlockOutputStream.scala:61-73 | the record goes through the serializer, is counted, and may spill; where put throws it is neither counted nor passed on; nothing under another id changes |
| BlockStreams.BlockOutputStream.MaybeSpill | core/src/main/scala/org/apache/spark/storage/nvm/nvmBlockOutputStream.scala:87-112 | forced or past the throttle: flushes, and accounts bytes, block and records when anything was stored; it fails if and only if it is forced and what the serializer holds does not fit, and then nothing changes |
| BlockStreams.BlockOutputStream.Flush | core/src/main/scala/org/apache/spark/storage/nvm/nvmBlockOutputStream.scala:80-84 | the serializer passes everything on and the stream below stores it, or put refuses and nothing changes |
| BlockStreams.BlockOutputStream.Close | core/src/main/scala/org/apache/spark/storage/nvm/nvmBlockOutputStream.scala:75-78 | closes the stream below once |
| BlockStreams.BlockOutputStream.GetPartitionMeta | core/src/main/scala/org/apache/spark/storage/nvm/nvmBlockOutputStream.scala:118-124 | entry i is an address at which block i is, its length, and recordsArray(i); computed at the first call and kept from then on; it throws if and only if recordsArray has no entry for some block |
| BlockStreams.StepKeeps | core/src/main/scala/org/apache/spark/storage/nvm/nvmBlockOutputStream.scala:61-112 | every write and every spill keeps: stored blocks, buffer and serializer together are the bytes written; sum(recordsArray) + recordsPerBlock = records; one entry of recordsArray for each block; no empty block; size is the stored bytes as an Int |
| BlockStreams.RunKeeps | core/src/main/scala/org/apache/spark/storage/nvm/nvmBlockOutputStream.scala:61-112 | so does every run of writes and spills that never overfills the buffer |
| BlockStreams.ForcedSpillStoresAll | core/src/main/scala/org/apache/spark/storage/nvm/nvmBlockOutputStream.scala:87-112 | after a last forced spill the stored blocks are the bytes written, every record is accounted to a block, and size is the number of bytes if and only if that is below 2^31 |
| BlockStreamLaws.SizeWraps | core/src/main/scala/org/apache/spark/storage/nvm/nvmBlockOutputStream.scala:94-99 | the size is wrong for real runs: 342 records of a full buffer, each forced out |
| BlockStreamLaws.SucceedsIff | core/src/main/scala/org/apache/spark/storage/nvm/nvmBlockOutputStream.scala:61-112 | without a throttle a stream that is written records and forced out overflows if and only if they do not fit the buffer together, whatever the serializer passes on when |
| BlockStreamLaws.EveryChoiceSucceedsIff | core/src/main/scala/org/apache/spark/storage/nvm/nvmBlockOutputStream.scala:61-112 | with any throttle no serializer can make it overflow if and only if they fit together |
| BlockStreamLaws.StepAlignsIff | core/src/main/scala/org/apache/spark/storage/nvm/nvmBlockOutputStream.scala:61-112 | after any step each stored block is the records that recordsArray counts for it if and only if the counters of bytes, before the step, say that it stores no block or that the serializer passes everything on |
| BlockStreamLaws.RunAlignsIff | core/src/main/scala/org/apache/spark/storage/nvm/nvmBlockOutputStream.scala:61-124 | after any run every block is the records counted for it if and only if no step of the run stored a block while the serializer held bytes back: a wrong count is never put right later |
| BlockStreamLaws.CountsAreRightIff | core/src/main/scala/org/apache/spark/storage/nvm/nvmBlockOutputStream.scala:61-124 | so for any run of a new stream, the condition being one on lengths alone |
| BlockStreamLaws.GroupedAt | core/src/main/scala/org/apache/spark/storage/nvm/nvmBlockOutputStream.scala:118-124 | entry i of recordsArray then is the number of consecutive records in block i |
| BlockStreamLaws.CountMisleads | core/src/main/scala/org/apache/spark/storage/nvm/nvmBlockOutputStream.scala:91-98 | and else it need not be: a concrete record spilled in the middle |
| InputStreams.LoadNextKeeps | core/src/main/scala/org/apache/spark/storage/nvm/nvmInputStream.scala:18-28 | loading a block moves it into the buffer behind what is unread, when the read cursor is at the front or nothing is unread |
| InputStreams.OpenLoads | core/src/main/scala/org/apache/spark/storage/nvm/nvmInputStream.scala:10-16 | a new stream holds the blocks before the first empty one, which is all of the value if and only if only empty blocks follow an empty one; with no empty block it is loaded to the end and reports exactly its length as available |
| InputStreams.OpenMisses | core/src/main/scala/org/apache/spark/storage/nvm/nvmInputStream.scala:54-60 | behind an empty block nothing is loaded and the first array read reports the end, with a byte still unread |
| InputStreams.OpenGoesOn | core/src/main/scala/org/apache/spark/storage/nvm/nvmInputStream.scala:18-40 | the next single-byte read finds that byte: the empty block has been passed |
| InputStreams.ByteEndsIff | core/src/main/scala/org/apache/spark/storage/nvm/nvmInputStream.scala:31-40 | a single-byte read returns -1 if and only if nothing is loaded and the next block is missing or empty, which it then passes; else it returns the next unread byte |
| InputStreams.RequestKeeps | core/src/main/scala/org/apache/spark/storage/nvm/nvmInputStream.scala:31-52 | no read loses, repeats or reorders a byte, loaded or not |
| InputStreams.LoadedAnswers | core/src/main/scala/org/apache/spark/storage/nvm/nvmInputStream.scala:31-52 | a loaded stream hands over what is asked for as far as it goes, and returns -1 if and only if nothing is left |
| InputStreams.ReadsInOrder | core/src/main/scala/org/apache/spark/storage/nvm/nvmInputStream.scala:31-52 | any sequence of reads, of any lengths and kinds, returns a prefix of the unread bytes in order; from a loaded stream exactly as many as are asked for and there |
| InputStreams.InputStream.constructor | core/src/main/scala/org/apache/spark/storage/nvm/nvmInputStream.scala:10-16 | the stream over the blocks stored under the id |
| InputStreams.InputStream.LoadNextStream | core/src/main/scala/org/apache/spark/storage/nvm/nvmInputStream.scala:18-28 | loads the next block from its address and returns its length, or 0 at the end |
| InputStreams.InputStream.Load | core/src/main/scala/org/apache/spark/storage/nvm/nvmInputStream.scala:54-60 | loads until len bytes are there, or a block is missing or empty |
| InputStreams.InputStream.ReadByte | core/src/main/scala/org/apache/spark/storage/nvm/nvmInputStream.scala:31-40 | the next byte, loading if needed, or -1 |
| InputStreams.InputStream.Read | core/src/main/scala/org/apache/spark/storage/nvm/nvmInputStream.scala:42-52 | copies the answer to the offset and nothing else, or returns -1 |
| BlockInput.ItemNumber | core/src/main/scala/org/apache/spark/storage/nvm/nvmBlockInputStream.scala:27-45 | call k of readNextItem returns record k while k < max(1, total_records), and null for ever after; the process ends if and only if a record is due and there is none, so with total_records 0 the first call ends it |
| BlockInput.BlockInputStream.ReadObject | core/src/main/scala/org/apache/spark/storage/nvm/nvmBlockInputStream.scala:18-19 | fetches from the stream until an object is complete, and uses up exactly its bytes |
| BlockInput.BlockInputStream.ReadNextItem | core/src/main/scala/org/apache/spark/storage/nvm/nvmBlockInputStream.scala:27-45 | two objects, the count and the closing flag |
| RoundTrips.BytesComeBack | core/src/main/scala/org/apache/spark/storage/nvm/nvmInputStream.scala:10-60 | for every run of record writes and spills on a fresh id and a last forced spill, every sequence of reads on a new input stream returns the bytes written, in order, and the end exactly behind them |
| RoundTrips.RecordsComeBack | core/src/main/scala/org/apache/spark/storage/nvm/nvmBlockInputStream.scala:22-45 | and readNextItem returns the records written, each once and in order, and then null |
| Aggregation.TotalOfPermutation | core/src/main/scala/org/apache/spark/util/collection/nvm/nvmExternalSorter.scala:255-260 | with an associative and commutative merge a key's combiner depends only on the multiset of pairs |
| Aggregation.TotalAppend | core/src/main/scala/org/apache/spark/util/collection/nvm/nvmExternalSorter.scala:208-210 | with an associative merge the combiner over two parts is the merge of the combiners over each |
| MergeSort.HashCompares | core/src/main/scala/org/apache/spark/util/collection/nvm/nvmExternalSorter.scala:35-41 | comparing by hash code orders keys as their hash codes are; it is a comparator, and a total order if and only if the hash is injective |
| MergeSort.MinimalExists | core/src/main/scala/org/apache/spark/util/collection/nvm/nvmExternalSorter.scala:227-231 | a dequeue always finds an iterator whose head is minimal |
| MergeSort.ReachesMerging | core/src/main/scala/org/apache/spark/util/collection/nvm/nvmExternalSorter.scala:232-246 | at every moment of a merge, for any breaking of ties: the heap holds sorted iterators, what was delivered is sorted and below all that is left, and nothing was lost or made up |
| MergeSort.KWayMerge | core/src/main/scala/org/apache/spark/util/collection/nvm/nvmExternalSorter.scala:223-247 | the whole output of mergeSort over any sorted iterators, empty ones included, is sorted and the multiset union of the inputs |
| MergeSort.Merger.Next | core/src/main/scala/org/apache/spark/util/collection/nvm/nvmExternalSorter.scala:235-245 | dequeues any minimal iterator, takes its head, and enqueues it again unless it is empty, so the heap only ever holds non-empty iterators; None where the source throws |
| MergeSort.Merger.Drain | core/src/main/scala/org/apache/spark/util/collection/nvm/nvmExternalSorter.scala:232-246 | the iterator ends, after exactly the remaining elements, in one of the merges of the theorem above |
| MergeAggregation.AggregatesIn | core/src/main/scala/org/apache/spark/util/collection/nvm/nvmExternalSorter.scala:255-260 | an aggregated output has a pair if and only if it is a key with the merge of all its combiners |
| MergeAggregation.GroupedAggregates | core/src/main/scala/org/apache/spark/util/collection/nvm/nvmExternalSorter.scala:285-300 | the linear search over one group gives every key of the group once, with the left-to-right merge of its combiners, even where distinct keys tie and interleave |
| MergeAggregation.GroupIsApart | core/src/main/scala/org/apache/spark/util/collection/nvm/nvmExternalSorter.scala:285 | in sorted pairs no key of a group comes again behind it |
| MergeAggregation.PartialMergeAggregates | core/src/main/scala/org/apache/spark/util/collection/nvm/nvmExternalSorter.scala:262-306 | the partial-order branch delivers each distinct key exactly once with the merge of all its combiners |
| MergeAggregation.TotalMergeAggregates | core/src/main/scala/org/apache/spark/util/collection/nvm/nvmExternalSorter.scala:307-328 | for a total order so does the other branch, with the keys strictly increasing |
| MergeAggregation.BranchesAgree | core/src/main/scala/org/apache/spark/util/collection/nvm/nvmExternalSorter.scala:262-328 | in a total order both branches deliver the same sequence of pairs |
| MergeAggregation.TotalMergeNeedsTotalOrder | core/src/main/scala/org/apache/spark/util/collection/nvm/nvmExternalSorter.scala:321 | the total-order branch delivers each key once on all sorted inputs if and only if only equal keys compare as equal |
| MergeAggregation.AggregatesAcrossIterators | core/src/main/scala/org/apache/spark/util/collection/nvm/nvmExternalSorter.scala:255-329 | across all iterators, for any breaking of ties and on either branch, each key comes out once with the merge of all its combiners |
| MergeAggregation.GroupMerger.Absorb | core/src/main/scala/org/apache/spark/util/collection/nvm/nvmExternalSorter.scala:286-299 | the foundKey loop over the buffered keys and combiners |
| MergeAggregation.GroupMerger.Next | core/src/main/scala/org/apache/spark/util/collection/nvm/nvmExternalSorter.scala:275-305 | one group of keys that tie, taken off the front |
| MergeAggregation.GroupMerger.Drain | core/src/main/scala/org/apache/spark/util/collection/nvm/nvmExternalSorter.scala:306 | the groups one behind the other are the partial-order merge |
| MergeAggregation.RunMerger.Next | core/src/main/scala/org/apache/spark/util/collection/nvm/nvmExternalSorter.scala:314-326 | one run of equal keys, merged |
| MergeAggregation.RunMerger.Drain | core/src/main/scala/org/apache/spark/util/collection/nvm/nvmExternalSorter.scala:309-327 | the runs are the total-order merge |
| PartitionIterators.OffersIff | core/src/main/scala/org/apache/spark/util/collection/nvm/nvmExternalSorter.scala:153-155 | an iterator for a partition has a next element if and only if not all of the partition was taken, and then exactly the partition was |
| PartitionIterators.SharedBuffer.Next | core/src/main/scala/org/apache/spark/util/collection/nvm/nvmExternalSorter.scala:157-164 | takes the head if it is of this partition, else refuses |
| PartitionIterators.SharedBuffer.GroupByPartition | core/src/main/scala/org/apache/spark/util/collection/nvm/nvmExternalSorter.scala:137-142 | drained in order, the iterators deliver every element once, under its own partition |
| PartitionIterators.SpillReader.LookAhead | core/src/main/scala/org/apache/spark/util/collection/nvm/nvmExternalSorter.scala:339-344 | reads the next record of the stream unless one is held, and none behind the last |
| PartitionIterators.SpillReader.HasNext | core/src/main/scala/org/apache/spark/util/collection/nvm/nvmExternalSorter.scala:338-346 | true if and only if the record looked at is of this partition; it is kept for whichever partition it belongs to |
| PartitionIterators.SpillReader.Next | core/src/main/scala/org/apache/spark/util/collection/nvm/nvmExternalSorter.scala:348-355 | the record looked at, once |
| PartitionIterators.SpillReader.Drain | core/src/main/scala/org/apache/spark/util/collection/nvm/nvmExternalSorter.scala:331-357 | drained in order, a spilled stream delivers each of its total_records records once, under its own partition, down to the stored bytes |
| ExternalSorter.TotalOfChanged | core/src/main/scala/org/apache/spark/util/collection/nvm/nvmExternalSorter.scala:86-94 | a record changes the combiner of its own key, as one more combiner would, and no other |
| ExternalSorter.IteratesIff | core/src/main/scala/org/apache/spark/util/collection/nvm/nvmExternalSorter.scala:43-49 | the order asked of the collection: by partition, and within one by the comparator if and only if there is an ordering or an aggregator |
| ExternalSorter.PlacedByPartition | core/src/main/scala/org/apache/spark/util/collection/nvm/nvmExternalSorter.scala:31-33 | on the map side stream p is extended by exactly the elements for which the partitioner names p, in order; a single stream by all |
| ExternalSorter.PlacedInRuns | core/src/main/scala/org/apache/spark/util/collection/nvm/nvmExternalSorter.scala:62-72 | off the map side a spill only adds streams; each is non-empty, of one partition, another one than the stream before it, and sorted, and together they are the elements spilled in order |
| ExternalSorter.RunKeepsMap | core/src/main/scala/org/apache/spark/util/collection/nvm/nvmExternalSorter.scala:82-125 | for every run of inserts and spills: for each key, what was spilled merged with what is in memory is the combiner of everything inserted |
| ExternalSorter.SpillScheduleIndependence | core/src/main/scala/org/apache/spark/util/collection/nvm/nvmExternalSorter.scala:58-125 | whatever was spilled when: after the last spill stream p holds exactly the keys for which the partitioner names p, and folding it gives for each of them the combiner that one run without any spill has in memory |
| ExternalSorter.RunKeepsReduce | core/src/main/scala/org/apache/spark/util/collection/nvm/nvmExternalSorter.scala:82-125 | off the map side too, for every run, nothing is lost or made up and every stream stays sorted |
| ExternalSorter.PartitionedIteratorIsRight | core/src/main/scala/org/apache/spark/util/collection/nvm/nvmExternalSorter.scala:176-219 | whatever was spilled when, on either path and for any ties: partition p is given exactly the keys for which the partitioner names p, each once with the combiner of everything inserted, or without an aggregator exactly its records; with an ordering they come sorted, and with neither in the order of the spills |
| ExternalSorter.HashSorterIsRight | core/src/main/scala/org/apache/spark/util/collection/nvm/nvmExternalSorter.scala:35-41 | so for keys compared by hash code, colliding or not, and then an aggregating sorter spills in order of hash codes |
| ExternalSorter.ExternalSortIsRight | core/src/main/scala/org/apache/spark/util/collection/nvm/nvmExternalSorter.scala:176-247 | with an ordering and one partition the output is sorted and a permutation of everything inserted |
| ExternalSorter.Sorter.SetPartitionByteBufferArray | core/src/main/scala/org/apache/spark/util/collection/nvm/nvmExternalSorter.scala:51-56 | one empty stream for each partition, and the map stage |
| ExternalSorter.Sorter.GetPartitionByteBufferArray | core/src/main/scala/org/apache/spark/util/collection/nvm/nvmExternalSorter.scala:58-73 | the partition's own stream on the map side, else a new one |
| ExternalSorter.Sorter.SpillMemoryIteratorToPmem | core/src/main/scala/org/apache/spark/util/collection/nvm/nvmExternalSorter.scala:101-125 | places every element and leaves nothing unforced in any stream |
| ExternalSorter.Sorter.MaybeSpill | core/src/main/scala/org/apache/spark/util/collection/nvm/nvmExternalSorter.scala:82-94 | spills if and only if the element is a 32nd and the estimate has reached the threshold |
| ExternalSorter.Sorter.ForceSpillToPmem | core/src/main/scala/org/apache/spark/util/collection/nvm/nvmExternalSorter.scala:75-80 | spills unconditionally |
| ExternalSorter.Sorter.Insert | core/src/main/scala/org/apache/spark/util/collection/nvm/nvmExternalSorter.scala:82-94 | one round of insertAll is an insert, followed by a spill where one is due |
| ExternalSorter.MergePartition | core/src/main/scala/org/apache/spark/util/collection/nvm/nvmExternalSorter.scala:206-217 | merges with aggregation, merges sorted, or concatenates, as configured |
| ExternalSorter.Sorter.Merge | core/src/main/scala/org/apache/spark/util/collection/nvm/nvmExternalSorter.scala:198-219 | the partitions in order, each over all spilled streams and what is in memory |
| ExternalSorter.Sorter.PartitionedIterator | core/src/main/scala/org/apache/spark/util/collection/nvm/nvmExternalSorter.scala:176-196 | takes the in-memory path if and only if nothing was spilled, and delivers what the theorems above assume |
| StoredMerge.TakeAll | core/src/main/scala/org/apache/spark/util/collection/nvm/nvmExternalSorter.scala:203-204 | one partition's iterators over all spilled streams, each read back from its stored blocks, give exactly the records of the partition and leave the later ones |
| StoredMerge.Merge | core/src/main/scala/org/apache/spark/util/collection/nvm/nvmExternalSorter.scala:198-219 | the partitions in order, each merged over the stored streams, read while they are merged, and what is in memory |
| StoredMerge.PartitionedIterator | core/src/main/scala/org/apache/spark/util/collection/nvm/nvmExternalSorter.scala:176-219 | the reduce side over stored bytes: whatever was inserted and spilled when, each partition is given each of its keys once with the combiner of everything inserted, or without an aggregator exactly its records; and sorted with an ordering |
| ShuffleWriters.ShuffleWriter.Write | core/src/main/scala/org/apache/spark/shuffle/nvm/nvmShuffleWriter.scala:79-112 | stream p gets exactly the records of partition p in the order they came, all stored under its own block id and accounted; partitionLengths(p) is their number of bytes if and only if that is below 2^31; without a throttle it fails if and only if a partition has more bytes than a stream's buffer, and with one only then |
| ShuffleWriters.PartitionSurvivesIff | core/src/main/scala/org/apache/spark/shuffle/nvm/nvmShuffleWriter.scala:79-87 | with any throttle the records of a partition are safe from overflow with every serializer if and only if they fit the buffer of its stream together |
| ShuffleWriters.ShuffleWriter.CreateStreams | core/src/main/scala/org/apache/spark/shuffle/nvm/nvmShuffleWriter.scala:53-62 | one stream for each partition, each on a block id of its own, sharing nothing but the store |
| RecordStreams.WriteTo | core/src/main/scala/org/apache/spark/shuffle/nvm/nvmShuffleWriter.scala:82-83 | a record into one stream leaves every other stream, and what it has stored, as it was |
| ShuffleWriters.ShuffleWriter.Route | core/src/main/scala/org/apache/spark/shuffle/nvm/nvmShuffleWriter.scala:79-84 | each record to the stream of its partition, while the streams of the others and their blocks on the same store stay as they are; it fails only if a partition has more bytes than a buffer |
| ShuffleWriters.ShuffleWriter.ForceAll | core/src/main/scala/org/apache/spark/shuffle/nvm/nvmShuffleWriter.scala:85-87 | every stream is forced out; without a throttle if and only if every partition fits a buffer, else if they do |
| ShuffleWriters.ShuffleWriter.CollectLengths | core/src/main/scala/org/apache/spark/shuffle/nvm/nvmShuffleWriter.scala:91-108 | the streams that spilled are listed, and only their lengths set |
| ShuffleWriters.ShuffleWriter.CloseAll | core/src/main/scala/org/apache/spark/shuffle/nvm/nvmShuffleWriter.scala:110-112 | closing stores nothing more |
| ShuffleWriters.ReducerReads | core/src/main/scala/org/apache/spark/shuffle/nvm/nvmShuffleWriter.scala:85-87 | what a reader of partition p gets is exactly those records, in order, and then null |
| ShuffleWriters.ShuffleWriter.WriteCombined | core/src/main/scala/org/apache/spark/shuffle/nvm/nvmShuffleWriter.scala:65-112 | with map-side combining, whatever the sorter spills when: stream p stores exactly the keys for which the partitioner names p, and folding what it stores of one gives the combiner that inserting everything without a spill leaves in memory; lengths as above; without a throttle it fails if and only if some combiners of one partition in a row have more bytes than a stream's buffer |
| RecordStreams.WriteHeld | core/src/main/scala/org/apache/spark/storage/nvm/nvmBlockOutputStream.scala:61-73 | a record put into a stream that can take it keeps every record written before; the stream fails only when what it has to hold exceeds its buffer |
| RecordStreams.ForceHeld | core/src/main/scala/org/apache/spark/storage/nvm/nvmBlockOutputStream.scala:87-112 | a forced spill stores everything, or fails, without a throttle exactly when what was written since the last one exceeds the buffer |
| StoredSorters.StoredSorter.GetPartitionByteBufferArray | core/src/main/scala/org/apache/spark/util/collection/nvm/nvmExternalSorter.scala:58-73 | the partition's own stream, or a new one on an id of its own, while all others and what they stored stay as they are |
| StoredSorters.StoredSorter.SpillMemoryIteratorToPmem | core/src/main/scala/org/apache/spark/util/collection/nvm/nvmExternalSorter.scala:101-125 | in bytes on the store: after a spill the streams have stored exactly what the spill on sequences places in them, on either side; without a throttle it fails if and only if some records of one partition in a row have more bytes than a buffer, and with one only then |
| StoredSorters.StoredSorter.InsertAll | core/src/main/scala/org/apache/spark/util/collection/nvm/nvmExternalSorter.scala:82-125 | so for every run of inserts and spills: the stored bytes are those of the run on sequences |
| StoredSorters.CombineOnMap | core/src/main/scala/org/apache/spark/shuffle/nvm/nvmShuffleWriter.scala:70-74 | the same on the streams of the shuffle writer, with the last forced spill |
| StoredSorters.OpenReader | core/src/main/scala/org/apache/spark/util/collection/nvm/nvmExternalSorter.scala:331-335 | a reader opened on a stored id stands before exactly the records stored there |
| StoredSorters.StoredSorter.OpenReaders | core/src/main/scala/org/apache/spark/util/collection/nvm/nvmExternalSorter.scala:201 | one reader for every stream, apart from each other |
| StoredSorters.StoredSorter.PartitionedIterator | core/src/main/scala/org/apache/spark/util/collection/nvm/nvmExternalSorter.scala:176-219 | from the store to the end: whatever was inserted and spilled when, the readers opened on the stored streams are merged so that partition p is given exactly the keys for which the partitioner names p, each once with the combiner of everything inserted, or without an aggregator exactly its records; and sorted with an ordering |
| KeyHashes.OpenStore | native/src/pmemkv.h:98-136 | a store whose keys are XXH64 of the ids with seed 0 |
| KeyHashes.KeyOfFirstBlock | native/src/pmemkv.h:136 | the key of the id shuffle_0_0_0 is its XXH64 with seed 0 |
| KeyHashes.OneByteApart | native/src/pmemkv.h:136 | ids of one length that differ in a single byte behind the last whole 32 never share a key |
| KeyHashes.DigitIdsDistinct | native/src/pmemkv.h:136 | so the ids of up to ten partitions that end in their digit do not collide in the store |
| DeviceAllocator.AlwaysBalanced | core/src/main/java/org/apache/spark/storage/nvm/PersistentMemoryMetaHandler.java:196-217 | after any n calls with one list: the mount counts sum to n, min(n, size) devices are in use, and no two listed devices are more than one apart, whichever minimum is picked |
| DeviceAllocator.AllocatesKeepsBalance | core/src/main/java/org/apache/spark/storage/nvm/PersistentMemoryMetaHandler.java:196-217 | one call keeps that |
| DeviceAllocator.NeverFails | core/src/main/java/org/apache/spark/storage/nvm/PersistentMemoryMetaHandler.java:203-206 | with a non-empty list that names no device "" no call ends the process |
| DeviceAllocator.UnusedFirst | core/src/main/java/org/apache/spark/storage/nvm/PersistentMemoryMetaHandler.java:210 | the device picked from the unused ones is the first of the list that is not in the table |
| DeviceAllocator.UnusedLeavesOut | core/src/main/java/org/apache/spark/storage/nvm/PersistentMemoryMetaHandler.java:200 | what removeAll leaves is the list at the places of the devices that are not in the table, in order |
| DeviceAllocator.MetaHandler.GetUnusedDevice | core/src/main/java/org/apache/spark/storage/nvm/PersistentMemoryMetaHandler.java:196-217 | the first listed device not in the table, else one mounted least; the list is left without the used ones; it fails only with no device or a device named "" |
| DeviceAllocator.MetaHandler.GetDeviceWithMinCount | core/src/main/java/org/apache/spark/storage/nvm/PersistentMemoryMetaHandler.java:258-268 | an entry with the smallest count, and "" for none |

## Left out

- XxHash64.TailChangesNeverCollide: a change inside one lane word is not claimed in 64 bits; merging a lane xors it into the accumulator after mixing, so equal hashes are not excluded.
- PmemBuffers.PmemBuffer.Write: takes a precondition where the source copies past its allocation, which is then undefined; `WriteIsSafeIff` says when that is.
- PmemBuffers.PmemBuffer.Load: takes a precondition for the same reason, by `LoadIsSafeIff`.
- PmemBuffers.PmemBuffer.Read: remaining_dirty, which a run with the cursors apart can drive down, is not bounded below.
- Pmem.Device.TBPAlloc: always succeeds, and so does malloc in the index; the error returns for an exhausted allocator are not modelled.
- BlockStreams.BlockOutputStream.GetPartitionMeta: the length field that its native caller allocates without setting it is taken as 0, which matters only for a stream that stored nothing.
- PmemKv.Kv.Close: the cuckoo map, its lock table and the mutexes are one finite map; puts are one at a time, since the append to the log takes no lock.
- InputStreams.InputStream.constructor: asks for a key that has blocks, since for others the length field is not set, and for fewer than 2^31 bytes, because the source narrows the size to an Int.
- BlockStreams.StepKeeps: the Int counters of records and of records per block are taken not to wrap; the Int size is modelled with its wrap-around.
- BlockStreams.BlockOutputStream.Write: what the serializer passes on for one record is one put; when an exception stops it between two puts of a record, the bytes of the first are not shown in the buffer.
- BlockInput.BlockInputStream.ReadNextItem: the exit of the process on a serializer exception is a result value.
- PartitionIterators.SpillReader.HasNext: asks for a stream of at least one record, since reading one of none ends the process (`BlockInput.ItemNumber`); every stream of the reduce side has one (`ExternalSorter.PlacedInRuns`).
- MergeSort.Merger.Next: an iterator in the heap is the sequence it still delivers; that its source is read lazily is not captured.
- ExternalSorter.Sorter.PartitionedIterator: the iterators are drained in order of partitions, as the source's comments assume; consumers that interleave them are not modelled.
- ExternalSorter.Sorter.SpillMemoryIteratorToPmem: over streams of any keys and combiners, as sequences of pairs, which cannot overflow; `StoredSorters.StoredSorter.SpillMemoryIteratorToPmem` is the same in bytes, with the overflow, where both are objects of the serializer.
- ExternalSorter.Sorter.Merge: over streams of any keys and combiners, as sequences; `StoredMerge.Merge` is the same over readers of stored blocks, where both are objects of the serializer.
- ShuffleWriters.ShuffleWriter.WriteCombined: an empty aggregator, which ends the task before anything is written, is left out; as for `Write`, the block ids must be new to the store and their hashes differ, which `KeyHashes` proves for some.
- ShuffleWriters.ShuffleWriter.Route: with a throttle a success is not characterised record by record; `PartitionSurvivesIff` says when no serializer can fail.
- StoredSorters.StoredSorter.SpillMemoryIteratorToPmem: the same holds of a spill with a throttle.
- StoredSorters.StoredSorter.PartitionedIterator: asks for streams of fewer than 2^31 bytes, as `InputStreams.InputStream.constructor` does.
- DeviceAllocator.MetaHandler.GetUnusedDevice: the file lock and SQLite are one table, its rows handed over in the order of the hash map; database failures are left out.
- Recovery on open: open() is empty in the source, although a comment mentions rebuilding the index.
- Concurrent puts and readers: the log's append is unlocked, so nothing is claimed for several writers.
- JNI glue, pointer casts and the Java native declarations: foreign calls; kept is only that a stored block is the first bytes of the direct buffer.
- Big-endian and unaligned reads and the canonical form in xxHash: reads are little-endian throughout.
- nvmManagedBuffer, PersistentMemoryHandler and nvmShuffleManager: reference counts, a singleton and wiring, which would add easy members only.
- Metrics, logging, configuration, process pinning and the native benchmark.
