# Verified model of the SKI virtual machine monitor

SKI's virtual machine monitor is derived from QEMU. This Dafny project models the parts of it whose
correctness is hard to see from one function at a time, and proves what they are for:

- **Live migration of RAM** (`RamStream`, `RamPages`, `RamLoad`, `RamMigration`, `RamSave`, `RamMigrate`). The byte
  format, the circular dirty-page scan, the staged sender and the loader, and a protocol in which a running guest
  interleaves with them. Main results: `RamMigration.DestinationEqualsSource`, and `RamMigrate.Migrate` for the
  sender's code from stage 1 to stage 3.
- **Live migration of block devices** (`BlkStream`, `BlkLoad`, `BlkProtocol`, `BlkDelivery`, `BlkSave`,
  `BlkMigrate`, `BlkInflight`, `BlkPitfalls`). Bulk and dirty reads, their asynchronous completions, the queue of
  read blocks, the stream and its loader. Main results: `BlkProtocol.DestinationEqualsSource`;
  `BlkDelivery.DeliveredExactly` and the contract of `BlkSave.BlockSender.SaveLive`, which say exactly when a stream
  delivers; and `BlkMigrate.Migrate` for the sender's code from stage 1 to stage 3.
- **AES and CBC** (`AesTables`, `AesRows`, `AesField`, `AesSbox`, `Fips197`, `Aes`, `AesExample`, `Cbc`). The
  table-driven cipher and its in-place key schedules against FIPS 197, from the S-box up, the equivalent inverse
  cipher, the examples of its appendices A and B, and the CBC mode of section 6.2 of NIST SP 800-38A. Main results:
  `Aes.KeysRoundTrip`, `Cbc.CbcRoundTrip`, and the contracts of `Aes.Encrypt`, `Aes.Decrypt` and `Cbc.CbcCrypt`.
- **Block-layer transformations** (`WriteMerge`, `Multiwrite`, `ByteAccess`, `Commit`, `DirtyBitmap`). Merging
  of write requests, completion counting, byte access over sectors, commit of an overlay, dirty tracking.
- **Bitmap scans** (`Bits`, `Bitops`, `Bitmap`). Word-level searches against a bit-sequence specification, and the
  aligned first-fit search on top of them.
- **Bottom halves** (`BhWorld`, `BottomHalf`). Re-entrant polling of a linked list with deferred deletion. `BhWorld`
  gives the meaning of calls, callbacks and nested polls on values; the methods of `BottomHalf` on the linked nodes
  are proved to follow it, and to run what is pending, for arbitrary callbacks.
- **The buffered output file** (`BufferedFile`). Conservation of the stream under partial writes, freezes and
  rate limits.

Code that updates state in place is modelled by classes and methods with loops; each method is proved against
a function or relation on values, and the properties are proved about that. A protocol is a state machine over
its steps; the class that runs it carries a ghost run of the state machine as part of its invariant, so the
theorems about runs apply to the code. `Common` holds what several modules share, `Answers` what drivers say to
requests, and `Buffers` the algebra of overwriting part of a buffer.

Where the code and what is expected of it differ, the model follows the code:

- A write request that reaches beyond the one that is merged into it loses its tail, and a gap measured from the
  shortened request may wipe it out with zeros (vmm/block.c:2344-2359). `WriteMerge.TailDropped` and
  `WriteMerge.GapWipesData` are instances. `WriteMerge.MergeMeans` says what the merged requests write to each
  sector, and `WriteMerge.MergeExact` which requests are merged without harm.
- When the backend of a buffered file answers 0 to a flush, no error is recorded and the following put may send new
  bytes ahead of buffered ones (vmm/buffered_file.c:74-172). `BufferedFile.SilentReorder` is such a run of a file
  that was just opened, and `BufferedFile.PutExact` and `BufferedFile.RunExact` say exactly when a put and a whole
  run keep the order.
- Turning dirty tracking on while it is on clears the count but not the bitmap (vmm/block.c:3031-3050).
  `DirtyBitmap.DirtyTracking.SetDirtyTracking` says exactly when the count stays right, and
  `DirtyBitmap.CountGoesStale` reaches a state in which it is not.
- The bulk phase of block migration does not mark its reads as in flight (vmm/block-migration.c:252-260), so a
  later read of the same chunk can be overtaken: `BlkPitfalls.OutOfOrderIsStale`. Which streams deliver all the
  same is `BlkDelivery.DeliveredExactly`.
- The flush of the last stage may stop at the rate limit, and the cleanup then drops the rest
  (vmm/block-migration.c:473, vmm/block-migration.c:549): `BlkPitfalls.RateLimitedStage3`. The contract of
  `BlkSave.BlockSender.SaveLive` says which blocks may be dropped without harm.
- The sums of the aligned search of bitmap.c wrap around (vmm/bitmap.c:214-237), so with all mask bits set it may
  never end (`Bitmap.SearchNeverEnds`) or return a value below its start (`Bitmap.SearchIgnoresStart`).
  `Bitmap.SearchExact` says exactly when it ends with the right answer.

## Assumptions

- RAM: blocks are disjoint, have distinct ids of at most 255 bytes without NUL, and positive page-multiple lengths;
  the block list is stable after stage 1; every guest write sets the migration dirty bit of its page
  (vmm/cpu-all.h:538).
- Block devices: device names are distinct and at most 255 bytes long, devices hold at least one sector and
  less than 2^63 bytes, and the destination has devices of the same names and sizes; a guest write sets the
  dirty bit of its chunk in the same step. Reads of one chunk sample at completion or complete in the order of
  submission.
- Drivers, clocks and rate limits are inputs: a script of answers, an oracle function, or a nondeterministic
  choice within the contract stated.

## Model

| member | source | states |
|---|---|---|
| RamStream.Be64RoundTrip | vmm/arch_init.c:386-386 | reading a big-endian 64-bit number gives back the number written |
| RamStream.BeDigit | vmm/arch_init.c:386-386 | byte i of a big-endian number of n bytes is its digit of weight 256^(n - 1 - i), so the most significant byte goes first |
| RamStream.SplitMark | vmm/arch_init.c:386-389 | the flags or-ed into a page-aligned offset, and the offset, are recovered by the masks |
| RamStream.FlagsOnWire | vmm/arch_init.c:90-95 | the first eight bytes of each kind of record are the page-aligned offset or total with the flag bits of that kind, with and without a block id, in the last byte |
| RamStream.PayloadOnWire | vmm/arch_init.c:130-156 | the length of a page or fill record is its mark, the id if there is one, and as many bytes as ram_save_block reports |
| RamStream.LoadEncodedEntries | vmm/arch_init.c:402-426 | reading back a written block list stops right after it and succeeds exactly when every block is known at its length |
| RamStream.LoadEncoded | vmm/arch_init.c:385-465 | reading back any written record has exactly that record's effect on the destination's RAM and remembered block, fails exactly when the record does, and consumes exactly its bytes |
| RamLoad.LoadEncodedSection | vmm/arch_init.c:375-468 | loading the bytes of a section applies its records in order and stops right after its end record |
| RamLoad.LoadEncodedStream | vmm/arch_init.c:375-468 | the same for a stream of whole sections; failure exactly when some record fails |
| RamLoad.RamReceiver.FindBlock | vmm/arch_init.c:366-369 | the walk over the block list finds the first block with the id, or none |
| RamLoad.RamReceiver.LoadBlockList | vmm/arch_init.c:402-426 | the loop over the header's block list accepts and consumes what the format says, with the running total wrapping as the unsigned variable does |
| RamLoad.RamReceiver.HostFromStreamOffset | vmm/arch_init.c:345-373 | a CONTINUE record uses the remembered block, any other sets it to the block of its id; unknown ids fail |
| RamLoad.RamReceiver.LoadPageRecord | vmm/arch_init.c:430-460 | a page or fill record overwrites exactly one page of the right block |
| RamLoad.RamReceiver.RamLoad | vmm/arch_init.c:375-468 | succeeds exactly when the section loads, and then leaves the RAM and the rest of the stream that the section determines |
| RamPages.NextAround | vmm/arch_init.c:161-169 | one step of the scan is one step around the pages of all blocks, wrapping at the end of the list |
| RamPages.AddrUnique | vmm/arch_init.c:171-171 | with disjoint blocks an address identifies its page, which is what ends the scan |
| RamPages.CountNone | vmm/arch_init.c:181-197 | the number of dirty pages is zero exactly when no page is dirty |
| RamPages.CountClean | vmm/arch_init.c:181-197 | cleaning one dirty page lowers the number of dirty pages by exactly one |
| RamSave.IsDupPage | vmm/arch_init.c:97-110 | comparing 32-bit words decides whether all 4096 bytes equal the given one |
| RamSave.RamSender.Scan | vmm/arch_init.c:115-171 | finds the first dirty page on the way around from the last one sent, and none exactly when no page is dirty; it ends |
| RamSave.RamSender.PutPage | vmm/arch_init.c:130-156 | writes the bytes of the page's record: fill or full page, with the block id unless the block continues; returns 1 for a fill record and the page size for a full page |
| RamSave.RamSender.SaveBlock | vmm/arch_init.c:115-177 | returns 0 exactly when no page is dirty and then changes nothing; otherwise sends the first dirty page on the way around, cleans that page only, leaves one dirty page fewer and returns the payload of the record sent |
| RamSave.RamSender.Remaining | vmm/arch_init.c:181-197 | counts the dirty pages |
| RamSave.RamSender.SetAllDirty | vmm/arch_init.c:278-287 | sets every page's dirty bit and clears none |
| RamSave.RamSender.BytesTotal | vmm/arch_init.c:209-218 | sums the lengths of the blocks |
| RamSave.RamSender.PutHeader | vmm/arch_init.c:292-298 | writes the bytes of the header record |
| RamSave.RamSender.Begin | vmm/arch_init.c:271-299 | stage 1 starts a run of the protocol with all pages dirty, the header written and the byte count at zero |
| RamSave.RamSender.Iterate | vmm/arch_init.c:304-312 | sends one page for each answer 0 of the rate limiter up to the first other answer, which it returns, or until no page is dirty; counts the bytes sent; ends for any answers |
| RamSave.RamSender.SendAll | vmm/arch_init.c:328-336 | the stage 3 loop sends exactly as many records as there are dirty pages, and ends with no page dirty |
| RamSave.RamSender.SaveLive | vmm/arch_init.c:253-343 | every stage keeps the stream the encoding of a run and the count of bytes right; a call that fails has sent pages up to the limiter's negative answer, which it returns; a successful call ends one section; stage 2 returns 1 if and only if the dirty pages left fit the allowed downtime, and 0 otherwise; after a successful stage 3 no page is dirty, and any destination that knows the blocks loads the stream into equal RAM |
| RamSave.RamSender.Guest | vmm/cpu-all.h:538-542 | a guest that marks what it writes keeps the run going |
| RamMigration.ApplyPageRecord | vmm/arch_init.c:130-176 | while sender and receiver are in step, the record of a page, with or without id, stores that page in the copy of its block |
| RamMigration.PageRecordForm | vmm/arch_init.c:130-156 | a page goes out as a fill record exactly when all of its bytes are equal, and without the id exactly when the page sent before was of the same block |
| RamMigration.StepKeepsInv | vmm/arch_init.c:115-177 | guest writes, sent pages and ends of sections keep: what was sent loads, every clean page is up to date at the destination, and the receiver's remembered block is the sender's last block |
| RamMigration.HeaderAccepted | vmm/arch_init.c:391-428 | the stage 1 header is consumed exactly, and accepted exactly when the destination has every block at the same length |
| RamMigration.EveryRunInStep | vmm/arch_init.c:253-343 | the invariant holds after every run; while nothing was sent the first page is dirty |
| RamMigration.EveryRunRefused | vmm/arch_init.c:411-423 | a destination that lacks a block, or has it at another length, fails to load every run's stream |
| RamMigration.CleanMeansEqual | vmm/arch_init.c:328-336 | in step and with no page dirty, the destination's copy of every block equals the block |
| RamMigration.DestinationEqualsSource | vmm/arch_init.c:253-343 | for every run that ends a section with no page dirty, loading the bytes succeeds exactly when the destination knows the blocks, and then makes every block equal to the guest's |
| RamSave.DeliveredAfter | vmm/arch_init.c:328-343 | the same for the bytes in the sender's output |
| RamMigrate.Migrate | vmm/arch_init.c:253-343 | stage 1, guest steps and stage 2 calls until one of them reports completion, a last guest step and stage 3: if no dirty bitmap is missing and no limiter answers negatively the migration comes to an end; then every destination that knows the blocks loads the stream into the RAM that the guest has after all of its steps, and the stream has one section for each stage |
| BlkStream.SplitSector | vmm/block-migration.c:658-661 | the sector number and the flag or-ed into its byte offset are recovered |
| BlkStream.FlagsOnWire | vmm/block-migration.c:27-29 | the first eight bytes of each kind of record are the sector or percentage with the flag of that kind in the low bits |
| BlkStream.LoadEncodedRec | vmm/block-migration.c:657-717 | reading back any written record has exactly that record's effect and consumes exactly its bytes |
| BlkLoad.LoadEncodedSection | vmm/block-migration.c:645-720 | loading the bytes of a section applies its records in order and stops right after its end record |
| BlkLoad.LoadEncodedStream | vmm/block-migration.c:645-720 | the same for a stream of whole sections |
| BlkLoad.BlockReceiver.LoadDevice | vmm/block-migration.c:663-700 | the block is written to the named device, cut at the device's end; unknown or empty devices, sectors beyond the end and writes that the driver refuses fail; remembering the previous device's length changes nothing |
| BlkLoad.BlockReceiver.BlockLoad | vmm/block-migration.c:645-720 | returns 0 exactly when the section loads and no driver refuses a write, and then leaves the devices and the rest of the stream that the section determines; otherwise it stops at the first refused write, with the driver's error |
| BlkInflight.AioBitmap.SetInflight | vmm/block-migration.c:152-172 | exactly the chunks that the sectors touch get the value: they are added to the set of marked chunks or taken out of it |
| BlkInflight.AioBitmap.Inflight | vmm/block-migration.c:140-150 | tells the bit of the sector's chunk, and no for sectors beyond the end |
| BlkProtocol.ApplyBlock | vmm/block-migration.c:686-695 | a sent block is stored in its chunk of the destination, also when the last chunk is short |
| BlkProtocol.BulkCovers | vmm/block-migration.c:222-262 | the bulk phase reads the chunk at its cursor and moves past that chunk only |
| BlkProtocol.SubmitKeepsStep | vmm/block-migration.c:252-260 | a new read makes its chunk current and disturbs no other |
| BlkProtocol.CompleteKeepsStep | vmm/block-migration.c:186-203 | a completion that respects the order of reads of its chunk keeps every clean covered chunk current, whether or not it fails |
| BlkProtocol.FlushKeepsStep | vmm/block-migration.c:480-487 | sending the head of the queue keeps every clean covered chunk current |
| BlkProtocol.SyncKeepsStep | vmm/block-migration.c:421-432 | a synchronous send with nothing queued keeps every clean covered chunk current |
| BlkProtocol.StepKeepsInv | vmm/block-migration.c:558-643 | every step keeps: what was written loads, and a clean chunk that the bulk phase has passed has as its newest outstanding or queued read a fresh one or else is up to date at the destination |
| BlkProtocol.EveryRunInStep | vmm/block-migration.c:558-643 | the invariant holds after every run |
| BlkProtocol.FinishedMeansEqual | vmm/block-migration.c:621-627 | with the bulk phase done, no dirty chunk, no read under way and no block lost, each device of the destination equals the source |
| BlkProtocol.DestinationEqualsSource | vmm/block-migration.c:558-720 | for every finished run, loading the bytes succeeds and makes every device equal to the guest's |
| BlkDelivery.Replay | vmm/block-migration.c:645-720 | replaying blocks of the sender's chunks always works, and leaves in each chunk the block written for it last |
| BlkDelivery.DeliveredExactly | vmm/block-migration.c:645-720 | every destination with the devices ends up equal to the source if and only if the last block written for each chunk exists and holds its present contents |
| BlkDelivery.RunOwnsBlocks | vmm/block-migration.c:86-100 | every run writes blocks of the sender's own chunks only |
| BlkDelivery.FlushedAll | vmm/block-migration.c:464-494 | a flush leaves nothing queued exactly when the rate limiter answers 0 for each queued block and no read failed |
| BlkDelivery.CleanIsCurrent | vmm/block-migration.c:558-643 | after every run, a clean chunk that the bulk phase has passed and that has no read under way is current in the stream |
| BlkDelivery.LastStageExact | vmm/block-migration.c:621-627 | after the last stage every chunk is current if and only if no clean chunk needed a block that was dropped |
| BlkPitfalls.OutOfOrderIsStale | vmm/block-migration.c:252-260 | a run in which a later read of a chunk completes first finishes, and some destination does not get the source's contents |
| BlkPitfalls.RateLimitedStage3 | vmm/block-migration.c:583-627 | a stage 3 call whose rate limiter answers 1 reports success with nothing dirty or outstanding, and some destination does not get the source's contents |
| BlkSave.BlockSender.Fetch | vmm/block-migration.c:252-253 | the driver puts the chunk's present contents into an outstanding read's buffer, and nothing else changes |
| BlkSave.BlockSender.ReadCb | vmm/block-migration.c:186-203 | the read moves from the outstanding ones to the end of the queue, its in-flight mark is cleared, and the counters follow |
| BlkSave.BlockSender.CompleteOne | vmm/block-migration.c:186-203 | the read that the driver picks, if the order allows it, moves to the end of the queue with its data and its outcome, and its in-flight mark is cleared |
| BlkSave.BlockSender.CompleteSome | vmm/block-migration.c:186-203 | as many reads as asked for, or all, complete between two calls; the chunks that were outstanding are the ones queued, and nothing else changes |
| BlkSave.BlockSender.AioFlush | vmm/block-migration.c:389-391 | waits until no read is outstanding or marked in flight, in any order that the driver picks; each of them is queued once with its outcome |
| BlkSave.BlockSender.SaveDeviceBulk | vmm/block-migration.c:205-270 | submits a read of the next chunk, cleans it, moves the cursor, and tells whether the device's end was reached; a refused read changes nothing but sets the error |
| BlkSave.BlockSender.SaveBulkedBlock | vmm/block-migration.c:332-368 | submits one read, for the first device that is not done, and says no exactly when all are done; a refused read changes nothing but the error |
| BlkSave.BlockSender.SendBlock | vmm/block-migration.c:86-100 | writes the bytes of the block's record |
| BlkSave.BlockSender.FlushBlks | vmm/block-migration.c:464-494 | sends queued blocks in order, up to the first non-zero answer of the rate limiter or the first failed read, and sets the error exactly in the latter case; read counters stay in balance |
| BlkSave.BlockSender.NextDirty | vmm/block-migration.c:388-437 | moves the cursor to the next dirty chunk that is not in flight, or past the end; no chunk before it is dirty; waiting for reads loses none and sends nothing |
| BlkSave.BlockSender.SendDirty | vmm/block-migration.c:421-432 | reads the chunk's present contents, sends them and cleans the chunk; if the read fails the chunk stays dirty, nothing is sent and the error is the driver's |
| BlkSave.BlockSender.SaveDeviceDirty | vmm/block-migration.c:379-447 | takes exactly the dirty chunk at the cursor, by a read that is queued and marked in flight or by sending its present contents, or says that none is left; a refused read takes none and sets the error |
| BlkSave.BlockSender.SaveDirtyBlock | vmm/block-migration.c:449-462 | takes exactly one dirty chunk, of the first device that has one, unless its read is refused, and says no only when no device has one |
| BlkSave.BlockSender.SaveAllDirty | vmm/block-migration.c:626-626 | the stage 3 loop ends and leaves no dirty chunk on any device; it writes one block for each chunk that was dirty and nothing else, each such chunk is current in the stream, the last block of every other one is unchanged, and there is a new error exactly when a read was refused |
| BlkSave.BlockSender.CleanUp | vmm/block-migration.c:534-556 | drops what is queued |
| BlkSave.BlockSender.SubmitReads | vmm/block-migration.c:593-610 | the stage 2 loop ends with enough reads under way for the rate limit, or with the bulk phase done and no dirty chunk, and no read is submitted once there are enough; what is written are the progress marks in order; it keeps the run, the read counters and the devices, loses no block, and sets the error exactly when a read was refused |
| BlkSave.BlockSender.SaveLive | vmm/block-migration.c:558-643 | every stage keeps the stream the encoding of a run; a failed read that the flush meets fails the call with -EIO; stage 2 flushes, submits reads as `SubmitReads` says, flushes again and ends the section, and returns 1 if and only if the bulk phase is done and no chunk is dirty or the dirty ones fit the downtime; stage 1 sends what is queued and ends the section; a refused read fails the call; a successful stage 3 writes one block for each dirty chunk, the 100 % record and the end, and delivers if and only if no clean chunk needs a block that the flush left queued; a negative stage drops the queue and a disabled migration only ends the section |
| BlkSave.BlockSender.EarlyStage | vmm/block-migration.c:590-642 | stages 1 and 2 after the flush: stage 2 has enough reads under way, or no chunk left to read, before it flushes again; both end the section, keep the devices and lose no block; the result is 1 if and only if stage 2 can finish |
| BlkSave.BlockSender.FinalStage | vmm/block-migration.c:621-640 | stage 3 after the flush: one block for each dirty chunk and the 100 % record, no dirty chunk and nothing queued; with no error the section is ended, and delivers if and only if no clean chunk needed what was queued; after a refused read the stream stops at the 100 % record |
| BlkSave.BlockSender.Guest | vmm/block.c:1097-1123 | a guest that marks what it writes keeps the run going |
| BlkSave.FinalExact | vmm/block-migration.c:621-640 | the bytes in the sender's output deliver if and only if no clean chunk needed what was queued when the last stage began to send |
| BlkMigrate.Migrate | vmm/block-migration.c:558-643 | stage 1, guest steps, completions and stage 2 calls until one of them reports completion, a last guest step, the wait for outstanding reads and stage 3: it comes to an end unless an error is reported or the last stage 2 call was not short enough; then the stream has one section for each stage, the devices are what the guest made of them, and unless the rate limiter stops the last flush every destination with the devices loads the stream into them |
| BlkMigrate.Round2 | vmm/block-migration.c:593-642 | one stage 2 call after completions: one more section, the same devices, nothing lost, and 1 if and only if the migration can finish |
| AesRows.EncryptionTables | vmm/aes.c:46-58 | each Te table entry is the product of the S-box value with its column of the MixColumns matrix |
| AesRows.DecryptionTables | vmm/aes.c:46-58 | each Td table entry is the product of the inverse S-box value with its column of the InvMixColumns matrix |
| AesRows.SiS | vmm/aes.c:656-721 | the inverse S-box inverts the S-box |
| AesSbox.SboxIsAffineOfInverse | vmm/aes.c:325-390 | the S-box value of x is the affine transformation of section 5.1.1 of FIPS 197 applied to a byte whose product with x in GF(2^8) is 1, or to 0 for 0 |
| AesSbox.TimesConstants | vmm/aes.c:46-58 | the products with 2, 3, 9, b, d and e that the tables hold are products of that field |
| AesField.InvMixColumnMixColumn | vmm/aes.c:46-58 | InvMixColumn inverts MixColumn on every column |
| Aes.TeRoundIsRound | vmm/aes.c:977-1036 | a round of table look-ups is SubBytes, ShiftRows, MixColumns and AddRoundKey |
| Aes.TdRoundIsRound | vmm/aes.c:1168-1227 | a round of inverse look-ups is InvSubBytes, InvShiftRows, InvMixColumns and AddRoundKey |
| Fips197.EqInvCipherInvertsCipher | vmm/aes.c:832-878 | under a key schedule reversed and transformed as in section 5.3.5 of FIPS 197 the equivalent inverse cipher inverts the cipher |
| Fips197.RotWordRotates | vmm/aes.c:758-764 | RotWord of section 5.2 of FIPS 197 is the rotation of the word by eight bits to the left |
| Fips197.ShiftRowsShifts | vmm/aes.c:977-1036 | row r of column c comes from column c + r of the state, and the inverse takes it back, byte by byte |
| Fips197.FirstDerivedWord | vmm/aes.c:757-764 | the first derived word of a schedule, byte by byte over the first and the last word of the key |
| Aes.EncryptState | vmm/aes.c:977-1067 | the two-rounds-per-iteration loop computes the Cipher of section 5.1 of FIPS 197 with exactly Nr rounds |
| Aes.DecryptState | vmm/aes.c:1168-1258 | the loop computes the equivalent inverse cipher with exactly Nr rounds |
| Aes.Encrypt | vmm/aes.c:885-1070 | 16 bytes are replaced by the block's encryption and nothing else changes, also in place |
| Aes.Decrypt | vmm/aes.c:1076-1261 | 16 bytes are replaced by the block's decryption and nothing else changes, also in place |
| Aes.DecryptInvertsEncrypt | vmm/aes.c:1076-1261 | decryption under a matching inverse schedule inverts encryption on every block |
| Aes.RconTableIsRcon | vmm/aes.c:722-726 | the table holds the round constants of section 5.2 of FIPS 197 |
| Aes.Expand128 | vmm/aes.c:757-775 | fills 44 words with KeyExpansion |
| Aes.Expand192 | vmm/aes.c:778-798 | fills 52 words with KeyExpansion |
| Aes.Expand256 | vmm/aes.c:801-824 | fills 60 words with KeyExpansion |
| Aes.FirstDerivedBytes | vmm/aes.c:743-764 | the first derived word over the bytes of the user key, for all three sizes |
| Aes.SetEncryptKey | vmm/aes.c:731-827 | rejects null pointers and sizes other than 128, 192 and 256 and then changes nothing; otherwise there are 10, 12 or 14 rounds and the key holds KeyExpansion of section 5.2 of FIPS 197, exactly 4*(Nr+1) words |
| Aes.ReverseRoundKeys | vmm/aes.c:843-856 | reverses the order of the round keys in place |
| Aes.InvertSchedule | vmm/aes.c:857-876 | applies InvMixColumn to every round key but the first and the last |
| Aes.SetDecryptKey | vmm/aes.c:832-878 | the key holds the inverse schedule of the expanded user key |
| Aes.KeysRoundTrip | vmm/aes.c:832-878 | for every key of 128, 192 or 256 bits, decryption under the decrypting schedule inverts encryption under the encrypting one |
| AesExample.KeyExample | vmm/aes.c:751-754 | the bytes of the example key, read as words |
| AesExample.CipherExample | vmm/aes.c:885-1070 | under the schedule of the example key the cipher gives the output of appendix B of FIPS 197 |
| AesExample.EncryptExample | vmm/aes.c:885-1070 | the same from bytes to bytes |
| AesExample.LongSchedule | vmm/aes.c:778-798 | the first derived words of the 192-bit key of appendix A.2 of FIPS 197 |
| AesExample.LongestSchedule | vmm/aes.c:801-824 | the first derived words of the 256-bit key of appendix A.3 of FIPS 197, the one with SubWord alone included |
| Cbc.ModeRoundTrip | vmm/aes.c:1265-1314 | decryption inverts encryption for every length, partial tail included, over any block cipher with an inverse |
| Cbc.EncryptChains | vmm/aes.c:1273-1296 | after a whole number of blocks, two chained encryptions equal one of the concatenation |
| Cbc.DecryptChains | vmm/aes.c:1297-1313 | after a whole number of blocks, two chained decryptions equal one of the concatenation |
| Cbc.EncryptIvIsLastBlock | vmm/aes.c:1282-1295 | the chaining value left behind is the last block of the ciphertext |
| Cbc.CipherBlock | vmm/aes.c:1276-1285 | block i of the ciphertext is the encryption of block i of the plaintext combined with block i - 1 of the ciphertext, or with the initial vector |
| Cbc.PlainBlock | vmm/aes.c:1297-1313 | block i of the plaintext is the decryption of block i of the ciphertext combined with block i - 1 of the ciphertext, or with the initial vector; of the last block only the part asked for |
| Cbc.PartialBlock | vmm/aes.c:1286-1295 | the last block, if partial, is filled up with the bytes of the chaining value |
| Cbc.DecryptIvIsLastBlock | vmm/aes.c:1297-1313 | the chaining value left by decryption is the last block of the ciphertext, or its decryption if only a part was asked for |
| Cbc.CbcRoundTrip | vmm/aes.c:1265-1314 | with the schedules of one user key, decryption returns the plaintext for every length |
| Cbc.EncryptBytes | vmm/aes.c:1273-1296 | output and chaining value are those of the mode, with the tail padded; input and output may be the same |
| Cbc.DecryptBytes | vmm/aes.c:1297-1313 | output and chaining value are those of the mode, writing only the given length; input and output may be the same |
| Cbc.CbcCrypt | vmm/aes.c:1265-1314 | the direction flag selects between the two |
| WriteMerge.SortRequests | vmm/block.c:2284-2299 | the array is sorted by sector and is a permutation of what it was |
| WriteMerge.Compact | vmm/block.c:2319-2370 | one request is joined to the last one kept or moved behind it, in place |
| WriteMerge.MultiwriteMerge | vmm/block.c:2301-2374 | the requests kept are those that merging the sorted requests gives |
| WriteMerge.JoinedExactly | vmm/block.c:2319-2336 | the next request adds none to those kept if and only if the pieces stay within the limit and it touches the request before it or the driver's hook approves of joining it |
| WriteMerge.GapsApproved | vmm/block.c:2330-2342 | a gap is zeroed only where a driver with a hook approved of joining the two requests, and within the limit on pieces |
| WriteMerge.NoApprovalNoZeros | vmm/block.c:2330-2342 | a driver that approves of nothing, or has no hook, gets nothing written outside the original requests |
| WriteMerge.MergeMeans | vmm/block.c:2301-2374 | the merged requests write zero in the approved gaps, what the requests kept in front wrote where a joined request was cut off and no later one covers, and what the originals write everywhere else |
| WriteMerge.MergePreserves | vmm/block.c:2284-2374 | if ends do not decrease after sorting, the merged requests leave zero in the approved gaps of every disk and, in all other sectors, what the originals in order leave |
| WriteMerge.HarmlessPreserves | vmm/block.c:2284-2374 | the condition of `MergeExact` suffices for every disk |
| WriteMerge.MergeExact | vmm/block.c:2284-2374 | every disk keeps what the originals leave outside the gaps and in all sectors that they write, if and only if zeroed gaps hit no data but zeros and every cut that no later request covers lays bare what it cut off |
| WriteMerge.NoHookNoGap | vmm/block.c:2328-2342 | without a driver hook the condition is about the cuts alone, and within the limit on scatter lists that no sector is cut off |
| WriteMerge.CutsWithinLimit | vmm/block.c:2319-2359 | within the limit on scatter lists the condition is that later requests cover every cut-off sector, or that zeros were cut off from a gap that is zeroed anyway |
| WriteMerge.TailDropped | vmm/block.c:2344-2359 | two requests of which the merged one leaves out a sector that they write |
| WriteMerge.GapWipesData | vmm/block.c:2328-2359 | three requests whose data in one sector is replaced by gap zeros |
| Multiwrite.NextKeepsInv | vmm/block.c:2253-2282 | every completion or submission keeps the count equal to what is outstanding, the dummy included, and the first error |
| Multiwrite.CallbacksExactlyOnce | vmm/block.c:2253-2282 | in every interleaving the user callbacks run exactly once, after the dummy and all submitted requests complete, with the first error |
| Multiwrite.MultiwriteCB.UserCb | vmm/block.c:2253-2262 | calls every callback once with the error |
| Multiwrite.MultiwriteCB.Cb | vmm/block.c:2264-2282 | one completion |
| Multiwrite.AioMultiwrite | vmm/block.c:2390-2476 | if the first submission fails no callback runs and all requests carry the error; otherwise the accepted requests are those before the first refusal, a refusal counts as one completion with -EIO, and the callbacks follow the run of completions |
| Multiwrite.SubmitAll | vmm/block.c:2442-2463 | submits up to the first refusal, with completions arriving in between; it has started unless the very first request was refused |
| ByteAccess.Device.Pread | vmm/block.c:1137-1180 | reads exactly the bytes at the offset and changes no other part of the buffer |
| ByteAccess.Device.Pwrite | vmm/block.c:1182-1229 | changes exactly the bytes at the offset; a failed call has written a prefix |
| ByteAccess.ReadModifyWrite | vmm/block.c:1193-1207 | writing back a sector with a changed part changes just that part |
| ByteAccess.ReadBack | vmm/block.c:1137-1229 | bytes written are read back, and bytes elsewhere are as before |
| Commit.CommitRun | vmm/block.c:924-937 | copying an allocated run extends the committed prefix |
| Commit.ViewKept | vmm/block.c:921-942 | a partly committed image looks the same through the overlay |
| Commit.ViewMoved | vmm/block.c:921-942 | a committed backing image holds the old merged view, with the overlay emptied or not |
| Commit.Overlay.CommitAll | vmm/block.c:921-942 | the guest-visible image never changes, even on failure; on success the backing holds the old merged view; without I/O errors it succeeds exactly when the backing is long enough for what is allocated; it ends |
| DirtyBitmap.CountChange | vmm/block.c:1097-1123 | changing one bit changes the number of set bits by what it changes there |
| DirtyBitmap.DirtyTracking.SetDirtyTracking | vmm/block.c:3031-3050 | on from off gives a clear bitmap of just enough words; the count equals the number of set bits afterwards exactly when tracking was off, is turned off, or nothing was dirty |
| DirtyBitmap.DirtyTracking.SetDirtyBitmap | vmm/block.c:1097-1123 | exactly the chunks that the sectors touch get the value, which adds them to the set of dirty chunks or takes them out, and the count stays the number of set bits |
| DirtyBitmap.DirtyTracking.GetDirty | vmm/block.c:3052-3063 | tells the bit of the sector's chunk, and no without tracking or beyond the end |
| DirtyBitmap.CountGoesStale | vmm/block.c:3031-3050 | tracking turned on, a write, and tracking turned on again leave a count that is not the number of set bits |
| DirtyBitmap.RangeOfSet | vmm/block.c:1097-1123 | giving a range of bits a value adds the range to the set of chunks or takes it out |
| Bitops.Ffsl | vmm/bitops.h:31-61 | the halving search finds the lowest set bit |
| Bitops.Flsl | vmm/bitops.h:69-99 | the halving search finds the highest set bit |
| Bitops.Ffz | vmm/bitops.h:107-110 | finds the lowest clear bit |
| Bitops.FindNextBit | vmm/bitops.c:21-64 | the first set bit from the offset on, or the size if there is none |
| Bitops.FindNextZeroBit | vmm/bitops.c:70-113 | the first clear bit from the offset on, or the size if there is none |
| Bitops.FindLastBit | vmm/bitops.c:115-142 | the last set bit, or the size if there is none |
| Bitmap.AlignMaskIsLeast | vmm/bitmap.c:224-224 | aligning gives the least multiple that is not smaller |
| Bitmap.FindNextZeroArea | vmm/bitmap.c:214-237 | on every input on which the search ends, the loop ends with the result that the source's unsigned arithmetic gives; it is the least aligned area, or a value above the size if there is none, if and only if `EndsRight` holds, which `SearchExact` decides |
| Bitmap.TryOnce | vmm/bitmap.c:221-235 | one pass of the search, with sums modulo 2^64 |
| Bitmap.SearchFinds | vmm/bitmap.c:214-237 | if no sum can reach 2^64 the search ends within size + 1 passes, with the least aligned index from the start on whose bits are all clear and inside the map, or a value above the size if there is none |
| Bitmap.SearchExact | vmm/bitmap.c:214-237 | on a map of at most 2^63 bits, with any mask of ones, the search ends with the right answer if and only if a mask bit of the word is clear, more bits are wanted than there are, or the start is 0 and the first bits are clear |
| Bitmap.SearchNeverEnds | vmm/bitmap.c:224-234 | with all mask bits set and one of the first wanted bits set the search goes on after any number of passes |
| Bitmap.SearchIgnoresStart | vmm/bitmap.c:224-236 | with all mask bits set and the first wanted bits clear the search returns 0 from every start |
| Bitmap.NothingWanted | vmm/bitmap.c:221-236 | if no bit is wanted the result is the first clear bit, aligned |
| Bitmap.WrappedSearchRepeats | vmm/bitmap.c:214-237 | the smallest instance of a search that never ends |
| Bitmap.LastWordMaskBits | vmm/bitmap.h:58-62 | the mask has exactly the bits of the last word that are in use |
| Bitmap.BitmapFill | vmm/bitmap.c:160-198 | exactly the bits of the range get the value |
| BottomHalf.QEMUBH.PutOnSchedule | vmm/async.c:94-110 | scheduling what is scheduled changes nothing; otherwise it becomes pending once |
| BottomHalf.QEMUBH.Unschedule | vmm/async.c:112-115 | takes a pending one off the schedule |
| BottomHalf.QEMUBH.MarkDeleted | vmm/async.c:117-121 | takes it off the schedule and only marks it |
| BottomHalf.QEMUBH.StartRun | vmm/async.c:65-71 | a pending one is taken off the schedule and run once; schedulings balance runs, cancellations and what is pending |
| BottomHalf.QEMUBH.Act | vmm/async.c:94-121 | scheduling, idle scheduling, cancelling and deleting change the three flags as their meaning on values says |
| BottomHalf.Context.TouchBh | vmm/async.c:94-121 | such a call changes that bottom half only |
| BottomHalf.Context.BhNew | vmm/async.c:44-53 | a new bottom half, idle flag and schedule clear, is put in front of the list |
| BottomHalf.Context.Do | vmm/async.c:44-121 | any call, a poll with its callbacks included, takes the linked nodes to what the call means on values |
| BottomHalf.Context.RunScript | vmm/async.c:71-71 | a callback performs all of its calls, in order |
| BottomHalf.Context.Start | vmm/async.c:66-70 | a pending one is taken off the schedule, its idle flag is cleared, and the call is recorded with its depth |
| BottomHalf.Context.Visit | vmm/async.c:64-72 | a node that is scheduled and not deleted has its callback performed, any other is passed over; tells whether it was not idle |
| BottomHalf.Context.PollLoop | vmm/async.c:63-73 | with arbitrary callbacks, nested polls included, the nodes listed at entry have their turn, newest first, and what the callbacks of those that run do is done, in that order; the saved next pointer stays a listed node, and all that was pending has run or was cancelled |
| BottomHalf.Context.Sweep | vmm/async.c:77-89 | exactly the deleted nodes are unlinked and freed, keeping the order of the rest |
| BottomHalf.Context.Collect | vmm/async.c:77-89 | the nodes that are freed are exactly the deleted ones |
| BottomHalf.Context.PollAll | vmm/async.c:55-92 | the state and the result are those of a poll on values, callbacks and nested polls included; what was listed, scheduled and not deleted at entry has run or was cancelled by exit; nodes are freed only by the outermost poll, and then exactly the deleted ones; the result tells whether a bottom half that was not idle ran |
| BottomHalf.Program | vmm/async.c:44-121 | a program over bottom halves leaves the nodes in the state that its calls mean |
| BhWorld.PollFreesNothing | vmm/async.c:75-78 | no call, callback or poll inside a poll frees a bottom half |
| BhWorld.CallbackSchedules | vmm/async.c:63-73 | a bottom half that a callback schedules after its turn stays scheduled for the next poll |
| BhWorld.IdleAndDeleted | vmm/async.c:63-89 | an idle bottom half runs without counting as progress, and one that was deleted while scheduled does not run and is freed |
| BottomHalf.UnlinkNode | vmm/async.c:80-86 | the pointer assignment removes the node from the list |
| BufferedFile.FlushConserves | vmm/buffered_file.c:74-111 | flushing neither loses, duplicates nor reorders a byte, whatever the backend answers |
| BufferedFile.PutConserves | vmm/buffered_file.c:113-172 | without a backend failure a put accepts all bytes and appends exactly them |
| BufferedFile.DirectCounts | vmm/buffered_file.c:132-155 | what goes out directly is counted against the limit of the period, and once the count is above the limit nothing goes out directly |
| BufferedFile.PutExact | vmm/buffered_file.c:113-172 | a put of n bytes appends them in order, whatever they are, if and only if the flush before it does not leave a buffered byte behind without freezing and the backend then takes a new one |
| BufferedFile.RunExact | vmm/buffered_file.c:50-264 | a run in which every put reports success has all bytes in the order of the puts, whatever they are, if and only if no put of it sends a new byte ahead of a buffered one |
| BufferedFile.SilentReorder | vmm/buffered_file.c:74-172 | a run from the opening of the file in which two puts succeed, no error is recorded, and the stream has the bytes in the wrong order |
| BufferedFile.CloseConserves | vmm/buffered_file.c:174-195 | a close without error has delivered everything, and the backend is closed in any case |
| BufferedFile.CloseWaits | vmm/buffered_file.c:181-185 | as long as the backend answers 0 or EAGAIN the closing loop goes on, delivering nothing and recording no error |
| BufferedFile.TickMeans | vmm/buffered_file.c:244-264 | a tick starts a new period and sends what is buffered unless the output is frozen, in which case it does nothing; after an error it closes |
| BufferedFile.SetLimitMeans | vmm/buffered_file.c:221-235 | the limit becomes a tenth of the rate, rounded toward zero, and nothing else changes; a rate below -9 wraps around to a limit above every signed 64-bit number; with an error on record nothing changes |
| BufferedFile.RateLimitMeans | vmm/buffered_file.c:197-219 | without an error the answer is 1 if and only if direct output would leave everything as it is |
| BufferedFile.EveryRunConserves | vmm/buffered_file.c:50-264 | in every run without a backend failure delivered bytes followed by buffered ones are all bytes put, in order, and after the close everything is delivered |
| BufferedFile.QEMUFileBuffered.Append | vmm/buffered_file.c:50-72 | the bytes are appended; the buffer is replaced exactly when it is too small, and grows by the size and 1024 |
| BufferedFile.QEMUFileBuffered.WriteOut | vmm/buffered_file.c:87-106 | the flush loop's state changes as flushing says |
| BufferedFile.QEMUFileBuffered.PutDirectly | vmm/buffered_file.c:132-155 | the direct writes of a put go as putting says |
| BufferedFile.QEMUFileBuffered.FlushBuffer | vmm/buffered_file.c:74-111 | the object's state changes as flushing says |
| BufferedFile.QEMUFileBuffered.PutBuffer | vmm/buffered_file.c:113-172 | the object's state and the result are as putting says |
| BufferedFile.QEMUFileBuffered.CloseFile | vmm/buffered_file.c:174-195 | the object's state changes as closing says, the backend is closed; the loop ends for every backend script |
| BufferedFile.QEMUFileBuffered.RateTick | vmm/buffered_file.c:244-264 | the object's state changes as a tick says |
| BufferedFile.QEMUFileBuffered.CheckRateLimit | vmm/buffered_file.c:197-219 | the error on record, 1 for a frozen output or a count above the limit, or 0 |
| BufferedFile.QEMUFileBuffered.SetRateLimit | vmm/buffered_file.c:221-235 | the object's state changes as setting the limit says, and the new limit is returned as a signed number |

## Left out

- Bitmap.SearchExact: maps of more than 2^63 bits, which fill an exbibyte, are covered by `Bitmap.FindNextZeroArea` and, as long as no sum wraps, by `Bitmap.SearchFinds`.
- RamLoad.RamReceiver.RamLoad: an offset beyond the end of its block counts as a failure, where the C code would write outside the block; a page record for an unknown block fails, where the C code would pass a null pointer on.
- RamLoad.RamReceiver.LoadPageRecord: the same two cases count as failures.
- BlkProtocol.DestinationEqualsSource: needs the destination to have the same devices at the same sizes; block_load itself checks no sizes.
- BlkSave.BlockSender.CleanUp: turning dirty tracking off and freeing the device list are not modelled; the state keeps the devices so that the stream can be compared with them.
- BlkSave.BlockSender.SaveLive: the dirty and in-flight bits are sets of chunks there; `DirtyBitmap.DirtyTracking.SetDirtyBitmap` and `BlkInflight.AioBitmap.SetInflight` say how the word arrays update those sets. A driver that refuses the same read for ever keeps the C loops going for ever; here drivers refuse finitely many.
- BufferedFile.QEMUFileBuffered.CloseFile: a backend answers with a finite script and then accepts everything; `BufferedFile.CloseWaits` shows that one that answers 0 or EAGAIN for ever keeps the loop going for ever.
- BufferedFile.QEMUFileBuffered.SetRateLimit: a size_t has 64 bits, so that the comparison with SIZE_MAX never holds.
- ByteAccess.Device.Write: a sector write that fails leaves the device unchanged.
- Multiwrite.AioMultiwrite: completions that arrive during submission come from an oracle.
- ram_load version 3, and block migration with a shared base image.
- sort_ram_list: the order of the blocks does not matter to what is proved.
- Section framing of savevm.c between the sections of a stream, and that it drops what is put after an error: `out` is what the sender hands over.
- The put_ready notification of buffered files, and what their timer is set to.
- Bandwidth and downtime estimates, progress percentages and monitor output; the estimates and percentages are inputs.
- The reopening of a read-only backing image in bdrv_commit, and the flush after it.
- Resizing of the RAM block list or of devices during a migration.
- The FULL_UNROLL variants of the AES loops, which are disabled (vmm/aes.c:42).
- The slow_bitmap predicates and logical operations of bitmap.c, and set, clear, change and test-and-set of bitops.h.
- qemu_bh_update_timeout in async.c, and the monitor, display, device and CPU code.
