# Verification model of the DATUM gateway core

This project models the parts of the DATUM gateway in which a small mistake costs blocks, payouts or
connections, and proves what they guarantee. Two smaller algorithms of the Blockvase portal are included.

* **Coinbase construction** (`Bytes`, `Buffers`, `Transactions`, `Coinbase*`, `CoinbaserParser`). The gateway
  writes each generation transaction in two halves, coinb1 and coinb2, between which a miner puts twelve
  extranonce bytes. `Transactions` is a reader and writer for the old transaction format (BIP 144,
  "Serialization"), `CoinbaseSpec` says what the two halves have to contain, and the writing code is proved to
  produce that, for all six size classes and the subsidy-only form.
* **Double-buffered queue** (`QueueProtocol`, `DatumQueue`). A transition system with any number of producers
  and one consumer, one step for each lock operation or critical section, refines a first-in first-out queue.
  The class holds the code of the critical sections on the one memory block it allocates.
* **Logger** (`LoggerArena`, `DatumLogger`). The same queue protocol, with the texts of the entries stored in an
  arena; what is printed is what was formatted.
* **DATUM session** (`SessionKeys`, `SessionFraming`, `SessionSender`, `SessionReceiver`, `SessionEndToEnd`,
  `SessionLiveness`, `SessionInbound`, `SessionBuffers`). Framed commands with a rolling header key and nonce,
  sent by many threads through one lock and a partly drained buffer, and a receiver that reassembles frames from
  arbitrary chunks. `SessionEndToEnd` is about what the gateway sends, `SessionInbound` about what the pool sends
  it, signed or not, sealed to the channel or to the key or in clear. `ShareSubmission` is about the flags that say which sections of
  a job the pool already has.
* **Client sockets** (`SlotAllocator`, `ClientSlots`, `LineReader`, `ClientBuffers`). How connections get a thread
  and a slot, how received bytes become command lines, and how bytes wait to be sent.
* **Treemap** (`Treemap`, `TreemapTiling`), over real numbers.
* **Payout reconciliation** (`PayoutReconciliation`), one automatic run and any sequence of runs.

Where the source changes state step by step, the model has classes and methods with loops; each is proved
equal to a specification function, and the theorems are about that function or the transition system it is
a step of. `dafny verify dfyconfig.toml` checks the whole project.

## Findings

* **Tag push.** The branch that removes the secondary tag subtracts its length after zeroing it
  (datum_coinbaser.c:102-105). For a primary tag of 84 bytes and a secondary one of a single byte the push
  announces 86 bytes and emits 85 (`CoinbaseScript.PushLengthExact`), so it swallows the next opcode and the
  script cannot be read to its end (`CoinbaseScript.MisreadScript`); every other script that the code emits
  reads back (`CoinbaseScript.ScriptIsThreePushesIff`).
* **Size class.** 119 fixed bytes are charged where 122 are used, or 124 from 253 outputs on; the comment beside
  the constant counts 123. A coinbase keeps to its class exactly when its payouts leave these three or five bytes
  (`CoinbaseSize.SizeClassKeptIff`). Ten payouts to P2PKH scripts can take type 1 to 503 bytes, 495 to P2SH
  scripts type 4 to 16005 (`CoinbaseSize.NicehashTypeExceeds`, `CoinbaseSize.LargeTypeExceeds`).
* **Block limits.** The same bytes are missing when a coinbase is fitted to the template, where on the other hand
  five bytes are allowed for the number of transactions and one or three are used. Where any space was found,
  a block with fewer than 252 other transactions and 253 coinbase outputs keeps the limits; a larger one can exceed
  them, by at most three bytes and twelve weight units (`CoinbaseSize.BlockFitsIff`, `BlockNearLimits`,
  `OverrunBytes`, `BlockTooHeavy`).
* **Header reassembly.** A header that arrives as one byte and then two closes the connection
  (`SessionReceiver.HeaderFailsOnOneSplit`); every other split works.
* **Thread launch.** A thread is marked active before it is created, and stays so without being counted when
  its creation fails. Once all threads are marked, a single failure at any time turns every later connection
  away, whatever room there is (`SlotAllocator.TurnedAwayInRun`, `SlotAllocator.EarlyFailureGetsStuck`).
* **Queued shares.** A share carries the slot of its job, of which there are eight. If eight newer jobs are set
  up before it is sent, it stands for a later job (`ShareSubmission.ShareNamesItsJobIff`).
* **Payout file.** The documentation of `_ensure_node_mining_payout` says that a custom address is never
  overwritten. That holds for the configuration, and for the file whenever it can be read; a file that exists
  but cannot be read counts as empty. When exactly its address is then lost, and to what, is stated by
  `PayoutReconciliation.ForeignFileLostToGeneratedIff`, `ForeignFileReplacedIff` and `ForeignFileLostToWalletIff`.
* **Logger tries.** The test that should keep the last of ten million tries from taking the lock compares with
  99999990 and is always true. It makes no difference, since a try that fails releases its lock.

## Model

| member | source | states |
|---|---|---|
| `Bytes.VarintRoundTrip` | datum_gateway/src/datum_utils.c:299-318 | reading back a variable-length integer gives the number and the rest, for every 64-bit number and whatever follows |
| `Bytes.VarintForms` | datum_gateway/src/datum_utils.c:299-318 | the four forms: the number itself, or a marker and the number in two, four or eight little-endian bytes |
| `Bytes.LERoundTrip` | datum_gateway/src/datum_utils.c:299-318 | the little-endian bytes of a number that fits give the number back |
| `Bytes.FromLERoundTrip` | datum_gateway/src/datum_protocol.c:153-155 | any bytes are the little-endian form of the number they stand for |
| `Buffers.Buffer.PutVarint` | datum_gateway/src/datum_utils.c:299-318 | appends exactly the encoding of the number to what was written |
| `Buffers.Buffer.PutLE` | datum_gateway/src/datum_coinbaser.c:252-252 | appends exactly the n low bytes, least significant first |
| `Transactions.TxRoundTrip` | datum_gateway/src/datum_coinbaser.c:183-311 | a reader for the old transaction format recovers every transaction from its bytes, and returns what follows untouched |
| `CoinbaseScript.HeightPush` | datum_gateway/src/datum_utils.c:320-353 | BIP 34: the first byte of the height push counts the bytes after it, and they are the height with its top bit clear |
| `CoinbaseScript.HeightPushShort` | datum_gateway/src/datum_utils.c:320-353 | heights below 2^23 take a push of at most four bytes |
| `CoinbaseScript.PutUNum` | datum_gateway/src/datum_utils.c:320-353 | the two loops and the correction of the count write exactly that push |
| `CoinbaseScript.PushLengthExact` | datum_gateway/src/datum_coinbaser.c:79-114 | when the code panics over its tags, and that otherwise the pushed length is the number of bytes emitted except in one case: primary tag 84, secondary tag 1 |
| `CoinbaseScript.TagLengths` | datum_gateway/src/datum_coinbaser.c:79-107 | the branches over the tag lengths give the kept secondary length and the pushed length |
| `CoinbaseScript.InputScriptFits` | datum_gateway/src/datum_coinbaser.c:62-181 | the script is at most 100 bytes and has the 0xFF placeholder where target_pot_index says |
| `CoinbaseScript.ScriptIsThreePushesIff` | datum_gateway/src/datum_coinbaser.c:62-181 | for every pair of tags without panic the script reads back as exactly three pushes (height, tags or a zero byte, entropy) if and only if the tag lengths are not 84 and 1 |
| `CoinbaseScript.MisreadScript` | datum_gateway/src/datum_coinbaser.c:102-114 | for those lengths the second push swallows the opcode of the third, and what remains cannot be read |
| `CoinbaseScript.ScriptSays` | datum_gateway/src/datum_coinbaser.c:62-181 | what the three pushes of every other script hold, read back from its bytes: the height; primary tag, 0x0F, the kept part of the secondary tag, 0x00; the placeholder, the low bytes of unique id and, with a pool or a prime id, of the prime id |
| `CoinbaseScript.EntropyAtPotIndex` | datum_gateway/src/datum_coinbaser.c:155-178 | the index of the placeholder is where the entropy begins, which ends the script |
| `CoinbaseScript.PutScript` | datum_gateway/src/datum_coinbaser.c:116-178 | the branches write exactly this script and return the placeholder index |
| `CoinbaseScript.GenerateCoinbaseInput` | datum_gateway/src/datum_coinbaser.c:62-181 | the whole function: nothing where it panics, else the script, its length and the placeholder index |
| `CoinbaseSelection.ChooseIncreases` | datum_gateway/src/datum_coinbaser.c:206-221 | the selected indices are strictly increasing and in range |
| `CoinbaseSelection.ChooseFits` | datum_gateway/src/datum_coinbaser.c:206-221 | selected outputs fit the byte budget and pay no more than the coinbase value |
| `CoinbaseSelection.ChooseIsGreedy` | datum_gateway/src/datum_coinbaser.c:206-221 | an output is selected exactly when the selection had not stopped and it fits what those before it left over |
| `CoinbaseSelection.SplitStaysInRoom` | datum_gateway/src/datum_coinbaser.c:207-214 | comparing an index with a count, the writer puts a prefix of the counted outputs into the first half, so it fits the room |
| `CoinbaseSelection.LeadIsLargest` | datum_gateway/src/datum_coinbaser.c:195-214 | the outputs counted for the first half fit there, and one more would not |
| `CoinbaserParser.ReadRecords` | datum_gateway/src/datum_coinbaser.c:779-814 | the loop keeps the longest acceptable prefix of the encoded outputs |
| `CoinbaserParser.PayoutJob.Parse` | datum_gateway/src/datum_coinbaser.c:761-821 | the whole parser, with the short and missing inputs: the job gets the longest acceptable prefix and its count |
| `CoinbaserParser.RecordFields` | datum_gateway/src/datum_coinbaser.c:787-812 | where the fields of the next record are in what is left of the message |
| `CoinbaserParser.LongestPrefix` | datum_gateway/src/datum_coinbaser.c:779-814 | no longer prefix would be acceptable |
| `CoinbaserParser.ValueTestNeverRejects` | datum_gateway/src/datum_coinbaser.c:206-221 | after parsing, the value test of the selection passes never rejects an output |
| `CoinbaseBudget.FitIsLargest` | datum_gateway/src/datum_coinbaser.c:313-340 | in the mixed-width arithmetic of the code, the space returned is the largest within size class and both limits, or zero |
| `CoinbaseBudget.WrapsAway` | datum_gateway/src/datum_coinbaser.c:319-329 | the wrapping differences give the mathematical budgets, also where they are negative |
| `CoinbaseSpec.HalvesAssemble` | datum_gateway/src/datum_coinbaser.c:183-311 | coinb1, extranonce, coinb2 are the bytes of the intended transaction and read back as it with nothing left over |
| `CoinbaseBuilder.ValueConserved` | datum_gateway/src/datum_coinbaser.c:241-304 | the outputs of every type sum to the coinbase value |
| `CoinbaseBuilder.SubsidyConserved` | datum_gateway/src/datum_utils.c:279-285 | the outputs of the subsidy-only coinbase sum to 50 coins halved once for each 210000 blocks, rounded down |
| `CoinbaseBuilder.RewardIsSubsidy` | datum_gateway/src/datum_utils.c:279-285 | for every height the reward times 2^k is at most 5000000000 and the next larger one times 2^k is more, with k the spans of 210000 blocks |
| `CoinbaseBuilder.SubsidyEnds` | datum_gateway/src/datum_utils.c:279-285 | there is no subsidy exactly from the 33rd halving on |
| `CoinbaseBuilder.PayoutsFit` | datum_gateway/src/datum_coinbaser.c:206-221 | selected payouts stay within value, budget, count and script bounds |
| `CoinbaseBuilder.CostIsSize` | datum_gateway/src/datum_coinbaser.c:202-203 | an output takes exactly the bytes the selection charges for it |
| `CoinbaseWriter.CountPass` | datum_gateway/src/datum_coinbaser.c:206-221 | the counting loop counts the selection, and as c1cnt the leading outputs that fit the first half |
| `CoinbaseWriter.WriteLoop` | datum_gateway/src/datum_coinbaser.c:242-277 | the writing loop emits exactly the counted selection, split where the index reaches c1cnt, the extranonce output at most once |
| `CoinbaseWriter.WritePass` | datum_gateway/src/datum_coinbaser.c:242-277 | the same from the starting counters of the function |
| `CoinbaseWriter.PutEnding` | datum_gateway/src/datum_coinbaser.c:289-310 | remainder or filler, witness output, lock time |
| `CoinbaseWriter.PutCount` | datum_gateway/src/datum_coinbaser.c:224-239 | the committed output count, in the half where the type needs it |
| `CoinbaseWriter.FinishCoinbase` | datum_gateway/src/datum_coinbaser.c:183-311 | both passes together leave the two halves that the plan of the type asks for |
| `CoinbaseJob.OpenCoinbase` | datum_gateway/src/datum_coinbaser.c:543-599 | the common start of a first half |
| `CoinbaseJob.EmptySecond` | datum_gateway/src/datum_coinbaser.c:644-671 | the second half of the empty type |
| `CoinbaseJob.CopyFirst` | datum_gateway/src/datum_coinbaser.c:619-640 | the subsidy-only first half is the empty one with its output count replaced |
| `CoinbaseJob.CopySecond` | datum_gateway/src/datum_coinbaser.c:666-671 | the subsidy-only second half pays the block reward and has no witness output |
| `CoinbaseJob.BuildEmpty` | datum_gateway/src/datum_coinbaser.c:354-459 | type 0 and, where wanted, the subsidy-only coinbase: all of the base form, and the same code at lines 601-671 |
| `CoinbaseJob.BuildFull` | datum_gateway/src/datum_coinbaser.c:686-726 | a type with payouts is the plan of its size class |
| `CoinbaseJob.BuildTypes` | datum_gateway/src/datum_coinbaser.c:676-727 | all types, copies of the empty one where there are no payouts |
| `CoinbaseJob.GenerateCoinbases` | datum_gateway/src/datum_coinbaser.c:501-759 | all coinbases of a job are the halves of their plans; with every extranonce each is one transaction whose outputs are the selected payouts, the remainder and the witness commitment; target_pot_index is 42 plus the index in the script; nothing exactly where the tags make the code panic |
| `CoinbaseJob.EveryTypeIsOneTransaction` | datum_gateway/src/datum_coinbaser.c:501-759 | for every job, type and extranonce: one complete generation transaction, no byte left over, one null outpoint, final sequence, outputs summing to the coinbase value and paying what they should |
| `CoinbaseJob.SubsidyIsOneTransaction` | datum_gateway/src/datum_coinbaser.c:342-499 | the same of the subsidy-only coinbase: one output to the pool, of the subsidy |
| `CoinbaseOutputs.TypePaysRight` | datum_gateway/src/datum_coinbaser.c:241-310 | read back, the last output is the witness commitment, the one before it the remainder to the pool or the filler (everything to the pool without payouts), the others are the selected payouts in order, with the extranonce output in its place where the extranonce is not in the script |
| `CoinbaseOutputs.SubsidyPaysRight` | datum_gateway/src/datum_coinbaser.c:619-671 | read back, the subsidy-only coinbase pays the subsidy to the pool and nothing else |
| `CoinbaseOutputs.FirstCountInPlace` | datum_gateway/src/datum_coinbaser.c:195-265 | the extranonce output of the split variant follows the payouts with an index below the number that fit into the first 150 bytes |
| `CoinbaseOutputs.SelectedIsGreedy` | datum_gateway/src/datum_coinbaser.c:206-221 | which outputs of the job are paid, each by what those selected before it left over |
| `CoinbaseOutputs.BudgetIsLargest` | datum_gateway/src/datum_coinbaser.c:688-726 | for the five sizes 500, 755, 6500, 16000 and 2250: the budget is the largest that keeps size and template limits, with 119 fixed bytes charged |
| `CoinbaseJob.PotIndexIsRight` | datum_gateway/src/datum_coinbaser.c:376-395 | target_pot_index points at the placeholder in coinb1 of every type, where the entropy of the script begins |
| `CoinbaseJob.SplitFirstHalfFits` | datum_gateway/src/datum_coinbaser.c:195-214 | in the split variant the first half keeps its 150 bytes up to count and extranonce output |
| `CoinbaseJob.FullSize` | datum_gateway/src/datum_coinbaser.c:686-706 | the exact number of bytes of a coinbase with payouts |
| `CoinbaseJob.SizeClassKept` | datum_gateway/src/datum_coinbaser.c:686-726 | a coinbase exceeds its size class by at most five bytes |
| `CoinbaseSize.HalvesFitBuffers` | datum_gateway/src/datum_coinbaser.c:354-395 | the halves of every type fit the buffers of the job |
| `CoinbaseSize.ExactSize` | datum_gateway/src/datum_coinbaser.c:183-311 | the size of every coinbase with payouts: what is charged for it, its payouts and the bytes not charged, in all types, with remainder or filler |
| `CoinbaseSize.UnchargedBytes` | datum_gateway/src/datum_coinbaser.c:686-706 | with a remainder for the pool three bytes are not charged, or five from 253 outputs on, which only types 3 and 4 have room for |
| `CoinbaseSize.SizeClassKeptIff` | datum_gateway/src/datum_coinbaser.c:702-726 | a coinbase keeps to its size class if and only if its payouts leave room for the bytes not charged |
| `CoinbaseSize.ChooseAll` | datum_gateway/src/datum_coinbaser.c:206-221 | outputs of equal cost that together take the whole budget are all selected |
| `CoinbaseSize.NicehashTypeExceeds` | datum_gateway/src/datum_coinbaser.c:708-710 | a job whose coinbase of type 1 has 503 bytes |
| `CoinbaseSize.LargeTypeExceeds` | datum_gateway/src/datum_coinbaser.c:716-718 | a job whose coinbase of type 4 has 16005 bytes |
| `CoinbaseSize.BlockFitsIff` | datum_gateway/src/datum_stratum.c:2168-2190 | a block with this coinbase keeps the size and weight limits of its template if and only if payouts and overrun fit into the weight left over |
| `CoinbaseSize.OverrunBytes` | datum_gateway/src/datum_coinbaser.c:319-326 | by how many bytes a block is larger than what is allowed for: minus one, one or three, by the numbers of outputs and transactions |
| `CoinbaseSize.BlockNearLimits` | datum_gateway/src/datum_coinbaser.c:313-340 | where any space is given, a block exceeds the limits by no more than its overrun, and keeps them where that is not positive |
| `CoinbaseSize.BlockTooHeavy` | datum_gateway/src/datum_coinbaser.c:325-329 | a full template with a thousand other transactions and a coinbase of 60 payouts: a block four units above the weight limit |
| `QueueProtocol.StepRefinesFifo` | datum_gateway/src/datum_queue.c:126-252 | every step keeps the invariant and is a step of an unbounded first-in first-out queue |
| `QueueProtocol.RunInv` | datum_gateway/src/datum_queue.c:126-252 | the invariant holds in every state of every interleaving |
| `QueueProtocol.QueueIsFifo` | datum_gateway/src/datum_queue.c:126-252 | over every run, successful additions in order are what was handled followed by what is pending |
| `QueueProtocol.DrainedMeansAllHandled` | datum_gateway/src/datum_queue.c:196-202 | at rest with an empty active half, everything added was handled |
| `QueueProtocol.ProcessHandlesAll` | datum_gateway/src/datum_queue.c:177-252 | a call of the consumer that has returned handled everything added before it looked, whatever the producers did meanwhile |
| `QueueProtocol.AttemptOutcome` | datum_gateway/src/datum_queue.c:146-172 | what comes of an attempt: it fails exactly if a swap completed since the snapshot, else the item is added exactly if the half admits it |
| `QueueProtocol.DatumQueueAdmits` | datum_gateway/src/datum_queue.c:133-172 | in datum_queue.c the number of entries alone decides, and giving up takes 9999999 failed tries |
| `QueueProtocol.StampDetectsSwap` | datum_gateway/src/datum_queue.c:145-154 | a stale stamp means exactly that a swap completed since the snapshot |
| `QueueProtocol.GiveUpNeedsManySwaps` | datum_gateway/src/datum_queue.c:133-164 | giving up takes a completed swap for each attempt |
| `QueueProtocol.ResetDiscardsNothing` | datum_gateway/src/datum_queue.c:230-231 | the reset of the offline half's count discards nothing |
| `QueueProtocol.NoDeadlock` | datum_gateway/src/datum_queue.c:126-252 | while a thread is inside an operation some thread inside one can move |
| `DatumQueues.DatumQueue.Prep` | datum_gateway/src/datum_queue.c:85-122 | an empty queue with stamps 0 and 10 |
| `DatumQueues.DatumQueue.AddUnderLock` | datum_gateway/src/datum_queue.c:146-172 | stale, overflow or stored, and the shared memory afterwards is the protocol's |
| `DatumQueues.DatumQueue.SwapUnderLocks` | datum_gateway/src/datum_queue.c:214-231 | the two stamps, the published version, the swap, as in the protocol |
| `DatumQueues.DatumQueue.DrainUnderLock` | datum_gateway/src/datum_queue.c:239-249 | every item of the half is handled once, in order, and the half is empty afterwards |
| `DatumQueues.DatumQueue.Process` | datum_gateway/src/datum_queue.c:177-252 | the whole function without interference |
| `SessionKeys.XorTwice` | datum_gateway/src/datum_protocol.c:153-155 | hiding a word twice with the same key gives it back |
| `SessionKeys.PreviousOfNext` | datum_gateway/src/datum_protocol.c:157-174 | the feedback has this inverse: each key is computed back from its successor |
| `SessionKeys.FeedbackInjective` | datum_gateway/src/datum_protocol.c:157-174 | different keys have different successors |
| `SessionKeys.KeyChainsStayApart` | datum_gateway/src/datum_protocol.c:157-174 | key chains from different keys differ at every place |
| `SessionKeys.KeyAfter` | datum_gateway/src/datum_protocol.c:248-249 | the next key of a chain is the feedback of the last one |
| `SessionKeys.RunCarry` | datum_gateway/src/datum_protocol.c:1094-1107 | the loop with its early return carries exactly as far as limbs wrap |
| `SessionKeys.CarriedIsPlusOne` | datum_gateway/src/datum_protocol.c:1094-1107 | that carry is plus one modulo the range of the limbs |
| `SessionKeys.IncrementNonce` | datum_gateway/src/datum_protocol.c:1094-1107 | the nonce is counted up by one modulo 2^192 |
| `SessionFraming.PackRoundTrip` | datum_gateway/src/datum_protocol.h:61-68 | the bit fields of a header come back from its 32 bits |
| `SessionFraming.HeaderBits` | datum_gateway/src/datum_protocol.h:61-68 | the bit positions of the six fields |
| `SessionFraming.HeaderRoundTrip` | datum_gateway/src/datum_protocol.c:247-248 | a hidden header is shown again by the same key |
| `SessionFraming.HeaderOnWire` | datum_gateway/src/datum_protocol.c:153-155 | the four bytes on the wire are the little-endian header word, exclusive-or the key |
| `SessionFraming.ShownHeaderHides` | datum_gateway/src/datum_protocol.c:1773-1773 | any four bytes are the hidden form of the header they show |
| `SessionFraming.StreamAppend` | datum_gateway/src/datum_protocol.c:228-265 | one more frame goes to the end of the stream, under the next key |
| `SessionFraming.ParseStream` | datum_gateway/src/datum_protocol.c:1718-1853 | parsing undoes framing, whatever follows |
| `SessionFraming.ParseMonotone` | datum_gateway/src/datum_protocol.c:1718-1853 | more bytes never change the frames already complete |
| `SessionFraming.PrefixOfStream` | datum_gateway/src/datum_protocol.c:1718-1853 | the frames of any prefix of a stream are a prefix of the frames sent |
| `SessionSender.StepInv` | datum_gateway/src/datum_protocol.c:207-265 | every step of any number of sending threads and of the drain keeps: sent, buffered and owed bytes are the stream of all messages, key and nonce are the next ones |
| `SessionSender.RunInv` | datum_gateway/src/datum_protocol.c:207-265 | so in every state of every run |
| `SessionSender.WireIsTheStream` | datum_gateway/src/datum_protocol.c:228-265 | in a run without refusal the wire is a prefix of the stream of the messages in lock order, the n-th under the n-th key and nonce plus n; all of it once the buffer is empty |
| `SessionSender.RefusedOnlyWithoutRoom` | datum_gateway/src/datum_protocol.c:210-213 | a message that has room when sealed is not refused later |
| `SessionSender.CallAloneSends` | datum_gateway/src/datum_protocol.c:228-265 | one call by itself: what it adds to the buffer and how key and nonce go on, with and without room |
| `SessionSender.MiningHeaderBits` | datum_gateway/src/datum_protocol.c:236-247 | the header word of a mining command: length with authentication code, channel flag, command 5 |
| `SessionSender.PutOutcome` | datum_gateway/src/datum_protocol.c:207-265 | what a thread does after putting header or body: it goes on or returns success exactly if there was room |
| `SessionReceiver.EventTracks` | datum_gateway/src/datum_protocol.c:1718-1853 | one readable event takes bytes from the front and completes at most one frame |
| `SessionReceiver.RunTracks` | datum_gateway/src/datum_protocol.c:1718-1853 | a receiver still connected tracks exactly the bytes it took |
| `SessionReceiver.ReceiverRefinesParser` | datum_gateway/src/datum_protocol.c:1718-1853 | for every chunking the frames handed on are a prefix of the reference parse, one key for each, behind only by a bodiless frame |
| `SessionReceiver.HeaderFailsOnOneSplit` | datum_gateway/src/datum_protocol.c:1724-1748 | putting a header together fails exactly on one byte, then two |
| `SessionReceiver.EventProgress` | datum_gateway/src/datum_protocol.c:1718-1853 | an event that finds bytes takes some, but for the decoding of a header without body |
| `SessionEndToEnd.OpenSealed` | datum_gateway/src/datum_protocol.c:1109-1125 | opening undoes sealing, message by message |
| `SessionEndToEnd.SessionDelivers` | datum_gateway/src/datum_protocol.c:228-265 | end to end: a peer that stays connected has a prefix of exactly the messages sealed, in lock order; all of them once everything was sent and taken |
| `SessionLiveness.EventLives` | datum_gateway/src/datum_protocol.c:1718-1853 | on the bytes of frames that open only the bad split or a handler closes the connection |
| `SessionLiveness.ReceiverLives` | datum_gateway/src/datum_protocol.c:1718-1853 | so a receiver that meets neither stays connected through every run |
| `SessionEndToEnd.StaysConnected` | datum_gateway/src/datum_protocol.c:1718-1853 | so does a peer on what the gateway sends |
| `SessionInbound.LetterOpens` | datum_gateway/src/datum_protocol.c:1189-1232 | a letter of the pool, sealed to the channel, sealed to the key or in clear, opens to exactly its data, if and only if its signature is good where it has one; the nonce goes on for the channel only |
| `SessionInbound.OpensOnly` | datum_gateway/src/datum_protocol.c:1189-1232 | conversely a frame opens only to what it carries, with a good signature of its last 64 bytes over the rest where the header says so |
| `SessionInbound.LetterReceived` | datum_gateway/src/datum_protocol.c:1718-1853 | the same of a whole letter that arrives in one event: handed on or connection closed |
| `SessionInbound.LettersDelivered` | datum_gateway/src/datum_protocol.c:1718-1853 | for every chunking of any number of letters of all kinds, a gateway still connected has handed on exactly the data of a prefix of them, in order, and its nonce is the next one |
| `SessionInbound.GatewayStaysConnected` | datum_gateway/src/datum_protocol.c:1718-1853 | and it stays connected unless a header arrives in the bad split or a handler ends it |
| `SessionBuffers.SendSide.CharsToServer` | datum_gateway/src/datum_protocol.c:207-226 | nothing, refusal or the bytes appended |
| `SessionBuffers.SendSide.Drained` | datum_gateway/src/datum_protocol.c:1633-1644 | what the socket took leaves the front of the buffer, the rest stays in order |
| `SessionBuffers.SendSide.MiningCmd` | datum_gateway/src/datum_protocol.c:228-265 | key and nonce go on in any case, the buffer gets the whole frame, or with too little room the header only or nothing |
| `SessionBuffers.ReceiveSide.Decrypt` | datum_gateway/src/datum_protocol.c:1192-1211 | the two ways of opening, as the header says, and the nonce counted up |
| `SessionBuffers.ReceiveSide.ServerMsg` | datum_gateway/src/datum_protocol.c:1189-1252 | opening, signature check, stripping and dispatch, as the state machine says |
| `SessionBuffers.ReceiveSide.OnReadable` | datum_gateway/src/datum_protocol.c:1718-1853 | the switch with its fall-throughs is one event of the state machine |
| `ShareSubmission.EveryShareIsUnderstood` | datum_gateway/src/datum_protocol.c:1314-1443 | over every run of job changes, reconnects and shares, each share comes with or after the branches and coinbase of the job its slot holds, the latest sent for that slot |
| `ShareSubmission.ShareSentIff` | datum_gateway/src/datum_protocol.c:1324-1362 | for every table and share: exactly one message is sent if and only if the slot holds a job and the share is not a subsidy-only one with an id above 7 other than 0xFF; it names the slot and the coinbase of the share, and no job changes |
| `ShareSubmission.ShareNamesItsJobIff` | datum_gateway/src/datum_protocol.c:127-151 | a share waiting in the queue is sent for the job it was made for if and only if fewer than eight jobs were set up in between |
| `ShareSubmission.HolderInRun` | datum_gateway/src/datum_protocol.c:127-151 | which job a slot holds at any later time, by the number of jobs set up since |
| `ShareSubmission.SendsExactlyWhatIsMissing` | datum_gateway/src/datum_protocol.c:1364-1430 | a section is sent exactly when the pool does not have it, the branches first |
| `ShareSubmission.SubmitInv` | datum_gateway/src/datum_protocol.c:1356-1443 | after a share the flags say exactly what the pool has, and the pool understands the share |
| `ShareSubmission.AssignInv` | datum_gateway/src/datum_protocol.c:127-151 | a new job in a slot starts with right flags |
| `ShareSubmission.ReconnectInv` | datum_gateway/src/datum_protocol.c:1482-1492 | a new session starts with right flags |
| `ShareSubmission.JobTable.SetupNewJobIdx` | datum_gateway/src/datum_protocol.c:127-151 | round robin over eight slots, flags cleared |
| `ShareSubmission.JobTable.StartSession` | datum_gateway/src/datum_protocol.c:1482-1492 | all flags of all slots are cleared, the jobs stay |
| `ShareSubmission.JobTable.SubmitPow` | datum_gateway/src/datum_protocol.c:1314-1443 | the sections sent and the flags set, with the two early returns |
| `SlotAllocator.ProbeFinds` | datum_gateway/src/datum_sockets.c:516-537 | the probe ends at the nearest free slot after the taken one, or shows there is none |
| `SlotAllocator.TakenOk` | datum_gateway/src/datum_sockets.c:476-551 | taking a slot keeps count and next index right and gives the client a free slot |
| `SlotAllocator.ReleasedOk` | datum_gateway/src/datum_sockets.h:176-189 | giving a slot back keeps them right and touches no other slot |
| `SlotAllocator.LeastIsLeast` | datum_gateway/src/datum_sockets.c:454-463 | the thread picked has room and the fewest clients |
| `SlotAllocator.StepInv` | datum_gateway/src/datum_sockets.c:400-551 | every step of choosing, taking and releasing keeps the invariant |
| `SlotAllocator.RunInv` | datum_gateway/src/datum_sockets.c:400-551 | so it holds in every run |
| `SlotAllocator.RecoveryIsDead` | datum_gateway/src/datum_sockets.c:484-514 | the full-thread test and the search for a lost slot never do anything; the new client gets a slot of its own |
| `SlotAllocator.NeverTooManyClients` | datum_gateway/src/datum_sockets.c:413-474 | total clients never exceed max_clients, or max_threads where that is larger |
| `SlotAllocator.TurnedAwayIff` | datum_gateway/src/datum_sockets.c:413-474 | when a connection is turned away, in every phase: with too few threads counted exactly if its launch fails or no thread is unmarked, else exactly if all are full or the total is reached |
| `SlotAllocator.ChosenThread` | datum_gateway/src/datum_sockets.c:413-474 | who serves a connection: the first thread never marked, emptied, or the first of those with fewest clients; no other thread changes |
| `SlotAllocator.LaunchesAddUp` | datum_gateway/src/datum_sockets.c:420-442 | in every run the threads marked active are those counted and those whose launch failed |
| `SlotAllocator.StuckIffALaunchFailed` | datum_gateway/src/datum_sockets.c:420-442 | a run at rest has all threads marked and too few counted exactly if all are marked and any launch failed, whichever |
| `SlotAllocator.TurnedAwayInRun` | datum_gateway/src/datum_sockets.c:413-474 | over every run: until all threads are marked a connection is turned away exactly if its own launch fails, then exactly if any launch ever failed, or all are full, or the total is reached |
| `SlotAllocator.FailedLaunchIsFinal` | datum_gateway/src/datum_sockets.c:413-443 | from the stuck state no step leads to accepting a connection |
| `SlotAllocator.StuckForever` | datum_gateway/src/datum_sockets.c:413-443 | so a run stays stuck for ever, whatever clients leave |
| `SlotAllocator.EarlyFailureGetsStuck` | datum_gateway/src/datum_sockets.c:436-442 | a run that gets there with the launch of the first of two threads failing and that of the second succeeding |
| `ClientSlots.SocketApp.CleanThreadData` | datum_gateway/src/datum_sockets.c:367-398 | all slots and counters of a thread are reset |
| `ClientSlots.SocketApp.FindInactive` | datum_gateway/src/datum_sockets.c:420-426 | the first thread never launched |
| `ClientSlots.SocketApp.FindLeast` | datum_gateway/src/datum_sockets.c:454-463 | the first least loaded thread with room, and the total |
| `ClientSlots.SocketApp.ChooseThread` | datum_gateway/src/datum_sockets.c:413-474 | launch, pick or turn away |
| `ClientSlots.SocketApp.TakeSlot` | datum_gateway/src/datum_sockets.c:476-551 | the slot at next is taken and the probe loop terminates with the next one |
| `ClientSlots.SocketApp.AssignToThread` | datum_gateway/src/datum_sockets.c:400-551 | the whole function keeps the invariant |
| `ClientSlots.SocketApp.ClientLeft` | datum_gateway/src/datum_sockets.h:176-189 | the release half keeps it too |
| `LineReader.LinesJoin` | datum_gateway/src/datum_sockets.c:268-314 | lines with their newlines and the tail are the stream |
| `LineReader.LinesHaveNoNewline` | datum_gateway/src/datum_sockets.c:268-314 | no line contains a newline |
| `LineReader.LinesConcat` | datum_gateway/src/datum_sockets.c:268-314 | lines do not depend on where a stream is cut |
| `LineReader.ChunkReaches` | datum_gateway/src/datum_sockets.c:246-339 | one recv leads from the state for a stream to the state for the longer one |
| `LineReader.ChunkingDoesNotMatter` | datum_gateway/src/datum_sockets.c:246-339 | for every chunking the lines handed over are those of the stream until a close, the tail is in the buffer, and a close without the handler's wish means the tail filled the buffer |
| `LineReader.CommandsOfAStream` | datum_gateway/src/datum_sockets.c:246-339 | for bytes without NUL and a handler that keeps its client: exactly the lines of the stream, less leading PROXY lines where trusted |
| `LineReader.HandlerGetsEveryLine` | datum_gateway/src/datum_sockets.c:273-297 | all lines in order, less the PROXY lines at the start, however many; these are counted until the first command |
| `LineReader.ProxyLineBegins` | datum_gateway/src/datum_sockets.c:273-274 | a PROXY line is one that begins with these six characters |
| `LineReader.ClosedByLastLine` | datum_gateway/src/datum_sockets.c:299-311 | a handler that closes has refused the last line handed over |
| `ClientBuffers.ClientData.FindNewline` | datum_gateway/src/datum_sockets.c:269-269 | strchr: the first newline before the terminator |
| `ClientBuffers.NewlineAtIs` | datum_gateway/src/datum_sockets.c:269-269 | that is the first newline from there on, before any NUL, or there is none |
| `ClientBuffers.ClientData.TakeLine` | datum_gateway/src/datum_sockets.c:273-311 | one line: skipped, or handed over |
| `ClientBuffers.ClientData.TakeLines` | datum_gateway/src/datum_sockets.c:268-314 | the loop handles the lines of the buffered text and stops at the tail or the refusal |
| `ClientBuffers.ClientData.MoveRest` | datum_gateway/src/datum_sockets.c:316-326 | the tail moves to the front |
| `ClientBuffers.ClientData.OnReceived` | datum_gateway/src/datum_sockets.c:264-339 | all of it is one chunk of the reader |
| `ClientBuffers.ClientData.SendChars` | datum_gateway/src/datum_sockets.c:805-823 | refused, or behind everything accepted before; sent and buffered bytes together are what was accepted |
| `ClientBuffers.ClientData.Drained` | datum_gateway/src/datum_sockets.c:206-217 | what the socket took leaves the front; the same still holds |
| `LoggerArena.WriteHolds` | datum_gateway/src/datum_logger.c:195-234 | storing a text leaves all counted texts of both halves intact, and adds it exactly if it fits |
| `LoggerArena.ClipKeeps` | datum_gateway/src/datum_logger.c:204-210 | a text loses only what is beyond its first 1022 bytes |
| `LoggerArena.LoggerAdmits` | datum_gateway/src/datum_logger.c:160-216 | a line is logged exactly if its half has an entry and room for it and two bytes; giving up takes ten million failed tries |
| `LoggerArena.ReadsTheLine` | datum_gateway/src/datum_logger.c:350-361 | the C string an entry points to is the text formatted for it |
| `LoggerArena.TextsAreDisjoint` | datum_gateway/src/datum_logger.c:195-234 | texts of different entries never overlap and stay in their half |
| `LoggerArena.OverrunStaysInItsHalf` | datum_gateway/src/datum_logger.c:215-231 | even a text that does not fit stays in the over-allocated half, and the halves fill the allocation |
| `LoggerArena.LogStep` | datum_gateway/src/datum_logger.c:208-234 | the byte test agrees with the queue of texts; what does not fit is never exposed |
| `LoggerArena.StepInv` | datum_gateway/src/datum_logger.c:157-379 | every step keeps texts and pointers right and is a step of the queue of texts |
| `LoggerArena.RunIsQueueRun` | datum_gateway/src/datum_logger.c:157-379 | a run of the logger is a run of the queue protocol |
| `LoggerArena.WrittenAsFormatted` | datum_gateway/src/datum_logger.c:157-379 | over every interleaving, what was printed followed by what waits is what was logged, in order, byte for byte |
| `DatumLogger.LogMemory.StoreUnderLock` | datum_gateway/src/datum_logger.c:188-235 | full, overrun or logged; pointers, text, clamp and bump |
| `DatumLogger.LogMemory.DrainUnderLock` | datum_gateway/src/datum_logger.c:350-379 | each entry's text is printed, then the half is empty |
| `Treemap.Reduce` | static/display.js:788-788 | the accumulated total of the weights |
| `Treemap.LayoutTreemapRec` | static/display.js:779-814 | the recursion pushes exactly the layout behind what the result held |
| `Treemap.LayoutTreemap` | static/display.js:816-829 | normalizing, layout and percentages |
| `Treemap.SplitIsFirst` | static/display.js:789-795 | the split is the first place where half of the total is reached |
| `Treemap.DegenerateIff` | static/display.js:800-803 | with positive sizes the overlapping fallback is taken exactly when the last item outweighs all others |
| `Treemap.DescendingSplits` | static/display.js:793-803 | in descending order it is never taken |
| `TreemapTiling.RecPartitions` | static/display.js:779-814 | every point of the rectangle lies in exactly one of the parts, for any cut that leaves something on both sides |
| `TreemapTiling.RecTiles` | static/display.js:779-814 | one rectangle for each item, in order, inside, with the area due to its weight |
| `TreemapTiling.LayoutPartitions` | static/display.js:816-829 | the percentages partition the square of 100 by 100 |
| `TreemapTiling.TreemapShares` | static/display.js:816-829 | what layoutTreemap returns for a descending list: one rectangle for each item, in order, with exactly its share of the square of percentages, where none or a size below one counts as one |
| `TreemapTiling.TotalPositive` | static/display.js:816-818 | sizes that are not negative have a positive total, even if all are zero |
| `TreemapTiling.CutsLongerSide` | static/display.js:804-813 | the cut is across the longer side, the first part is the left or upper one and has its share of the length |
| `TreemapTiling.LayoutShares` | static/display.js:816-821 | before percentages, under any fair cut: one rectangle for each item with the area due to it |
| `TreemapTiling.ShareQualifies` | static/display.js:804-813 | the cut the code makes is fair and leaves something on both sides |
| `TreemapTiling.PercentShare` | static/display.js:822-828 | a tile with the area due to it has, as percentages, its share of 10000 |
| `TreemapTiling.TreemapPartitions` | static/display.js:816-829 | the layout of the code is a partition of the square |
| `TreemapTiling.OverlapsExactlyWhenLastOutweighs` | static/display.js:800-803 | where the last item outweighs the others every item gets the whole rectangle |
| `PayoutReconciliation.Portal.ApplyMiningPayoutAddress` | app/server.py:866-924 | what file and configuration hold after each way of applying |
| `PayoutReconciliation.AppliedWhere` | app/server.py:866-924 | where an address is after each outcome: in the configuration only with a success, in the file if the helper wrote it |
| `PayoutReconciliation.Portal.ClassifyAddress` | app/mining_wallet.py:185-210 | an RPC error counts as not mine, another exception as unknown |
| `PayoutReconciliation.KindsMean` | app/mining_wallet.py:185-210 | when both wallets answer, an address is taken for what it is |
| `PayoutReconciliation.KindsWithoutAnswers` | app/server.py:953-975 | when exactly it is unknown, custom or the spend wallet's when a query does not answer |
| `PayoutReconciliation.Portal.EnsureNodeMiningPayout` | app/server.py:927-1028 | one run of the branches, with the configuration saved before applying, and the address reported in each case |
| `PayoutReconciliation.ConfigKept` | app/server.py:985-1028 | a configured address changes only by generating one where none or a legacy one was seen |
| `PayoutReconciliation.SourceSays` | app/server.py:985-1028 | the source recorded with an address says where it comes from |
| `PayoutReconciliation.SourceRecorded` | app/server.py:985-1028 | and is always recorded where the file holds no usable address and the result is saved |
| `PayoutReconciliation.ForeignFileLostToGeneratedIff` | app/server.py:945-1028 | an address in the file that neither wallet owns is replaced by a generated one if and only if the file could not be read, no or a legacy address is configured, the wallet answers and the helper writes |
| `PayoutReconciliation.ForeignFileReplacedIff` | app/server.py:945-1028 | it is replaced by anything if and only if the file could not be read, the helper writes, and either that or another custom or spend address is configured |
| `PayoutReconciliation.ForeignFileLostToWalletIff` | app/server.py:945-1028 | when exactly its place is taken by an address of the spend wallet, new or old |
| `PayoutReconciliation.ForeignFileCanBeLost` | app/server.py:946-949 | a concrete case of it, with a generated address |
| `PayoutReconciliation.UnknownDoesNothing` | app/server.py:981-983 | a query about the file's address that raises stops the run |
| `PayoutReconciliation.OneGoodRunSettles` | app/server.py:927-1028 | a run without failures settles the file, and the next one changes nothing |
| `PayoutReconciliation.TickMints` | app/server.py:1006-1028 | a run generates at most one address, and then has it configured |
| `PayoutReconciliation.AtMostOneMint` | app/server.py:927-1028 | over any number of runs with any failures at most one address is generated between user actions |
| `PayoutReconciliation.ForeignAddressesStay` | app/server.py:927-1028 | a foreign configured address stays until the user changes it; one in the file, if it can be read each time |

## Left out

Hypotheses of the theorems, beside those in the contracts:

- CoinbaseJob.GenerateCoinbases: jobs have the bounds of the source's arrays and types, heights below 2^23, and no 64-bit wrap when payouts are added up (`CoinbaseBuilder.Job.Valid`); the job's buffers start empty, as the job structure is zeroed before it is filled; where the tags make the code panic it returns nothing.
- CoinbaserParser.PayoutJob.Parse: input that the pool encoded, without truncated records and without 64-bit wrap; on other input the source reads beyond the records.
- CoinbaseBudget.FitIsLargest: weight at least size and weight limit at most size limit, as block templates have them.
- SessionSender.WireIsTheStream: the handshake is over (first key and nonce are given) and no message was refused for want of room; after a refusal keys and nonces are one ahead of the stream, and the session is lost.
- SessionEndToEnd.SessionDelivers: the peer is the mirror image of the gateway's receiver, the network loses and reorders nothing, and the cipher has the law that opening undoes sealing.
- SessionInbound.LettersDelivered: the suite stands for the keys in force: before the handshake signatures are checked with the key of the pool, afterwards with that of the session; whether a signature is good is a function of data and signature.
- SessionReceiver.ReceiverRefinesParser: recv returns at least one and at most the bytes asked for; an error other than "would block" ends the connection and the run.
- ShareSubmission.EveryShareIsUnderstood: each share is one atomic step with its sending successful; the gap between releasing the read lock and taking the write lock is not modelled; coinbase identifiers of shares with payouts are below eight, which the test at datum_protocol.c:1324 does not itself ensure.
- ShareSubmission.ShareNamesItsJobIff: no job is set up twice; the queue itself is the one of `QueueProtocol`, and how long a share waits in it is free.
- CoinbaseSize.BlockFitsIff: weight at least size and weight limit at most size limit, as for the fitting; the 36 bytes of coinbase witness are those of BIP 141.
- SlotAllocator.RunInv: the choice of a thread is one step and the taking of a slot another, with releases in between; a client is released once.
- LineReader.ChunkingDoesNotMatter: a handler's wish to close depends on the line and on how many lines came before it.
- LoggerArena.WrittenAsFormatted: formatting succeeds and yields text without NUL; the message printed directly after an overrun is not modelled.
- QueueProtocol.QueueIsFifo: version stamps are unbounded; a 64-bit stamp would have to wrap for a difference.
- PayoutReconciliation.AtMostOneMint: saving the configuration succeeds; a wallet never generates an address twice; the text in the file and the configuration is stripped of white space.
- TreemapTiling.LayoutPartitions: real arithmetic; for a rounded multiplication the recursion still partitions (`TreemapTiling.RecPartitions` takes any cut), but positions and percentages are not rounded here.

Not modelled:

- The hexadecimal layer: one byte of the model is two characters of coinb1 and coinb2, which are also kept in binary.
- Key agreement, sealing, signatures and hashing: functions with an inverse law, or answers of the environment.
- The address that a PROXY line reports for a client: only which lines are skipped and counted.
- Sockets, epoll, thread creation, timeouts and reconnect timing: results of calls are parameters.
- In-place decryption and the reuse of one header structure before and after decoding: the model keeps raw and decoded header apart.
- Stratum share checks, block templates, configuration, dashboards and the remaining portal: nothing here depends on them.
- The bodies of submission handlers and mining sub-commands: a handler only says whether it is content.
