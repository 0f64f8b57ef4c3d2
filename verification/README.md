# Verification of the Epic miner's core

A Dafny model of the parts of the miner where being wrong is expensive: the protocol between the
executor, the dataset builders and the mining threads; the result queue; the receive path; the pool
connection with its call table, job messages and share accounting; the send slots; the hash log and
the rates computed from it; and the arithmetic underneath. `dafny verify dfyconfig.toml` checks all
of it (Dafny 4.11).

| file | models |
|---|---|
| `MiningProtocol.dfy` | executor, builders and N miners as atomic steps over one state; every interleaving is a run |
| `MiningSafety.dfy` | what every run keeps: locking, dataset safety in and outside the executor's window, stale hashes, draws |
| `MiningRebuilds.dfy` | what becomes of rebuilds however they overlap: announcements, coherence of `ready_id`, lost rebuilds |
| `MiningNonces.dfy` | the nonces that are hashed, over all threads of a run |
| `MiningSteps.dfy`, `MiningRaces.dfy` | runs built step by step, and the ones in which the protocol goes wrong |
| `MiningOverlap.dfy` | exactly which rebuilds may start, and which seeds may be stored, without going wrong |
| `ResultQueue.dfy` | the mutex, queue and coalescing wakeup between a mining thread and the event loop |
| `Framing.dfy` | the receive buffer, `consume_loop` and the newline consumer, and whole streams of reads |
| `CallTables.dfy`, `Pool.dfy` | the eight-slot call table; message handling, job publication, share accounting |
| `SendSlots.dfy` | the four send slots |
| `JsonText.dfy`, `Submissions.dfy` | the lines sent to the pool, and what a reader makes of them |
| `RingBuffers.dfy`, `HashRate.dfy` | the ring buffer with wrapping indices; `get_hashrate` and `get_hashrate_peak` |
| `HexCodec.dfy`, `Vector32.dfy`, `Partition.dfy`, `TlsErrors.dfy`, `Words.dfy` | hex text and targets, the share test and ids, the dataset split, the OpenSSL error tokeniser, machine words |

Code that changes state step by step is a class or a method proved against a specification; the
threads are a step relation, because their results are about interleavings.

## Assumptions

- Atomic accesses are sequentially consistent single steps. The source uses relaxed order; nothing is
  claimed about reorderings between locations.
- RandomX, ProgPow, Keccak and `get_epoch_number` are uninterpreted: a job carries the epoch the
  library computes, and an epoch is never the invalid id.
- The JSON library is an oracle: the pool receives an abstract value, and in `Framing.dfy` each frame
  is accepted or not. Its assertion on member lookups in a non-object is a separate outcome.
- Reads, write completions and closes are events. A close completes before the next connect
  (`Pool.Pool.DoConnect`), and no data arrives on a closed connection.
- A thread count of zero from `hardware_concurrency`, for which the source divides by zero, is excluded.
- A character of a text is one byte.
- `double` is `real`. Share counters are unbounded; the difficulty sum and the hash counters wrap.

## Findings

Places where the code does not do what one would hope, each stated by a lemma or a contract:

- **Overlapping RandomX rebuilds.** The builder re-reads the shared seed when it announces
  (`rx_dataset.cpp:39`), so the first of two overlapping builders announces the second seed over the
  first one's contents, and miners hash the new job on the old dataset
  (`MiningRaces.RandomXOverlapRace`). In every run an announcement is right exactly when the seed's id
  has not changed since the builder read it (`MiningRebuilds.RandomXAnnouncesTheLastSeed`), and
  storing a seed is harmless exactly when no builder has read one of another id without announcing
  it (`MiningOverlap.SeedIsSafeExactly`). The damage heals: RandomX rebuilds are never lost, whatever
  overlaps (`MiningRebuilds.NoRebuildIsLost`).
- **Overlapping ProgPow rebuilds.** The epoch travels by value, so `ready_id` always matches the
  contents (`MiningRebuilds.ProgPowIsAlwaysCoherent`). But the check of `ready_id` precedes the lock and is
  not repeated, so a late builder can change the contents in between (`MiningRaces.ProgPowOverlapRace`),
  and two builders that lock in the other order lose the newer epoch: `loaded_id` then says that no
  rebuild is due, and until a job of another epoch arrives no further miner gets past its check for it
  (`MiningRaces.OverlapLosesARebuild`, `MiningRaces.StallPersists`). A miner already past its check is
  not stopped, and hashes on the wrong epoch. What is left is always the epoch of the builder that was
  the last to get the lock (`MiningRebuilds.ProgPowRebuildIsLostExactly`).
- **When a rebuild may start.** Not every overlap is wrong. A rebuild for a job that uses the dataset
  is safe exactly if, when it starts, no ProgPow builder is still waiting for the lock, or every RandomX
  builder has announced; otherwise it goes wrong with nothing new from the pool
  (`MiningOverlap.RebuildIsSafeExactly`, `MiningOverlap.RebuildIsKeptExactly`). The source does not look.
- **The adjust-to-publish window.** Even without overlap, a miner that checked before the window and
  locks inside it can hash the old job on the new contents (`MiningRaces.WindowRace`). A second look at
  `ready_id` under the lock would tell: the hash is right exactly if it finds the job's id, or none
  (`MiningSafety.HashIsRightExactly`).
- **Nonces.** Every draw is a multiple of 16384, so the test in front of it holds every time and the
  increment is never executed: one nonce of each chunk is hashed (`MiningSafety.EveryHashDrawsAChunk`).
  Any job message past its first check resets the shared counter, even if it is then rejected
  (`Pool.Pool.ProcessPoolJob`), and the unchanged current job is hashed again on nonces already used
  (`MiningRaces.ResetRepeatsANonce`).
- **Several lines in one read** go to the parser as one frame (`Framing.FrameCarriesTheReadsLines`).
- **A full call table** does not stop a share from being sent, under an uninitialised id
  (`Pool.Pool.RegisterShare`).
- **Texts are not escaped** in the lines sent: a name with a quote or a backslash in it is sent as it is
  (`Submissions.LoginReads` holds for texts that need no escape).
- **Sending without TLS** looks neither at the slot nor at the length: with four slots active it goes on
  with an uninitialised slot number, and for a text that does not fit it hands on the text's full length,
  so that a terminator, or bytes beyond the slot, are sent (`SendSlots.SendBuffers.PrintAndSend`,
  `SendSlots.SentWholeExactly`). How long the pool's miner id may be is
  `Submissions.SubmissionFitsExactly`. With TLS the length is not looked at either.
- **Share difficulty** is credited at the target held when the reply arrives, not the one the share was
  found for (`Pool.LateCredit`); for targets up to 2^16 the credit is right exactly if the target has
  not changed (`Pool.CreditIsRightExactly`), beyond that two targets can be credited alike
  (`Pool.CreditIsAlikeExactly`).
- **A failed write** leaves its slot's request attached through the close, so the next connection does
  not start clean (`SendSlots.SendBuffers.OnSocketClosed`, `SendSlots.FailThenClose`). A message too long for a slot leaves that
  slot taken (`SendSlots.SendBuffers.DoSocketWrite`).
- The comment at `miner.hpp:19-20` says that time between two negative records is not counted. The code
  also skips every pair with one negative record; the model follows the code (`HashRate.Active`).
- **An odd-length target** text is not the little-endian value of its bytes: its last digit becomes the
  high half of a byte (`HexCodec.OddTargetValue`).

## Model

| member | source | states |
|---|---|---|
| MiningSafety.StepKeepsLock | rx_miner.cpp:11 | the readers of a dataset are exactly the miners inside the shared lock, and a builder past its lock statement is the only writer, after any step with any number of rebuilds |
| MiningSafety.HashesReadTheirDataset | rx_miner.cpp:8-26 | in every calm run, one where rebuilds of the dataset start only when they may, a hash whose guard passed outside the executor's window is of a job of the miner's algorithm and reads that job's contents: its epoch, or a seed of the same id |
| MiningSafety.StepKeepsCalm | miner.cpp:26-35 | the inductive invariant over executor, builder and miner program counters behind it |
| MiningSafety.LockPinsContents | pp_miner.cpp:17 | contents cannot change while a thread stays inside the shared lock, in any run |
| MiningSafety.HoldersKeepTheirDataset | executor.cpp:41-55 | a miner inside the lock before the window keeps the right contents through it, the publication and every later rebuild |
| MiningSafety.RecheckDecides | rx_miner.cpp:8-11 | in every calm run, a miner of the current job about to get the lock has the right contents if and only if `ready_id` is its id or invalid |
| MiningSafety.HashIsRightExactly | pp_miner.cpp:14-33 | every hash of a calm run, in the window or not, is on the right contents if and only if `ready_id` was the job's id or invalid when the miner got the lock |
| MiningRebuilds.NoRebuildIsLost | executor.cpp:41-42 | in every RandomX run and every calm ProgPow run, once no rebuild is pending the current job finds its dataset announced and present |
| MiningRebuilds.ProgPowRebuildIsLostExactly | pp_dataset.cpp:15-28 | in every run, once no rebuild is pending `ready_id` is the epoch of the builder that got the lock last, and the current job is served if and only if that is its epoch |
| MiningRebuilds.ProgPowIsAlwaysCoherent | pp_dataset.cpp:7-28 | in every run, rebuilds overlapping in any number and order, whenever no builder holds the lock `ready_id` is invalid or the epoch of the contents |
| MiningRebuilds.RandomXIsCoherentWhileSteady | rx_dataset.cpp:11-39 | the same for RandomX in every run where no seed of another id is stored between a builder's two looks at the seed |
| MiningRebuilds.CoherentWhenCalm | rx_dataset.cpp:7-40 | the same for both in calm runs |
| MiningRebuilds.RandomXAnnouncesTheLastSeed | rx_dataset.cpp:39 | in every run, what a RandomX builder announces is the id of what it built if and only if the seed field still has the id the builder read |
| MiningOverlap.RebuildIsSafeExactly | executor.cpp:41-55 | after any calm run, starting a rebuild cannot lead to a wrong hash by what is already under way if and only if the job does not use the dataset, or no ProgPow builder waits for the lock, or every RandomX builder has announced |
| MiningOverlap.RebuildIsKeptExactly | pp_dataset.hpp:29-34 | the same condition decides whether a ProgPow rebuild can be lost |
| MiningOverlap.SeedIsSafeExactly | rx_dataset.cpp:9-13 | after any run that was steady so far, storing a seed keeps the dataset coherent, whatever the threads do, if and only if no builder has read a seed of another id without announcing it |
| MiningSafety.OneStaleHashPerPublish | rx_miner.cpp:19-36 | after a publication each miner completes at most one more hash of any older job |
| MiningSafety.IdleStopsMining | executor.hpp:74-80 | after the idle job each miner completes at most one more hash, of any job, until the next publication |
| MiningSafety.JobsAreKeptWhileCurrent | miner.cpp:26-43 | a miner gives up a job only once a newer one has been published |
| MiningSafety.JobsOnlyGrow | executor.hpp:340-343 | published jobs are never changed or dropped |
| MiningSafety.EveryHashDrawsAChunk | rx_miner.cpp:21-24 | counter, draws and local nonces are always multiples of the chunk, so the increment is unreachable |
| MiningSafety.DrawsAreExclusive | pp_miner.cpp:28-31 | between two resets, over all threads, draws a and b are equal if and only if they are a multiple of 2^18 draws apart |
| MiningNonces.HashesItsLatestDraw | rx_miner.cpp:21-26 | in every run the nonce a miner hashes is the counter's value at its latest step, a draw that moved the counter on by a chunk |
| MiningNonces.LocalNonceIsTheLastHashed | rx_miner.cpp:14-24 | between hashes a miner keeps the nonce of its last hash, starting from zero under the lock |
| MiningNonces.HashesAreExclusive | pp_miner.cpp:28-33 | any two hashes of a run, by any threads and across any resets, use different draws, and their nonces are equal if and only if the numbers of draws before them since the reset agree modulo 2^18 |
| MiningNonces.FreshHashesDiffer | job.hpp:94 | between two resets, up to 2^18 draws, no two hashes that draw there use the same nonce |
| MiningNonces.EveryDrawIsHashedOnce | rx_miner.cpp:19-36 | between two resets draws and completed hashes, over all threads, differ exactly by the hashes under way |
| MiningNonces.FewHashesDiffer | pp_miner.cpp:28-33 | the same distinctness as long as completed hashes and threads together are at most 2^18 |
| MiningNonces.OnlyTheFirstHashIsCarried | pool.cpp:218 | a hash that drew its nonce before a reset is its miner's first after it |
| MiningRaces.RandomXOverlapRace | rx_dataset.cpp:16-40 | for any two RandomX jobs of different ids, an overlapping run announces the wrong id and a miner hashes on wrong contents |
| MiningRaces.ProgPowOverlapRace | pp_miner.cpp:14-17 | for any two ProgPow epochs, an overlapping run makes a miner hash on the other epoch, its check having passed |
| MiningRaces.WindowRace | executor.cpp:41-55 | without overlap, a hash inside the window can still read the next job's contents |
| MiningRaces.OverlapLosesARebuild | pp_dataset.hpp:29-34 | overlapping builders in reverse lock order leave `loaded_id` and `ready_id` apart with nobody rebuilding |
| MiningRaces.StallPersists | miner.cpp:26-35 | in every run that state lasts until the pool sends a job of another id, and no miner gets past its check that was not past it before |
| MiningRaces.ResetRepeatsANonce | pool.cpp:218 | a counter reset makes a miner of the unchanged job complete nonce zero and draw it again |
| ResultQueue.StepKeepsInv | rx_miner.cpp:29-32 | each step keeps mutual exclusion, produced = delivered + in flight + queued, and no lost wakeup |
| ResultQueue.EveryRunKeepsResults | miner.cpp:8-19 | in every run a non-empty queue has a wakeup pending, a drain in progress or a producer about to signal, and the shares found are, in order, those delivered, in flight, queued and being pushed |
| ResultQueue.IdleIsDone | rx_miner.cpp:29-32 | neither thread can go on, but by finding a share, if and only if all work is done, and then everything produced is delivered |
| ResultQueue.EveryScheduleDelivers | miner.cpp:8-19 | from any reachable state, every order of steps without a new find is bounded, and ends only with every share found so far delivered in order and the queue empty |
| ResultQueue.TheLoopDeliversEverything | miner.cpp:11-18 | whenever the producer is outside its push, the loop alone delivers everything produced, in order, and stops |
| Framing.NetInterface.LastNewline | pool.cpp:95-99 | the scan from the end finds the end of the last whole line, or none |
| Framing.NetInterface.NetOnDataRecv | pool.cpp:101-127 | consumes exactly the whole lines as one frame, or refuses, and leaves the rest of the buffer alone |
| Framing.NetInterface.ConsumeLoop | net/net_interface.cpp:167-186 | hands over the whole lines once, keeps the rest at the start of the buffer, and fails exactly when the frame is refused |
| Framing.NetInterface.OnSocketRead | net/net_interface.cpp:153-165 | the same for the kept bytes followed by a read that fits |
| Framing.ReceiveAll | net/net_interface.cpp:146-190 | a connection that reads a stream in any chunks that fit hands over and keeps what the fold of the next rows says, until a frame is refused |
| Framing.StreamIsConserved | net/net_interface.cpp:167-186 | for any reads, frames then kept bytes are the stream; the kept part has no newline and every frame ends with one |
| Framing.DeliveryDependsOnTheStream | net/net_interface.cpp:167-186 | deliveries and kept bytes depend on the stream alone, not on its cutting into reads |
| Framing.NoLineIsSplit | pool.cpp:101-109 | the lines of the frames are the lines of the stream in order, none split, lost or repeated |
| Framing.LinesAreTheRun | pool.cpp:95-109 | the lines of a run of whole lines are that run cut after each newline |
| Framing.FrameCarriesTheReadsLines | pool.cpp:97-103 | a frame has as many lines as its read brought newlines |
| CallTables.CallTable.Flush | pool.hpp:170-175 | an empty table with ids from zero |
| CallTables.CallTable.RegisterCall | pool.hpp:198-214 | takes the first free slot and the next id, fails exactly when no slot is free, and then changes nothing |
| CallTables.CallTable.FindCall | pool.hpp:183-196 | returns the call of the first slot that answers the id and clears exactly that slot, so removes exactly that entry while ids are distinct, or finds none and changes nothing |
| CallTables.ClearSlot | pool.hpp:185-194 | clearing the first answering slot removes exactly that entry of the partial map |
| CallTables.SizeOfMap | pool.hpp:198-214 | the map has a free entry if and only if the table has a free slot |
| CallTables.IdsAreDistinct | pool.hpp:206-209 | up to 2^32 registrations after a flush outstanding ids are distinct |
| CallTables.NextIdIsTaken | pool.hpp:206-209 | the next id is already outstanding if and only if a call from a multiple of 2^32 registrations ago still is |
| Pool.CurrentJob | executor.cpp:48-55 | the jobs published so far refine the events one by one, and the current one describes the last message accepted since the last disconnect, or is idle |
| Pool.Executor.OnPoolNewJob | executor.cpp:35-56 | appends the snapshot as the current job; earlier jobs, counters and history stay |
| Pool.Executor.OnPoolDisconnect | executor.cpp:58-65 | publishes the idle job and resets the session unless already idle |
| Pool.Executor.OnResultReply | executor.cpp:72-88 | an accepted reply adds floor(0xffffffff / target) to the wrapping total, a rejected one counts as rejected |
| Pool.AlgorithmInvertsName | job.hpp:18-31 | a message names an algorithm exactly by the name the program prints for it, up to the first NUL; idle is not one |
| Pool.TargetFromDigits | pool.cpp:251-253 | the target word in terms of its hex digits, of even or odd number |
| Pool.PoolJob.Load | pool.cpp:201-266 | decodes in place; succeeds exactly for well-formed messages and then holds their fields; resets the counter whenever the first check passes |
| Pool.PoolJob.LoadTarget | pool.cpp:247-254 | accepts up to eight hex digits of nonzero value over a template of zeros |
| Pool.PoolJob.Snapshot | job.hpp:87-96 | the published job describes the message the record holds |
| Pool.Pool.ProcessPoolJob | pool.cpp:201-270 | a well-formed message is published; a rejected one changes no published job, yet resets the nonce counter |
| Pool.Pool.ProcessPoolLogin | pool.cpp:272-289 | a login reply publishes its well-formed job; errors, missing parts and non-object jobs have their own outcomes |
| Pool.Pool.TakeCall | pool.cpp:179-194 | a reply to a share is credited or rejected once, at the target held on arrival; shares sent stay equal to accepted plus rejected plus outstanding |
| Pool.Pool.ProcessJsonDoc | pool.cpp:129-199 | from the members of any document: a job notice publishes exactly a well-formed job; a reply without error credits a share at the target held, confirms, or logs in; an error counts a share as rejected and ends the connection for any other call; every other document is refused and changes nothing; the call answered is the one removed |
| Pool.ConnectAndLogin | pool.cpp:26-36 | from a new connection, an answer to the login call with a well-formed job ends in mining that job under the name it gives |
| Pool.Pool.NetOnConnect | pool.cpp:26-53 | registers a login under the next id, leaving other calls alone, and sends it, whole exactly if there is a buffer and it fits |
| Pool.Pool.RegisterShare | pool.cpp:61-65 | one more share in flight exactly when a slot is free; otherwise the id is whatever the variable held |
| Pool.Pool.DoSendResult | pool.cpp:56-92 | nothing without a job; otherwise a submission whose texts decode to the nonce and the hash, given to the socket whole exactly if a slot is free and it fits; the share is registered in any case |
| JsonText.ReadInvertsRender | pool.cpp:72-73 | what is written as JSON is read back, whatever follows it but a digit, if its texts need no escape |
| Submissions.SubmissionReads | pool.cpp:67-73 | a reader finds in a submission the method, the id of the call, and miner id, job id, nonce and hash under their names |
| Submissions.LoginReads | pool.cpp:35-36 | the same for the login call and its credentials |
| Submissions.SubmissionFitsExactly | pool.cpp:72-90 | a submission fits a slot if and only if miner id, job id and call id leave room for its fixed 152 characters and the terminator |
| Pool.LateCredit | pool.cpp:187-193 | on any mining connection, a share whose reply comes after another job is credited at the other job's target |
| Pool.CreditIsAlikeExactly | executor.cpp:75 | two targets are credited alike if and only if the larger times the smaller's quotient stays within 0xffffffff |
| Pool.CreditIsRightExactly | executor.cpp:75-79 | for targets up to 2^16, if and only if they are equal |
| Pool.Pool.NetOnError | pool.cpp:301-311 | an error idles the connection and resets the job record, leaving published jobs alone |
| Pool.Pool.NetOnClose | pool.cpp:313-319 | a close makes the idle job current and empties the session |
| SendSlots.SendBuffers.GetSendBuffer | net/net_interface.cpp:216-232 | the first inactive slot, never one in flight; none exactly when all four are active |
| SendSlots.SendBuffers.FinalizeSocketWrite | net/net_interface.cpp:234-252 | an empty message frees the slot; otherwise a write of the given length goes in flight, however long, and the slot's bytes it covers stay untouched |
| SendSlots.SendBuffers.OnSocketWrite | net/net_interface.cpp:254-282 | a completion frees the slot and detaches its request; a failure does neither |
| SendSlots.SendBuffers.DoSocketWrite | net/net_interface.cpp:193-214 | sends the given bytes in a slot that was not in flight, or fails for want of a slot or of room |
| SendSlots.SendBuffers.PrintAndSend | pool.cpp:84-90 | what becomes of a printed text: whole in the first free slot, cut, overrunning the slot, or without a slot |
| SendSlots.SentWholeExactly | pool.cpp:86-90 | the write is the text, no less and no more, if and only if the text fits a slot with its terminator; its length exceeds the slot if and only if the text's does |
| SendSlots.FailThenClose | net/net_interface.cpp:270-273 | on any connection, a failed write followed by the close leaves a free slot with its request attached |
| SendSlots.SendBuffers.OnSocketClosed | net/net_interface.cpp:326-334 | the slots are valid for the next connection if and only if no request was left attached |
| RingBuffers.RingBuffer.Insert | misc.hpp:68-72 | prepends to the newest-first view and drops the oldest |
| RingBuffers.RingBuffer.Get | misc.hpp:74-78 | for sizes dividing 2^64, the record of that age, through wrapping 64-bit subtraction |
| RingBuffers.WrapNeedsADivisor | misc.hpp:76 | the wrapping index is right for all positions if and only if the size divides 2^64 |
| RingBuffers.InsertAll | misc.hpp:62-72 | a filled buffer and any run of insertions hold what the fold of the next row says |
| RingBuffers.ViewIsTheHistory | misc.hpp:62-99 | after any insertions, index i is the i-th newest while there are that many, then the fill value |
| HashRate.MinerLog.RecordHashes | miner.hpp:35-42 | logs the count with the time, negated while not hashing |
| HashRate.GetHashrate | executor.hpp:82-109 | the rate over the shortest newest prefix whose active time exceeds the period, or zero if there is none |
| HashRate.CutoffIsUnique | executor.hpp:104-105 | that prefix is unique |
| HashRate.Telescopes | executor.hpp:98-102 | without idle records the wrapping sums are the wrapped end-point differences |
| HashRate.AverageIsDifferenceQuotient | executor.hpp:91-107 | on a monotone stretch they are the end-point differences |
| HashRate.RateIsBetweenItsSegments | executor.hpp:98-105 | idle records or not, some active segment is no faster and some no slower than the reported rate, cross-multiplied |
| HashRate.GetHashratePeak | executor.hpp:111-135 | cuts the log into adjacent windows, each the shortest over ten seconds, and returns the fastest window's rate |
| HashRate.PeakIsUnique | executor.hpp:119-132 | the windows and the peak are determined by the log |
| HashRate.PeakIsAtLeastAverage | executor.hpp:127-129 | on a monotone log the peak is at least the average over the span the windows cover |
| Vector32.ShareTestIsExact | vector32.hpp:34-37 | the leading word is below the target if and only if the 256-bit hash is below target times 2^224; so for the word functions of both loops |
| Vector32.IdIsTheMaskedWord | vector32.hpp:44-48 | the id is the little-endian word of the first eight bytes without its top bit |
| Vector32.SameIdExactly | vector32.hpp:44-48 | seeds share an id if and only if their first seven bytes agree and the eighth agrees but for its top bit |
| Vector32.IdIsNeverInvalid | vector32.hpp:44-48 | an id is below 2^63, so never the invalid id |
| Vector32.IdsCollide | vector32.hpp:44-48 | different seeds can share an id |
| HexCodec.DigitsAreUsual | misc.hpp:19-30 | the digits read and written are the sixteen usual ones, of either case when read, lower case when written |
| HexCodec.OddLengthFails | misc.hpp:32-42 | hex2bin fails on the whole of a text of odd length |
| HexCodec.Hex2Bin | misc.hpp:32-42 | succeeds exactly when every character read is a digit, and then writes the decoded bytes and nothing beyond |
| HexCodec.Bin2Hex | misc.hpp:52-60 | writes the encoding and a terminator and nothing beyond |
| HexCodec.DecodeInvertsEncode | misc.hpp:19-60 | decoding inverts encoding for every length |
| HexCodec.EncodeLowersDecoded | misc.hpp:19-60 | encoding a decoded text gives it in lower case |
| HexCodec.PaddedTargetValue | pool.cpp:251-253 | an even-length target decodes to the little-endian value of its own bytes |
| HexCodec.OddTargetValue | pool.cpp:251-253 | the exact value of an odd-length target |
| Partition.EachItemHasOneOwner | rx_dataset.cpp:42-47 | for every size and thread count each item is in the range of exactly one thread |
| Partition.InitDataset | rx_dataset.cpp:25-34 | run in any order, the threads initialise every item exactly once |
| TlsErrors.ParseCanonicalSslError | net/tls_interface.cpp:21-38 | succeeds exactly with eight colons; eight colon-free terminated tokens and a ninth that rejoin to the line up to the newline |

## Left out

- libuv, sockets, DNS, timers, OpenSSL and the TLS plumbing around the tokeniser: foreign libraries.
- Connecting, DNS failures and shutdown: they depend on return codes of libraries that are not part of this model.
- `check_call_timeouts` and the heartbeat: a scan and a timer; they only close connections.
- The round-trip time of a share: it is only printed.
- The rest of the executor's reports, the console, key handling and `human_ts`: user interface.
- `jconf.cpp`, `main.cpp` and the build files: plumbing.
- The loop of `record_miner_hashes` over all miners: one call per miner.
- HashRate.GetHashrate: a thread index out of range, for which the source returns zero, is not modelled.
- MiningProtocol: stopping a miner is not modelled, because nothing calls `stop_miner`; the non-atomic copy of the seed is one step.
- SendSlots.SendBuffers.PrintAndSend: with no slot free only the outcome is named, because the source's behaviour is then undefined; the bytes an overrunning write reads beyond its slot are not modelled.
- Pool.Executor.OnPoolNewJob: publication only; adjusting the datasets is in the MiningProtocol module, and recording hashes changes only the hash logs.
- The check of the TLS fingerprint in `net_on_connect`: it only refuses the connection.
- Framing.NetInterface.ConsumeLoop: after a refused frame nothing is said of the buffer's contents, because the parser may have overwritten them.
- Framing.NetInterface.ParseInsitu: says only where the parser may write, because what it writes is the JSON library's business.
- Pool.PoolJob.Load: which error text is logged for a rejected message is not modelled.
- Blobs of fewer than eight bytes are accepted by the decoder as in the source; what the mining loops then do is not modelled.
