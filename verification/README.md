# A Dafny model of the wac monorepo's hardest code

Four parts of the repository are modelled, and what each is for is proved for all inputs, all runs or all
event orders. `dafny verify dfyconfig.toml` checks the whole project; Dafny 4.11 is enough, and nothing
outside this directory is needed.

**The BLS12-381 field kernel** (`Limbs`, `Modular`, `Reduction`, `FpKernel`, `Fips`). The straight-line
code that `genfpkernel.py` emits is written as loops over limb arrays whose element types are the
machine's: every `u32`, `u64` and `i64` intermediate carries its range as a proof obligation, so an
overflow would be an error. The value of an array is the sum of its limbs at their weights. Proved: every
pass of `montMul` drops a limb that is exactly zero, leaves the accumulator below 2p, and never sets
`spill` or the thirteenth limb; hence the result is canonical, below p, and 2^384 times it is the product
modulo p. The ring laws then hold limb for limb. The product-scanning multiply on 29-bit limbs is proved
the same way, with its column accumulator below 2^63 throughout, and tied to the other by 2^22. The
modulus is the one in section 8.8.1 of RFC 9380; its primality is not used.

**The host-call bridge** (`Bridge*`). One worker thread (`call.ts`) and one responder (`respond.ts`) over a
ring of slots and two buffer pools, as a system of interleaved atomic steps with every load,
compare-and-exchange and bump the other side can fall between as a step of its own. A run is a list of
states each following from the one before by a chosen label; the theorems are about every state of every
run of a bridge of any size. There are two invariants. The base one (`BridgeBase`) holds in every run:
ownership of slots and request buffers, generations, and what a sleeping worker has seen. The deep one
(`BridgeDeep`) adds the bytes, and holds in every run that is well started and in time: no handler is
started at a generation that is not its call's, and none finishes for a call that the stopping responder
has failed and whose slot the worker has not taken back. On top of this bridge, whose responder looks at any
slot at any time, `BridgeLoop` puts the loop the source has: it sweeps the slots in order and sleeps on
SUBMIT_SEQ until the worker pings it. Its runs are runs of the bridge, and the two sides cannot sleep on
each other. `BridgeOperations` says over whole runs what `submit`, `collect`, `cancel` and `waitAny` come back
with, and ties every call to the one submit that made it; `BridgeAnswers` ties its answer to the handler that
gave it; and `BridgeProgress` says that no operation goes round for ever. The source's sizes are slots = 128,
bufs = 8, inlineBytes = 4096, bufBytes = 2^17. The worker's local variables (the counter it loaded, how far
its scan got, what it has collected) are part of the state, which is why this part is a step system over
values and not a set of imperative methods.

**A child's life and streams** (`ChildLife`, `Spawn`, `ChildStreams`, `ChildStack`). The transition function
over events in any order; `spawnChild`'s flags, timer and promises as a class that is proved to stay
where the transition function is, whatever is delivered; and the stack of captured streams as a class
over real arrays, proved against a stack of values about which the theorems over sequences of
operations are stated.

**Graph and text algorithms** (`Paths`, `WacFiles`, `BuildCache`, `Edits`, `Shuffle`, `Sample`, over
`Sorting`, `Grouping`, `Texts` and `Options`). Import closure and path normalisation, the cache key's framing, edit
splicing, and stratified sampling. In the last three a text is a sequence of UTF-16 code units.

## Where the code does less than it promises

Each of these is stated as a lemma, with the exact condition under which the promise does hold.

- `cancel` bumps the generation and then stores CANCELLED (`call.ts:453-454`). A `take` that loads the
  generation between the two starts a handler at the bumped generation, which is the next occupant's; its
  answer is then accepted for that call (`SplitCancelMisdelivers`), and written over the call's own it
  leaks a pooled buffer (`StaleAnswerLeaks`). Both are runs of a bridge of any size. In every run that is
  well started and in time neither happens (`AnswersAreOwn`, `ResponseBuffersConserved`); a wrong start
  happens only in that gap (`OnlyInTheGap`), so never to a caller that does not cancel
  (`NoCancelStartsWell`) and never if the two stores were one (`OneStoreStartsWell`). Over all runs that are
  in time, both promises hold if and only if the two stores are one (`OwnAnswersIffAtomicCancel`,
  `ConservedIffAtomicCancel`). The promises about wake-ups, slots, tickets and request buffers do not depend
  on it and hold in every run.
- A responder that stops answers what is outstanding with a failure (`respond.ts:317-341`), but lets the
  handlers run on. One that finishes later still finds its generation in the slot (`respond.ts:274`) and
  writes over the failure's length and status without publishing: a large success then reads back as the
  failure's bytes, as a success (`LateHandlerCorrupts`). In time means that this does not happen; a run
  without a stop is in time (`NoStopIsInTime`), and in every run that is in time such a failure arrives whole
  if it arrives (`StopFailureIsWhole`).
- A failure that goes in pieces reaches the caller as its last piece alone (`call.ts:417-421`). It goes in
  one piece exactly when it fits the inline area, or fits a pooled buffer and one is free when it is first
  written (`FailureIsWhole`). `LongFailureCutShort` is a run in which it does not.
- A `collect` that the host's going cuts short after some pieces, and that is then repeated, succeeds with
  the pieces after those (`SuccessCutShort`). A success is whole exactly when nothing was lost that way
  (`SuccessIsWhole`), and something was only if a collect threw and the caller collected again
  (`LostToAThrow`).
- A child that dies after its grace has expired and before `ready` is not heard about anywhere
  (`DeathReported`; `ReasonLost` is such a child), and a death with an empty message before `ready` reads as a successful load
  (`EmptyTextMeansLoaded`). The comment in `childLife.ts:119-121` says otherwise.
- The transition function emits `sayOnStderr` after the streams have ended; nobody hears those lines
  (`HeardIs`), and `spawnChild`, which writes with `endWith`, drops them too (`DiagnosisIsHeard`).
- An absolute path that climbs above the root is keyed apart from the file it names (`KeyOfAbsolute`,
  `KeyedApart`), and normalising the front of a path first is safe only if that does not leave it empty
  (`KeyOfFront`).
- `applyEdits` spoils an insertion that is listed before a replacement starting at the same offset;
  `SplicingSubstitutesIff` says that this is the only case.
- `sampleMutants` overshoots a fractional count, to the end of the round that passes it (`SampleMutants`):
  below one it takes a mutant of every file (`FractionTakesOneOfEach`).

## Model

| member | source | states |
|---|---|---|
| `Limbs.FromToLimbs` | packages/bls/tools/genfips-experiment.py:72-77 | cutting a number into limbs and putting it back together gives the number, exactly when it fits |
| `Limbs.ToFromLimbs` | packages/bls/tools/genfips-experiment.py:72-77 | canonical limbs survive the other round trip |
| `FpKernel.ModulusValue` | packages/bls/tools/genfpkernel.py:70-73 | the twelve limbs are p, canonical, with three bits to spare |
| `FpKernel.RInverse` | packages/bls/tools/genfpkernel.py:150-152 | 2^384 has an inverse modulo p, so it cancels |
| `FpKernel.LowLimbClears` | packages/bls/tools/genfpkernel.py:213-214 | the multiple of p chosen with MINV makes the low limb zero for every accumulator |
| `Reduction.AtLeast` | packages/bls/tools/genfpkernel.py:169-171 | the limb-by-limb scan from the top is comparison of values |
| `Reduction.SubInPlace` | packages/bls/tools/genfpkernel.py:172-175 | the borrow chain subtracts exactly, modulo the array's size when it underflows |
| `Reduction.AddInPlace` | packages/bls/tools/genfpkernel.py:176-179 | the carry chain adds exactly, modulo the array's size when it overflows |
| `FpKernel.MulRow` | packages/bls/tools/genfpkernel.py:204-212 | one row of the product is added exactly, within 64 bits, with at most one bit of spill |
| `FpKernel.Quotient` | packages/bls/tools/genfpkernel.py:213-214 | the low limb plus its multiple of p is exactly the carry shifted up: nothing is dropped but zero |
| `FpKernel.ReduceRow` | packages/bls/tools/genfpkernel.py:213-221 | the accumulator plus m times p, divided by 2^32 without remainder |
| `FpKernel.BelowTwoP` | packages/bls/tools/genfpkernel.py:154-160 | an accumulator below 2p is below 2p after the next pass |
| `FpKernel.NoSpill` | packages/bls/tools/genfpkernel.py:210-212 | so `spill` is always zero |
| `FpKernel.TopLimbZero` | packages/bls/tools/genfpkernel.py:219-221 | and so is the thirteenth limb |
| `FpKernel.Pass` | packages/bls/tools/genfpkernel.py:201-221 | a whole pass: exact, below 2p, `spill` and the thirteenth limb zero |
| `FpKernel.Finish` | packages/bls/tools/genfpkernel.py:223-227 | one conditional subtraction makes the result canonical and below p |
| `FpKernel.MontMul` | packages/bls/tools/genfpkernel.py:195-227 | for all reduced operands the result is reduced and 2^384 times it is congruent to the product |
| `FpKernel.MontAdd` | packages/bls/tools/genfpkernel.py:121-136 | the result is the reduced sum |
| `FpKernel.MontSub` | packages/bls/tools/genfpkernel.py:138-148 | the result is the reduced difference |
| `FpKernel.ElementIs` | packages/bls/tools/genfpkernel.py:93-105 | reduced limbs are determined by their residue, so equal residues are equal arrays |
| `FpKernel.SubUndoesAdd` | packages/bls/tools/genfpkernel.py:121-148 | subtracting what was added gives the same limbs back |
| `FpKernel.MulDistributes` | packages/bls/tools/genfpkernel.py:121-161 | multiplication distributes over addition, limb for limb |
| `FpKernel.MulAssociates` | packages/bls/tools/genfpkernel.py:150-161 | multiplication is commutative and associative, limb for limb |
| `FpKernel.MontgomeryOne` | packages/bls/tools/genfpkernel.py:150-152 | the Montgomery form of one is neutral |
| `Fips.ModulusLimbs` | packages/bls/tools/genfips-experiment.py:60-69 | the fourteen 29-bit limbs are p |
| `Fips.LowLimbClears` | packages/bls/tools/genfips-experiment.py:90-92 | the multiple of p chosen with INV clears the low 29 bits of any column |
| `Fips.ColumnsProduct` | packages/bls/tools/genfips-experiment.py:85-98 | all the columns of a product scan together are the product of the values |
| `Fips.Accumulate` | packages/bls/tools/genfips-experiment.py:86-88 | a column's terms are summed exactly, and the sum stays below 2^63 |
| `Fips.LowColumn` | packages/bls/tools/genfips-experiment.py:85-92 | a column of the lower half shifts out exactly zero |
| `Fips.HighColumn` | packages/bls/tools/genfips-experiment.py:93-98 | a column of the upper half splits into a limb and a carry |
| `Fips.LowerHalf` | packages/bls/tools/genfips-experiment.py:85-92 | after the lower half the accumulator is the low columns divided by 2^406 |
| `Fips.UpperHalf` | packages/bls/tools/genfips-experiment.py:93-99 | the limbs that come out, and the word above them, are the whole sum divided by 2^406 |
| `Fips.TopZero` | packages/bls/tools/genfips-experiment.py:99-101 | that word is always zero and the limbs are below 2p |
| `Fips.Multiply` | packages/bls/tools/genfips-experiment.py:80-107 | for all reduced operands the result is reduced and 2^406 times it is congruent to the product |
| `Fips.BothMultiply` | packages/bls/tools/genfips-experiment.py:80-107 | run on operands of equal value, the two multiplies give results of which one is 2^22 times the other, reduced |
| `Fips.AgreesWithCios` | packages/bls/tools/genfips-experiment.py:80-107 | the same of any limbs that meet what the two multiplies promise |
| `BridgeBase.InitBase` | packages/platform/host/layout.ts:308-334 | a fresh bridge satisfies the base invariant: who owns each slot and request buffer, and what the worker has seen |
| `BridgeBaseWorker.ClaimHitBase` | packages/platform/host/call.ts:228-236 | claiming a free slot makes its current generation the new call's and no earlier one's |
| `BridgeBaseWorker.BufHitBase` | packages/platform/host/call.ts:173-180 | a request buffer taken is in the worker's hand and nowhere else |
| `BridgeBaseWorker.PublishBase` | packages/platform/host/call.ts:335-365 | publishing attaches that buffer to one slot, which the host must then take |
| `BridgeBaseWorker.ReadOnBase` | packages/platform/host/call.ts:413-428 | going on after a piece keeps the slot, its generation and its ticket |
| `BridgeBaseWorker.ReadLastBase` | packages/platform/host/call.ts:414-429 | the last piece gives the slot back under a generation no ticket has |
| `BridgeBaseWorker.CancelStoreBase` | packages/platform/host/call.ts:453 | the first store of a cancel expires the ticket before the status moves |
| `BridgeBaseWorker.CancelMarkBase` | packages/platform/host/call.ts:454 | the second store marks a slot that no ticket matches any more |
| `BridgeBaseWorker.ParkBase` | packages/platform/host/call.ts:197-215 | the flag, the wait and the flag again lose nothing the worker had established |
| `BridgeBaseHost.WorkerKept` | packages/platform/host/call.ts:188-206 | no host step disturbs what the worker observed while the counter it loaded stands |
| `BridgeBaseHost.TakeBase` | packages/platform/host/respond.ts:211-217 | taking a request gives its buffer back and owes a bump, whatever the generation loaded before has become |
| `BridgeBaseHost.DispatchBase` | packages/platform/host/respond.ts:228-276 | a running slot has a reply under way or a handler at its generation, but in the gap of a cancel |
| `BridgeBaseHost.PublishBase` | packages/platform/host/respond.ts:168-176 | publishing readies only a running slot, and owes a bump |
| `BridgeBaseHost.AbandonBase` | packages/platform/host/respond.ts:187-196 | a cancelled slot gives its request buffer back while it is still marked cancelled |
| `BridgeBaseHost.FreeBase` | packages/platform/host/respond.ts:197-199 | and is then free, and owes a bump |
| `BridgeBaseHost.StopBase` | packages/platform/host/respond.ts:307-315 | stopping raises the flag before anything is answered or bumped |
| `BridgeBaseHost.FailBase` | packages/platform/host/respond.ts:317-343 | failing one outstanding slot, and the bump after the last, lose nothing the worker had seen and no request buffer |
| `BridgeAlways.StepBase` | packages/platform/host/call.ts:166-456 | every step of the worker or the responder keeps the base invariant |
| `BridgeAlways.RunBase` | packages/platform/host/call.ts:166-456 | every state of every run satisfies it |
| `BridgeAlways.NoLostWakeUp` | packages/platform/host/call.ts:188-215 | in every run, a worker asleep while the host owes no bump waits for something that has not happened, and the host has not gone |
| `BridgeAlways.HostOwesAStep` | packages/platform/host/respond.ts:187-294 | in every run, a watching host has an enabled step at every slot it owns, but one whose cancel is between its two stores |
| `BridgeAlways.FullRingIsFull` | packages/platform/host/call.ts:224-268 | in every run, when the scan reports a full ring every slot is ready at that moment |
| `BridgeAlways.HostLeavesReady` | packages/platform/host/call.ts:224-268 | and no sequence of host steps makes any of them otherwise |
| `BridgeAlways.StepGrows` | packages/platform/host/call.ts:306-318 | no step lowers a generation or changes a ticket |
| `BridgeAlways.ExpiredForEver` | packages/platform/host/call.ts:369-375 | in every run, a ticket that has expired never matches its slot again |
| `BridgeAlways.TicketsAlwaysDiffer` | packages/platform/host/call.ts:329-332 | no two calls of any run have the same ticket |
| `BridgeAlways.RequestBuffersConserved` | packages/platform/host/call.ts:166-180 | in every state of every run each request buffer is free, in the worker's hand, or attached to exactly one slot |
| `BridgeAlways.BuffersHostMustRelease` | packages/platform/host/call.ts:166-180 | in every run, a parked worker's missing request buffers are all on slots the host must take or hand back |
| `BridgeAlways.StopFailsEverySlot` | packages/platform/host/respond.ts:317-341 | the stopping responder comes to every slot once, and fails the call that is outstanding there |
| `BridgeAlways.GoneIsSwept` | packages/platform/host/respond.ts:317-344 | and it is gone only when it has come to them all |
| `BridgeOperations.CallsAreSubmitted` | packages/platform/host/call.ts:329-366 | in every run, every call was made by one submit and has that submit's opcode and payload for as long as it lives, however often the submit parked |
| `BridgeOperations.MadeByOne` | packages/platform/host/call.ts:329-366 | by one and no other |
| `BridgeOperations.SubmitReturns` | packages/platform/host/call.ts:329-366 | a submit that is over came back with a ticket for a call with its own arguments, the last piece of them published; or threw, because every slot held an answer, the responder was gone, or a piece was answered with a failure |
| `BridgeOperations.ThrowsOnlyWhenFull` | packages/platform/host/call.ts:224-268 | a scan that throws does so while every slot is ready |
| `BridgeOperations.ScanDecides` | packages/platform/host/call.ts:224-268 | a whole scan parks, with its arguments, if it has seen a slot that was not ready, and otherwise throws |
| `BridgeOperations.CancelFrees` | packages/platform/host/call.ts:450 | cancelling a ready call frees its slot, expires its ticket and gives its answer's buffer back, and touches no other slot or buffer |
| `BridgeOperations.CancelReturns` | packages/platform/host/call.ts:447-456 | once a cancel is over its ticket is expired for ever, and its slot is free or marked for the responder |
| `BridgeOperations.CollectReturns` | packages/platform/host/call.ts:407-430 | a collect of an expired ticket throws at once; any other comes back with its call's outcome and the slot free under a new generation, or throws because the responder is gone |
| `BridgeOperations.ScanStopsAtSettled` | packages/platform/host/call.ts:369-375 | the scan of `waitAny` ends at a ticket exactly when that has expired or its call's answer is there |
| `BridgeOperations.WaitAnyReturns` | packages/platform/host/call.ts:384-399 | `waitAny` comes back only with such a ticket, or when its time is up after a scan that found none, or because the responder is gone |
| `BridgeAnswers.AnswersAreGiven` | packages/platform/host/respond.ts:257-293 | in every run, a call's answer is one its handler finished with, or the failure that says there is none for its opcode |
| `BridgeAnswers.FailuresAreGiven` | packages/platform/host/respond.ts:317-341 | and its failure one the stopping responder gave, when it found the call outstanding |
| `BridgeProgress.WorkerSettles` | packages/platform/host/call.ts:166-456 | from any state of any run, the worker left alone comes to the end of its operation or goes to sleep |
| `BridgeLoop.LoopIsBridge` | packages/platform/host/respond.ts:346-365 | every state the loop's bridge reaches is reached by a run of the bridge, so what is proved of those holds |
| `BridgeLoop.SilentSteps` | packages/platform/host/call.ts:183-186 | no step of the worker but those it ends with a ping gives the responder anything to do |
| `BridgeLoop.NoSleepOnWork` | packages/platform/host/respond.ts:346-365 | in every run of the loop, while the responder sleeps and no ping is owed no slot is pending or cancelled |
| `BridgeLoop.NoDeadlock` | packages/platform/host/respond.ts:346-365 | in every run of the loop, when both sides sleep what the worker waits for is with a handler whose answer will be accepted, and it is never a request buffer |
| `BridgeDeep.InitDeep` | packages/platform/host/layout.ts:308-334 | a fresh bridge holds no bytes of anybody's |
| `BridgeDeepWorker.PublishDeep` | packages/platform/host/call.ts:335-365 | the published buffer holds exactly the next piece of the payload |
| `BridgeDeepWorker.ReadAckDeep` | packages/platform/host/call.ts:346-356 | after an acknowledgement the responder holds exactly what was sent |
| `BridgeDeepWorker.ReadMoreDeep` | packages/platform/host/call.ts:413-428 | what was taken, what is shown and what is to come stay the whole answer |
| `BridgeDeepWorker.ReadLastDeep` | packages/platform/host/call.ts:414-437 | the last piece completes the answer and gives its buffer back |
| `BridgeDeepWorker.CollectAgain` | packages/platform/host/call.ts:407-414 | a call partly read before is collected again only after a throw |
| `BridgeDeepWorker.CancelReadyDeep` | packages/platform/host/call.ts:449-450 | cancelling a ready call frees its answer's buffer |
| `BridgeDeepWorker.CancelStoreDeep` | packages/platform/host/call.ts:453 | between the two stores the slot still holds what it held |
| `BridgeDeepHost.TakeDeep` | packages/platform/host/respond.ts:202-217 | taking a request moves exactly its bytes to the responder |
| `BridgeDeepHost.DispatchPieceDeep` | packages/platform/host/respond.ts:234-248 | a pushed piece is appended to the earlier ones; a continuation answers with the rest |
| `BridgeDeepHost.DispatchWhole` | packages/platform/host/respond.ts:250-276 | the handler gets exactly the submitted payload, in the gap of a cancel too |
| `BridgeDeepHost.FillShows` | packages/platform/host/respond.ts:135-153 | `write` shows the whole body if it fits inline, or fits a buffer and one is free, and otherwise a front of it, keeping the rest |
| `BridgeDeepHost.FillDeepKeeps` | packages/platform/host/respond.ts:135-153 | what is written and what is kept for later make up the answer, in a buffer held by this slot alone |
| `BridgeDeepHost.PublishWins` | packages/platform/host/respond.ts:168-176 | an answer is published for the call it belongs to |
| `BridgeDeepHost.PublishLoses` | packages/platform/host/respond.ts:168-174 | an answer that lost to a cancel gives its buffer back |
| `BridgeDeepHost.AbandonDeep` | packages/platform/host/respond.ts:187-196 | a cancelled slot is bare once both its buffers are released |
| `BridgeDeepHost.FreeDeep` | packages/platform/host/respond.ts:197-199 | and is free with nothing of its last call in it |
| `BridgeDeepHost.FailDeep` | packages/platform/host/respond.ts:317-341 | a slot that is failed will show its call the failure and nobody's answer |
| `BridgeDeepHost.FinishAnswers` | packages/platform/host/respond.ts:274-293 | a handler whose generation still holds answers its own call |
| `BridgeDeepHost.FinishDropped` | packages/platform/host/respond.ts:274-293 | a handler whose generation has moved changes nothing |
| `BridgeTheorems.StepKeeps` | packages/platform/host/call.ts:166-456 | every step but a handler started at a generation not its call's, or finishing late, keeps every byte where it belongs |
| `BridgeTheorems.RunInv` | packages/platform/host/call.ts:166-456 | so every state of every run without such a step does |
| `BridgeTheorems.OnlyInTheGap` | packages/platform/host/call.ts:447-456 | a handler is started at a wrong generation only between the two stores of a cancel of its slot |
| `BridgeTheorems.NoCancelStartsWell` | packages/platform/host/call.ts:439-456 | a caller that cancels nothing makes no run with such a start |
| `BridgeTheorems.OneStoreStartsWell` | packages/platform/host/call.ts:453-454 | nor does a bridge whose cancel makes its two stores in one step |
| `BridgeTheorems.NoStopIsInTime` | packages/platform/host/respond.ts:307-344 | while the responder has not stopped no handler finishes late |
| `BridgeTheorems.AnswersAreOwn` | packages/platform/host/call.ts:407-437 | in every run without such a step, for every call: the responder took, and a handler that runs for it runs on, the opcode and payload of the one submit that made it, and `collect` returns what that handler finished with, or the failure the stopping responder gave |
| `BridgeTheorems.SuccessIsWhole` | packages/platform/host/call.ts:401-437 | a success of any length arrives byte for byte if and only if no earlier collect of the call had read any of it |
| `BridgeTheorems.LostToAThrow` | packages/platform/host/call.ts:197-215 | and one had only if it threw because the host had gone, and the caller collected again |
| `BridgeTheorems.RoomRemembered` | packages/platform/host/respond.ts:140-141 | what the first write of an answer found of free buffers |
| `BridgeTheorems.FailureIsWhole` | packages/platform/host/call.ts:413-421 | a handler's failure arrives whole if and only if it fits inline, or fits a buffer and one was free at its first write; otherwise its last piece does |
| `BridgeTheorems.StopFailureIsWhole` | packages/platform/host/respond.ts:317-341 | a failure that the stopping responder gives arrives whole, and only after the flag is up |
| `BridgeTheorems.ResponseBuffersConserved` | packages/platform/host/call.ts:292-318 | in every state of every run without such a step each response buffer is free or attached to exactly one slot |
| `BridgeSplitCancel.SplitCancelMisdelivers` | packages/platform/host/call.ts:447-456 | a run with such a start in which one call gets another's answer |
| `BridgeSplitCancel.StaleAnswerLeaks` | packages/platform/host/call.ts:447-456 | a run with such a start after which a response buffer is held by no slot |
| `BridgeSplitCancel.OwnAnswersIffAtomicCancel` | packages/platform/host/call.ts:447-456 | every call gets its own answer in every run that is in time if and only if the two stores are one step |
| `BridgeSplitCancel.ConservedIffAtomicCancel` | packages/platform/host/call.ts:447-456 | and so for the response buffers: none is lost if and only if they are |
| `BridgeRuns.LongFailureCutShort` | packages/platform/host/call.ts:413-421 | a run, with every buffer free, in which a failure one byte longer than a buffer is raised as that byte |
| `BridgeRuns.SuccessCutShort` | packages/platform/host/call.ts:407-437 | a run in which a success is collected, cut short by the host's going, collected again, and returned without its first piece |
| `BridgeRuns.LateHandlerCorrupts` | packages/platform/host/respond.ts:135-153 | a run in which a handler finishes after the stop, and its call's failure is collected as a success |
| `ChildLife.StateIs` | packages/platform/host/childLife.ts:63-140 | the state after any events, from the events alone: the first settles `loaded`, the first ending one fixes the code |
| `ChildLife.Life` | packages/platform/host/childLife.ts:63-140 | `loaded`, shutdown and exit happen at most once and the exit last; which of them happen, and with what, is decided by the first event and the first ending event |
| `ChildLife.EffectsStay` | packages/platform/host/childLife.ts:19-26 | nothing that has been done is undone by a later event |
| `ChildLife.HeardIs` | packages/platform/host/childLife.ts:104-124 | at most one line is said while the streams are open, by the first ending event |
| `ChildLife.DeathReported` | packages/platform/host/childLife.ts:117-124 | a death is heard about if and only if it came first or after a `ready` |
| `ChildLife.ReasonLost` | packages/platform/host/childLife.ts:117-124 | a child whose grace expires and which then dies: nobody hears why |
| `ChildLife.EmptyTextMeansLoaded` | packages/platform/host/childLife.ts:43-44 | the empty text means that the child loaded, but for a death without a message |
| `Spawn.Child.constructor` | packages/platform/host/children.ts:266-300 | a spawned child starts where the transition function does, with the timer armed |
| `Spawn.Child.Shutdown` | packages/platform/host/children.ts:266-275 | the responder is stopped, the worker terminated and both streams ended, once |
| `Spawn.Child.EndErrWith` | packages/platform/host/queue.ts:194-215 | one last line, unless the stream has ended |
| `Spawn.Child.OnReady` | packages/platform/host/children.ts:311-318 | the flags and promises move as the transition function does |
| `Spawn.Child.OnReturned` | packages/platform/host/children.ts:319-332 | likewise for a result |
| `Spawn.Child.OnThrew` | packages/platform/host/children.ts:319-332 | likewise for a caught throw, whose first line goes to standard error |
| `Spawn.Child.OnError` | packages/platform/host/children.ts:333-351 | likewise for a death, whose first line goes to standard error if the child had started |
| `Spawn.Child.OnTimer` | packages/platform/host/children.ts:284-292 | likewise for the deadline; a cleared timer does nothing, and neither does the transition function |
| `Spawn.Child.Kill` | packages/platform/host/children.ts:364-368 | likewise for a kill |
| `Spawn.Child.Deliver` | packages/platform/host/children.ts:265-368 | whatever is delivered next, started, shutdown, exit code and cause agree with the transition function |
| `Spawn.Replay` | packages/platform/host/children.ts:265-368 | so they agree after any deliveries in any order |
| `Spawn.DiagnosisIsHeard` | packages/platform/host/children.ts:327-350 | the runtime adds a line exactly when the transition function has one heard, and for a death it is that line's first |
| `Spawn.WhatIsTold` | packages/platform/host/children.ts:265-368 | what `loaded` says, by the first notice; the exit code and the line on standard error, word for word, by the first notice that ends the child |
| `Spawn.NothingToldYet` | packages/platform/host/children.ts:265-368 | and before such a notice, no exit and no line |
| `ChildStreams.FrameHistory` | packages/platform/host/child.ts:73-163 | over any operations that leave a frame in place it reads one stretch of its own input, keeps its own accepted writes and warnings in order, and the frames beneath do not change |
| `ChildStreams.ChildIsContained` | packages/platform/host/child.ts:85-105 | push, any operations, pop: the parent gets exactly the accepted writes, the reads are a prefix of the input, and the stack is as before |
| `ChildStreams.AcceptWithinCap` | packages/platform/host/child.ts:144-151 | what is kept never passes the cap and nothing kept is lost |
| `ChildStreams.AcceptAll` | packages/platform/host/child.ts:144-151 | writes that fit together are all kept |
| `ChildStreams.EmptyReadMeansEnd` | packages/platform/host/child.ts:107-129 | a read answers with nothing exactly at the end of the input, and with "no child" exactly when there is none |
| `ChildStreams.ReadsReachTheEnd` | packages/platform/host/child.ts:113-120 | reading chunk by chunk delivers everything, in as many reads as chunks cover it |
| `ChildStreams.ReadAllReadsAll` | packages/platform/host/child.ts:123-129 | reading all gets everything that is left and leaves nothing |
| `ChildStreams.KeptMeansKept` | packages/platform/host/child.ts:144-163 | a write or warning is kept exactly when the output or the warnings grow by just these bytes; refused exactly with no child or past the cap, and then nothing changes |
| `ChildStreams.JoinCases` | packages/platform/host/child.ts:67-71 | absolute paths are left alone, an empty directory or path changes nothing, and any other path stands behind one slash |
| `ChildStreams.JoinAssociates` | packages/platform/host/child.ts:67-71 | joining paths is associative for all strings |
| `ChildStack.Concat` | packages/platform/host/child.ts:172-182 | a fresh array with every part in order |
| `ChildStack.ChildStack.Push` | packages/platform/host/child.ts:85-87 | the stack grows by a frame that has read and kept nothing, and reads from that one more array |
| `ChildStack.ChildStack.Pop` | packages/platform/host/child.ts:101-105 | the innermost frame's output in fresh arrays, or two empty ones |
| `ChildStack.ChildStack.Args` | packages/platform/host/child.ts:89-92 | the innermost frame's arguments, or none |
| `ChildStack.ChildStack.ReadChunk` | packages/platform/host/child.ts:113-120 | a window on the next chunk of the innermost frame's own input |
| `ChildStack.ChildStack.ReadAll` | packages/platform/host/child.ts:123-129 | a window on all that is left |
| `ChildStack.ChildStack.Write` | packages/platform/host/child.ts:144-151 | a copy is kept, or the write refused because of the cap; nobody else's array is ever kept |
| `ChildStack.ChildStack.Warn` | packages/platform/host/child.ts:158-163 | a copy is kept, without a cap |
| `ChildStack.ChildStack.Path` | packages/platform/host/child.ts:166-169 | a path joined to the innermost frame's directory, or unchanged |
| `ChildStack.Drive` | packages/platform/host/child.ts:140-163 | any operations, with every buffer overwritten after its call, leave the stack and give the answers that the operations alone determine |
| `Paths.NormIdempotent` | harness/wacFiles.ts:25-29 | collapsing is idempotent, and collapsing the front first changes nothing |
| `Paths.Respell` | harness/wacFiles.ts:25-29 | ".", empty segments and detours through a name change nothing |
| `Paths.SameNormIffSameWalk` | harness/wacFiles.ts:20-29 | two paths have one normal form if and only if they lead to one place |
| `Paths.KeyIdempotent` | harness/wacFiles.ts:23-30 | a key is its own key |
| `Paths.KeySpells` | harness/wacFiles.ts:20-30 | a key is the spelling of the place its path leads to: the slash of an absolute path, so many "..", then names |
| `Paths.SameKeyIff` | harness/wacFiles.ts:20-30 | two paths get one key if and only if both or neither is absolute and they lead to one place |
| `Paths.KeyOfFront` | harness/wacFiles.ts:19-30 | keying the front first is the same if and only if that does not empty it |
| `Paths.KeyOfAbsolute` | harness/wacFiles.ts:20-30 | an absolute path gets the plain spelling of its target if and only if it never climbs above the root |
| `Paths.KeyedApart` | harness/wacFiles.ts:20-30 | a file at the root under two keys |
| `WacFiles.ResolveFrom` | harness/wacFiles.ts:17-31 | the loop over segments computes the key of the joined path |
| `WacFiles.ResolveLeads` | harness/wacFiles.ts:17-31 | an import leads where the importing file's directory followed by the specifier leads, and its key spells that place |
| `WacFiles.ResolveFromPlace` | harness/wacFiles.ts:17-31 | that is the place of the importing file without its last name, and then the specifier |
| `WacFiles.ResolvePlain` | harness/wacFiles.ts:17-31 | a file imported from beside it, and from a directory below |
| `WacFiles.ResolveBeside` | harness/wacFiles.ts:17-31 | the same with no directory, and in the root |
| `WacFiles.ResolveFromRespelled` | harness/wacFiles.ts:17-31 | however the importing file is spelled, its imports get the same keys |
| `WacFiles.ResolveRespelled` | harness/wacFiles.ts:17-31 | however the specifier is spelled |
| `WacFiles.WacFilesIn` | harness/wacFiles.ts:78-90 | the walk ends on every graph and returns exactly the present files reachable from the entry |
| `WacFiles.AskedAreKeys` | harness/wacFiles.ts:78-90 | every path asked for is the entry as given or a normal form |
| `WacFiles.UnaskedDoNotMatter` | harness/wacFiles.ts:66-90 | files the entry does not ask for can be added, removed or broken without effect |
| `WacFiles.ClosureIdempotent` | harness/wacFiles.ts:66-90 | walking the result gives the result |
| `BuildCache.FramedIs` | harness/buildCache.ts:44-45 | a part is framed by its length in decimal and a colon, and a list by its parts in order |
| `BuildCache.RoundTrip` | harness/buildCache.ts:44-45 | every list of strings can be read back from its framing |
| `BuildCache.FramedInjective` | harness/buildCache.ts:36-45 | two lists are framed alike if and only if they are the same list |
| `BuildCache.PartsAre` | harness/buildCache.ts:50-53 | the i-th two parts are a path and its source, the paths ascend by code units, and there is one pair for each file |
| `Sorting.SortedUnique` | harness/buildCache.ts:50-53 | there is one way to sort entries with distinct paths |
| `BuildCache.KeyMaterialFaithful` | harness/buildCache.ts:44-53 | two maps give one framed string if and only if they hold the same sources under the same paths, whatever their order |
| `Edits.PatchedIsSubstituted` | tools/mutate/types.ts:74-81 | right-to-left splicing of disjoint edits, listed in any order, is substituting them all at once |
| `Edits.TieGoesWrong` | tools/mutate/types.ts:77-79 | an insertion listed before a replacement from its offset: a text and replacements that come out wrong |
| `Edits.SplicingSubstitutesIff` | tools/mutate/types.ts:74-81 | splicing is right for every text and all replacements if and only if there is no such tie |
| `Grouping.Group` | tools/mutate/types.ts:68-73 | one pass gives each file's items in the order they were listed, and the files in the order they first appear |
| `Grouping.GroupOrder` | tools/mutate/types.ts:68-73 | a group is what stands at all the places with its key, in the order of the list |
| `Edits.SpliceAll` | tools/mutate/types.ts:77-79 | the loop over sorted edits |
| `Edits.ApplyEdits` | tools/mutate/types.ts:65-83 | every touched file has its own edits spliced in, every other is unchanged, and a missing one is reported by the first edit that needs it |
| `Shuffle.ShuffleInPlace` | tools/mutate/sample.ts:54-57 | the in-place swaps, against a function of the list and the draws |
| `Shuffle.ShufflePermutes` | tools/mutate/sample.ts:54-57 | the shuffle permutes |
| `Shuffle.PickIs` | tools/mutate/sample.ts:55 | the unit interval is cut into equal parts, one for each position, and a draw in the j-th picks j |
| `Shuffle.ShuffleReaches` | tools/mutate/sample.ts:54-57 | every rearrangement comes from some draws |
| `Shuffle.PicksUnique` | tools/mutate/sample.ts:54-57 | and from only one sequence of picks |
| `Sample.KeysAre` | tools/mutate/sample.ts:50-52 | the groups' files, ascending by code units, each once, none missing |
| `Sample.InterleavingDoesNotMatter` | tools/mutate/sample.ts:50-59 | the shuffled groups do not depend on how the files are interleaved |
| `Sample.StrataReach` | tools/mutate/sample.ts:50-59 | whatever order is asked for in every file, one stream gives them all at once |
| `Sample.StrataPermute` | tools/mutate/sample.ts:50-59 | and no stream gives anything but a rearrangement of each file's mutants |
| `Sample.AnyoneFirst` | tools/mutate/sample.ts:50-59 | so every mutant is its file's first pick under some stream |
| `Sample.TakeRound` | tools/mutate/sample.ts:63-70 | one round takes the next of each group in order, stopping at the count |
| `Sample.TurnByTurn` | tools/mutate/sample.ts:61-72 | the picks are those of every turn up to the last, in order: round by round, and in a round file by file |
| `Sample.SampleMutants` | tools/mutate/sample.ts:38-73 | exactly as many as asked for, in turn; the population itself for a count that is not useful; to the end of a round for a fraction |
| `Sample.FractionTakesOneOfEach` | tools/mutate/sample.ts:61-72 | a fraction below one draws as many as there are files |
| `Sample.DrawnFromPopulation` | tools/mutate/sample.ts:61-72 | no occurrence is picked twice |
| `Sample.DrawnFairly` | tools/mutate/sample.ts:24-31 | no file gets a (k+1)-th mutant until every other file has k or has no more |
| `Sample.FairAtEveryPick` | tools/mutate/sample.ts:61-70 | and that at every pick along the way |

## Left out

- Memory ordering: every access is sequentially consistent, as `Atomics` is; generations and counters are unbounded.
- Steps of the bridge that no other party can observe apart are one step: words of a slot written while its
  status keeps the other side away go with the store that hands it over, as do the buffer, generation,
  status and bump of `release`, and a bump and its `notify`.
- One slot of `failPending` (its status, the exchange, its request buffer's release) is one step, and the text of the failure may differ from slot to slot; a responder fails what is outstanding once, and `opts.signal` is not modelled.
- `acquireBuf`'s scan for a response buffer is one step: only the host takes one, so a scan that finds none found none when it began; one that finds a buffer may pass over one given back behind it, and any free one may be chosen.
- The scheduler (schedule.ts) is off, as in production.
- In `BridgeLoop` a bump of SUBMIT_SEQ and its `notify` are one step, and the two pings of a `collect` that asks for more are one.
- Real time: the deadline of `waitAny` and the readiness grace are events that may come at any moment.
- `describeSlots`, `opName`, fault codes and the texts of errors in `call.ts`.
- A source without the worker marker (children.ts:243-260): everything is settled at once and there is no lifecycle.
- The child's own traffic through the three queues; of `ByteQueue` only what ending a stream does to a last line.
- Spawn.Child.Deliver: compares the line on standard error in number and, for a death, in text; for a caught throw the transition function has a placeholder.
- ChildStack.ChildStack.Push: keeps the caller's input array, as the source does, and so needs it left alone; `unpackPush`, which copies it first, and `packCaptured` are not part of this model.
- WacFiles.WacFilesIn: returns a map, and does not say in which order the source's map iterates; `importPaths` is a parameter.
- `wacFiles`, which reads files as it walks.
- BuildCache.KeyMaterialFaithful: stops at the framed string; UTF-8 encoding, SHA-256, caching and pruning are not part of this model.
- Edits.PatchedIsSubstituted: of several insertions at one offset the last listed comes first, as the source has it; the `was` field is not modelled.
- Sample.SampleMutants: takes any stream in [0, 1) in place of mulberry32, and multiplies it exactly.
- Primality of p, the pairing, and the wac sources that call the kernel.
