# Autoretrieve in Dafny

Autoretrieve answers Bitswap wants with blocks it retrieves from Filecoin. This
project models four of its parts and proves what they promise, over every input,
every run and every interleaving.

**The block manager** (`blocks/manager.go`) lets a caller wait for a block. It is
modelled three times. `WaitProtocol` is an interleaving transition system: callers
of `AwaitBlock`, callers of `Put` and `PutMany`, the poller and the cleanup sweep
are small program counters around one lock and one ten-slot channel, next to an
environment that writes past the manager, deletes blocks, cancels contexts and
advances the clock. `BlockManager` and `PutPath` are the imperative form: a map of
Go slices (backing array, length, capacity) changed in place, and the store writes
with the channel. `WaitList` and `SweepSpec` are the values both refer to, and
`Sections`, `PutSection` and `SweepSection` prove that the critical sections and the Puts
of the imperative form are runs of the transition system.

**The bitswap provider** (`bitswap/provider.go`) sits on top. `ProviderProtocol`
interleaves wants, retrieval goroutines and workers with every step of the manager;
`BitswapProvider` is the imperative form of the message loop and the worker loop, and
`ProviderSection` proves that the body of the message loop is a run of the
interleaving model. `ProviderOutcomes` writes out, for every run, what each decision
of the provider answers.

**The random pruner** (`blocks/randompruner.go`) keeps the store below a threshold.
`Pins`, `RecordFile`, `PruneLoop` and `PrunerSpec` model its parts, `RandomPruner`
is the imperative form with real loops, and `PrunerRuns` lets its operations
interleave with prune goroutines, scanned key by scanned key and draw by draw;
`PruneSection` proves that an uninterrupted prune there is the imperative one, and
`ScanRecords` and `PrunerStore` read pins, scans and the store off the actions of a run.

**The message pusher** (`messagepusher/msgpusher.go`) counts nonces; see `MsgPusher`.

## Main results

- No lost wakeup, its exact exception, and what it means at rest: `NoLostWakeup`,
  `MissedMeansSkipped`, `StoredMeansAnswered`; what a Put stores and announces, alone and
  in every run: `PutIsASection`, `PutStoresThenAnnounces`, `ChannelIsFifo`.
- Every waiter is in one place and is called at most once: `WaiterConservation`,
  `CalledAtMostOnce`; when a cancelled one is called: `CancelledWaiterIsCalledExactly`.
- The manager, and the provider with the manager inside, never deadlock, and every
  schedule of the work at hand is finite: `EveryScheduleFinishes`,
  `EveryProviderScheduleFinishes`.
- What a completed sweep removes, whatever interleaves with it: `SweepRemovesExactly`.
  The in-place sweep is exact, and the slice handed to the notifier is never written
  again: `SweepIsExact`, `Manager.Sweep`, `TakenSliceIsStable`, `SweepIsASection`.
- How often a want is answered, with what, and exactly when it is not:
  `AtMostTwoResponses`, `EntriesAreDecided`, `SilentWants`; who cancels its wait,
  `WaitIsCancelledExactly`; end to end, `WantsAreAnsweredOrSilent`; and as the server is wired,
  `RetrievedWantsGetNothing`.
- From response to message nothing is lost or invented, and each addition is what its
  own lookup said: `TasksAreConserved`, `SentIsConfirmed`, `BlacklistedTasks`.
- When a prune starts, when the deletion loop ends or gives up, and what it deletes:
  `PrunesStartExactly`, `OwnFileEndsExactly`, `GivesUpExactly`, `PruneDrawsAreBounded`,
  `PruneConserves`, `FinishedPrune`.
- Pins are exact although they are evicted lazily, safe at the scan, and not safe at
  the deletion: `PinsAreExact`, `DeletesOnlyUnpinned`, `ScannedIsDoomed`.
- What the store and the tracked size are: `PrunerStore.StoreFollows`,
  `SizeSinceReport`, `SizeCoversStore`.
- A message is pushed exactly when every answer is given, and nonces are consecutive
  exactly when gas estimation keeps them: `SubmitOutcome`, `NonceSequence`.

## What the code does differently from what it says

- A waiter is only woken by `Manager.Put` or `Manager.PutMany`. The provider builds
  its link system on the inner store (`bitswap/provider.go:105`), so retrieved blocks
  wake nobody: `OnlyPutWakes`. The server never calls those two
  (`autoretrieve.go:113` hands the manager to the provider only), so a want that had to
  wait is never answered positively; after a retrieval that succeeded it gets a
  DONT_HAVE for the failed load, or nothing if the sweep dropped its wait:
  `RetrievedWantsGetNothing`. That nothing happens with its block stored is
  `SuccessCanBeSilent`.
- The comment on `AwaitBlock` (`blocks/manager.go:59-64`) says that the callback is
  not called when the block is missing or the context is cancelled. A cancelled waiter
  can be called with its block, `CancelledCanBeCalled`, and is if and only if the
  notifier gets to it before the sweep does, `CancelledWaiterIsCalledExactly`.
- `PruneBytes` is documented to default to half of the threshold
  (`blocks/randompruner.go:28-31`); the effective value is the larger of the two
  settings: `EffectiveIsMax`. The documented default pin duration of one day
  (`blocks/randompruner.go:33-35`) is not applied in that file: without a positive
  duration nothing is ever pinned, `PinsNeedADuration`.
- `lastSizeUpdate` is never assigned, so every `Poll` more than a minute past Go's
  zero time takes over the disk usage, and not one a minute: `EveryPollResyncs`.
- A line of the record file that does not parse makes the deletion loop spin without
  counting. A prune of its own file is sure to end if and only if every CID text but
  the last has at most 64 characters, `OwnFileEndsExactly`; `LongKeyNeverEnds` is a
  list of keys over which it is not.
- A block can be deleted while it is pinned, `PinnedCanBeDeleted`: the pin is looked at
  during the scan only. At its deletion a key is pinned if and only if it was used,
  less than the pin duration ago, after it was scanned, `ScannedIsDoomed`.

## Model

| member | source | states |
|---|---|---|
| WaitTheorems.NoLostWakeup | blocks/manager.go:65-154 | a stored block that a waiter relies on is still to be announced: in a Put, in the channel, or with the poller before its lock section; unless an announcement was skipped after the waiter's lookup |
| WaitTheorems.MissedMeansSkipped | blocks/manager.go:107-111 | a waiter counts as missed exactly when, after its own lookup, some action of the run skipped an announcement of its block |
| WaitTheorems.SettledWaitersAreMissing | blocks/manager.go:65-154 | at rest, with nothing skipped, a listed waiter's block is not in the store |
| WaitTheorems.StoredMeansAnswered | blocks/manager.go:99-154 | at rest a registered waiter whose block is stored and unskipped was called exactly once, or dropped with its context cancelled; with no timeout configured it was called exactly once with its block |
| WaitTheorems.SilentWriteLosesWakeup | bitswap/provider.go:105 | the exception is real: in any state at rest a write through the inner store leaves a listed waiter with its block stored and no announcement under way |
| WaitTheorems.WaiterConservation | blocks/manager.go:141-184 | in every run each registered waiter is in exactly one of listed, captured, called, dropped; a call carries its own block or the timeout, and only cancelled waiters are dropped |
| WaitTheorems.CalledAtMostOnce | blocks/manager.go:65-97 | every callback runs at most once; an AwaitBlock that returned without registering ran it exactly once, with the block exactly if it returned true |
| CancelledWaits.CancelledWaiterIsCalledExactly | blocks/manager.go:141-170 | a registered waiter, cancelled or not, is called with its block if and only if the notifier took it off the list; else, once off the list, it was dropped or timed out |
| CancelledWaits.CancelledCanBeCalled | blocks/manager.go:150-152 | there is a run in which a waiter is cancelled while listed and then called with its block |
| PutSection.PutIsASection | blocks/manager.go:101-135 | PutMany of any blocks in the transition system, with the poller beside it: every CID of the blocks is stored with the size of its last block and every other CID is as it was, or only the blocks before the failing write are; then all blocks go through the channel in order and the call succeeds, or those before the abandoned select do and it fails |
| PutSection.PutStoresThenAnnounces | blocks/manager.go:118-135 | in every run a call has sent a prefix of its blocks in order, all of them if it succeeded, and sends nothing and does not succeed before it has written every one of them |
| PutSection.FailedPutsHaveACause | blocks/manager.go:99-135 | in every run a Put or PutMany fails only if the inner store failed it or its context was cancelled |
| PutSection.StoreFollows | blocks/manager.go:99-135 | in every run the store holds for a CID what the last write of it, by a Put or past the manager, or its deletion has left, or what was there at first |
| PutSection.ChannelIsFifo | blocks/manager.go:44-139 | in every run what the poller received and what is queued is what was sent, in that order |
| PutSection.ChannelHoldsTen | blocks/manager.go:44-44 | in every run the channel holds ten blocks at most, and a call can send exactly while it holds fewer |
| WaitProgress.DeadlockFreedom | blocks/manager.go:68-183 | while any AwaitBlock, Put, PutMany, notification or sweep is unfinished, some goroutine has an enabled step, for any number of them |
| WaitProgress.EveryScheduleFinishes | blocks/manager.go:65-184 | whatever the environment does in between, without new work the goroutines make at most as many steps as the rank, and can stop only where everything is finished |
| WaitProgress.WorkFinishes | blocks/manager.go:65-184 | from every reachable state some schedule finishes everything |
| SweepRuns.SweepRemovesExactly | blocks/manager.go:156-183 | in every run, whatever interleaves from taking the lock to releasing it: what was cancelled or older than the configured timeout at the start is off the list and was dropped as cancelled or called once with the timeout, what is neither at the end is still there, nothing was added, and no empty bucket remains |
| SweepSpec.SweepIsExact | blocks/manager.go:156-183 | the whole sweep, in every visiting order: one exact verdict per entry, what is cancelled or older than the timeout at the start goes, what is neither at the end stays, and no empty bucket remains |
| SweepSpec.SweepExamines | blocks/manager.go:161-175 | the inner loop examines every entry exactly once despite the reordering |
| SweepSpec.BucketConserves | blocks/manager.go:161-175 | old entries are the survivors, the timed-out and the dropped ones, as multisets |
| BlockManager.Manager.Sweep | blocks/manager.go:156-183 | one pass over the map computes the sweep of the wait list, in some visiting order |
| BlockManager.TakenSliceIsStable | blocks/manager.go:144-152 | the slice the notifier iterates without the lock still shows the same entries after any number of later lock sections |
| SweepSection.SweepIsASection | blocks/manager.go:156-183 | for every visiting order and all monotone readings the transition system has a run of the sweep, the clock and cancellations that does what the imperative sweep does |
| Sections.AwaitIsASection | blocks/manager.go:65-97 | AwaitBlock without interruption in the transition system does what the imperative method does |
| Sections.NotifyIsASection | blocks/manager.go:141-154 | so does the notifier |
| ProviderTheorems.AtMostTwoResponses | bitswap/provider.go:141-199 | over every run a want gets at most two responses, at most one positive one and of the kind asked for, and exactly one when answered from the store or by AwaitBlock returning true |
| ProviderTheorems.SilentWants | bitswap/provider.go:124-386 | once its goroutines are done and its waiter is off the list, a want has no response if and only if it is a cancel entry, or of a type no other answer settles, or its store check failed in the run, or its retrieval ID did, or the sweep dropped its cancelled wait after a retrieval that succeeded, or one already running if the environment cancelled it |
| ProviderOutcomes.EntriesAreDecided | bitswap/provider.go:124-199 | in every run, entry by entry: DONT_HAVE for a blacklisted CID; HAVE, or BLOCK with its size, as asked, for a CID in the store at that moment; DONT_HAVE for a missing one without a retriever, and a retrieval with one; nothing for a cancel entry or a failed check |
| ProviderOutcomes.CallbacksRespond | bitswap/provider.go:333-348 | in every run each call of a wait's callback queues one response: HAVE or BLOCK as asked for its block, DONT_HAVE for an error or a timeout |
| ProviderOutcomes.RetrievalsRespond | bitswap/provider.go:356-385 | no candidates and a failure queue DONT_HAVE and cancel the wait, a success only cancels it, and a retrieval already running does neither |
| ProviderTheorems.WaitIsCancelledExactly | bitswap/provider.go:332-384 | in every run the wait of a want is cancelled if and only if the environment cancelled it, its callback has run, or its retrieval ended otherwise than by finding another one running |
| ProviderTheorems.RunningWaitsAreKept | bitswap/provider.go:363-365 | a wait whose retrieval was already running is dropped only if the environment cancelled it |
| ProviderTheorems.BlacklistedWants | bitswap/provider.go:135-139 | no blacklisted CID is ever waited for or answered positively |
| ProviderTheorems.BlacklistedTasks | bitswap/provider.go:242-268 | nothing positive about a blacklisted CID is ever queued, held by a worker or sent |
| ProviderDelivery.TasksAreConserved | bitswap/provider.go:222-319 | over every run the tasks of all responses ever queued are, as a multiset, those queued, those held by workers and those behind the messages sent |
| ProviderDelivery.EveryResponseIsDelivered | bitswap/provider.go:222-319 | when nothing is left to do and there are workers, every response ever queued was handed to SendMessage, behind exactly one message |
| ProviderDelivery.WantsAreAnsweredOrSilent | bitswap/provider.go:124-386 | end to end: when nothing is left to do, there are workers and a want's waiter is off the list, either there is a silent cause, or each response to the want, and there is one, was handed to SendMessage; not both |
| ProviderDelivery.SentIsConfirmed | bitswap/provider.go:240-273 | each addition of each message sent in any run was made by a lookup of its own, by the worker that sent the message, in the round that ended with it, at that very task; HAVE or BLOCK exactly if the task asks for that and the store had the block at that moment, DONT_HAVE otherwise |
| ProviderTheorems.WorkersAreBounded | bitswap/provider.go:113-115 | in every run only the configured number of workers ever moves |
| ProviderTheorems.MessagesAreComplete | bitswap/provider.go:240-273 | every message sent has one addition for each task it answers, in order, for one peer, positive only where asked for |
| ProviderProgress.ManagerIsNotBlocked | bitswap/provider.go:333-348 | the provider never stands in the way of a step of the manager |
| ProviderProgress.PDeadlockFreedom | bitswap/provider.go:124-386 | while a want, a retrieval, a worker, a queued task or anything of the manager is unfinished, some goroutine can move |
| ProviderProgress.EveryProviderScheduleFinishes | bitswap/provider.go:124-386 | whatever the environment does in between, without new work provider and manager make boundedly many steps, and can stop only where everything is finished |
| ProviderTheorems.ProviderRefinesManager | bitswap/provider.go:332-385 | every provider run contains a run of the manager, so the manager's theorems about all runs hold inside it |
| ProviderTheorems.WantsAreWoken | bitswap/provider.go:330-348 | no lost wakeup for wants, unless an announcement was skipped for them |
| ProviderTheorems.OnlyPutWakes | bitswap/provider.go:105 | if nobody calls Manager.Put or PutMany, no registered wait is ever answered with its block |
| ProviderTheorems.RetrievedWantsGetNothing | bitswap/provider.go:332-385 | then a want that had to wait never gets a positive response; once its goroutines are done, its retrieval succeeded and its waiter is off the list, it has no response exactly if its wait was dropped, and one DONT_HAVE for the failed load otherwise |
| SilentSuccess.SuccessCanBeSilent | bitswap/provider.go:356-385 | for every retrievable want there is a run in which the retrieval succeeds, the block is stored, and the want gets no response |
| ProviderSection.LoopBodyIsASection | bitswap/provider.go:124-201 | from every state in which a want is about to be handled with the lock free, the interleaving model has a run that queues, waits and retrieves what the body of the message loop does |
| BitswapProvider.EveryEntryIsHandled | bitswap/provider.go:124-201 | between the states before and after entry i of a message lies exactly one handling of it, written out for every answer of the store, the ID and AwaitBlock |
| BitswapProvider.MessageIsSafe | bitswap/provider.go:124-201 | a message queues at most one task per entry at once and keeps blacklisted CIDs out of positive tasks, retrievals and the wait list |
| Pins.PinsAreExact | blocks/randompruner.go:292-319 | under a monotone clock isPinned is true exactly if some updatePin of the CID happened less than the pin duration ago |
| Pins.QueriesAreInvisible | blocks/randompruner.go:312-317 | runs with the same uses answer alike, whatever was asked and evicted on the way |
| PrunerTheorems.PutsArePinned | blocks/randompruner.go:122-148 | after every run a Put of any blocks, written or not, pins exactly those for the operator's duration, and leaves what is pinned otherwise as it was |
| PrunerSpec.ScanIsExact | blocks/randompruner.go:209-224 | the scan keeps exactly the keys without a use younger than the pin duration, in order, however its queries evict entries |
| PrunerTheorems.PinSafety | blocks/randompruner.go:209-224 | in every run a prune deletes only CIDs it scanned at a moment when no use was younger than the pin duration |
| ScanRecords.DeletesOnlyUnpinned | blocks/randompruner.go:209-287 | the same over the actions of a run: what a draw takes out of the store, its prune had looked at when no use by any Put before was younger than the operator's pin duration |
| ScanRecords.ScannedIsRecorded | blocks/randompruner.go:209-224 | what a prune notes of a scanned key is true of the run: it looked at that key, at that time, after that many uses |
| PrunerTheorems.ScannedIsDoomed | blocks/randompruner.go:281-287 | in every run a draw deletes its scanned key exactly if the block is there and the store does not fail, and the key is pinned at that moment if and only if it was used recently after it was scanned |
| PinnedDeletion.PinnedCanBeDeleted | blocks/randompruner.go:281-287 | for every CID and every configuration that prunes there is a run in which the block is deleted while it is pinned |
| PrunerTheorems.OnePruneAndItsFile | blocks/randompruner.go:172-225 | in every run at most one prune is alive, and while it draws the shared file yields exactly the keys it scanned |
| PrunerTheorems.PrunesStartExactly | blocks/randompruner.go:151-183 | after every run a Poll, by itself or in a Put, launches a prune if and only if the size it goes by is at least the operator's threshold and no prune is alive |
| PrunerTheorems.SettingsStay | blocks/randompruner.go:60-94 | threshold and pin duration are used as given in every run, with the larger of threshold and pruneBytes as the amount to prune |
| PruneSection.PruneIsASection | blocks/randompruner.go:188-290 | for all keys, clocks and draws the interleaving model has a run of an uninterrupted prune that scans, writes, deletes and ends as the imperative one |
| PrunerTheorems.PruneDrawsAreBounded | blocks/randompruner.go:246-287 | however other operations interleave, a prune of n keys, none but the last with a text over 64 characters, makes at most 11 * (n + 1 + b) more draws, b being the blocks put meanwhile |
| PrunerTheorems.FinishedPrune | blocks/randompruner.go:188-290 | whatever ran beside it, a prune that returned met a failure, or found no unpinned key, or its own draws took at least the larger of the two settings out of the store, or its last eleven draws of a readable line each met a store without their CID; and with eleven of those in a row it has given up |
| RecordFile.RecordRoundTrip | blocks/randompruner.go:206-259 | seeking to record i, reading a line, trimming and parsing yields the i-th CID whenever all earlier texts have at most 64 characters |
| RecordFile.LongRecordShifts | blocks/randompruner.go:219-259 | behind the first longer text the next index reads that text's tail |
| RecordFile.RoundTripExactly | blocks/randompruner.go:206-259 | the file works as an array of CIDs exactly when no text but the last is longer than 64 characters |
| PruneLoop.PruneTerminates | blocks/randompruner.go:229-287 | with a readable file of n lines the loop ends within 11 * (n + 1) iterations under every sequence of draws and faults |
| PruneLoop.PruneTerminatesExactly | blocks/randompruner.go:259-263 | there is a bound on the iterations if and only if there is nothing to prune or every line parses |
| PruneLoop.OwnFileEndsExactly | blocks/randompruner.go:205-287 | in terms of the keys: there is a bound over the file written for them if and only if there is nothing to prune or every text but the last has at most 64 characters |
| PruneLoop.LongKeyNeverEnds | blocks/randompruner.go:259-263 | two keys, one with a text of 71 characters, over which no prune with anything to do is sure to end |
| PruneLoop.GivesUpExactly | blocks/randompruner.go:246-287 | with a readable file the loop gives up at a draw if and only if it and the ten before it each read a CID that was not in the store when it was drawn |
| PruneLoop.RowIsCounted | blocks/randompruner.go:246-287 | with any file it has given up if and only if eleven draws in a row missed, where a line that does not parse neither counts nor interrupts |
| PruneLoop.PruneConserves | blocks/randompruner.go:246-289 | deleted CIDs are distinct, stored before and from the file; bytesPruned is the exact fall of the stored bytes and without the last deletion below the target; an errorless end means the target or eleven misses in a row |
| PruneLoop.OwnFilePrune | blocks/randompruner.go:199-287 | a prune over the file it wrote ends within the bound and deletes only those CIDs, if no text but the last is over 64 characters |
| RandomPruner.PruneFreesEnough | blocks/randompruner.go:188-290 | a finished prune that met no failure of the store freed at least the larger of the two settings, or there are eleven draws in a row of keys that were not there when drawn; and it counts exactly what the store lost |
| PrunerSpec.EffectiveIsMax | blocks/randompruner.go:70-76 | the effective amount is the larger of threshold and setting, half of the threshold only if that is zero; the other settings are left as given |
| PrunerTheorems.EveryPollResyncs | blocks/randompruner.go:151-170 | after every run a Poll takes over the reported disk usage if and only if there is one and the clock is more than a minute past the zero time |
| PrunerTheorems.PinsNeedADuration | blocks/randompruner.go:33-94 | with a pin duration that is not positive nothing is pinned at any time after any run, and a use pins exactly if the duration is positive |
| PrunerStore.StoreFollows | blocks/randompruner.go:107-290 | in every run, whatever interleaves, the store holds for a CID what its last write by a Put, failed ones as far as they got, or its deletion since, by request or by a draw, has left, or what was there at first |
| PrunerTheorems.SizeSinceReport | blocks/randompruner.go:107-170 | after any run the tracked size is the stored bytes plus what the last report was above them, plus bytes written again since, minus bytes that failing writes left behind, while that is in range |
| PrunerTheorems.SizeSinceStart | blocks/randompruner.go:78-148 | the same before any report, from the disk usage at the start |
| PrunerTheorems.SizeCoversStore | blocks/randompruner.go:107-170 | when reported usage covers the store and failed writes leave nothing extra, the tracked size never falls below the stored bytes and no deletion wraps |
| PrunerTheorems.SizeIsExactWhenFresh | blocks/randompruner.go:107-170 | with fresh blocks and exact reports it equals them |
| MsgPusher.NonceSequence | messagepusher/msgpusher.go:53-78 | over every run the messages pushed for a key, where every answer was given, carry base, base + 1, base + 2 and so on, if and only if gas estimation gave each of them back its nonce |
| MsgPusher.NoReuse | messagepusher/msgpusher.go:78 | no nonce of a key is used twice within 2^64 pushes |
| MsgPusher.NextNonce | messagepusher/msgpusher.go:53 | the next message carries base plus the number of pushes, whatever failed before |
| MsgPusher.FailureDoesNotAdvance | messagepusher/msgpusher.go:33-81 | a call with any answer missing never advances a counter, no call touches another key, and a call with all answers advances its key's counter by one |
| MsgPusher.SubmitOutcome | messagepusher/msgpusher.go:33-81 | a call succeeds if and only if every answer it needs is given, else names the first that is not; it pushes the estimate with fee cap 4000000000 and the premium doubled, for the key found; of the caller's message only the nonce changes |
| MsgPusher.CallersAreTold | messagepusher/msgpusher.go:33-81 | over every run a call returns a message signed for a key exactly if its message for that key was pushed, with that nonce |
| WaitInvariants.Step | blocks/manager.go:65-184 | every step of every goroutine keeps the lock discipline, the callback counts, the books of listed and captured waiters, the sweep's position and the wake-up invariant |
| ProviderInvariants.PStep | bitswap/provider.go:124-386 | every step of wants, retrievals, workers and manager keeps the provider's invariant |
| PrunerTheorems.InvStep | blocks/randompruner.go:107-319 | every step of every operation and prune goroutine keeps the pruner's invariant |
| BlockManager.Manager.Append | blocks/manager.go:81-85 | the slices refine the map of buckets; backing arrays of different CIDs stay disjoint |
| BlockManager.Manager.Take | blocks/manager.go:143-148 | the notifier's lock section hands the whole bucket over and keeps no slice on its array |
| BlockManager.Manager.Notify | blocks/manager.go:141-154 | the bucket leaves the list and each entry is called once with the block, in order |
| BlockManager.Manager.AwaitBlock | blocks/manager.go:65-97 | registers exactly when the block is missing, otherwise calls back at once; true exactly when the block was there |
| BlockManager.Manager.SweepBucket | blocks/manager.go:160-175 | the in-place loop with its stepped-back index computes the sweep of the bucket, and terminates |
| PutPath.PutSide.Put | blocks/manager.go:99-116 | stores the block, announces it unless the call left through its context, and fails exactly if the write failed or it left |
| PutPath.PutSide.PutMany | blocks/manager.go:118-133 | every CID stored with the size of its last block and no other touched, exactly those before the first abandoned select announced, in order; a failing store announces nothing |
| BitswapProvider.Provider.HandleEntry | bitswap/provider.go:125-200 | the loop body, written out: DONT_HAVE for a blacklisted CID, HAVE or BLOCK as asked for a stored one, DONT_HAVE without a retriever, else a wait and a retrieval as AwaitBlock answers |
| BitswapProvider.Provider.ReceiveMessage | bitswap/provider.go:124-201 | the loop handles every entry of the message once, in order, each as written out for the loop body |
| BitswapProvider.Provider.RetrieveForPeer | bitswap/provider.go:321-356 | what is queued, registered and started, for every answer of NewRetrievalID and AwaitBlock |
| BitswapProvider.Provider.BuildMessage | bitswap/provider.go:240-268 | one addition per task; HAVE and BLOCK exactly when asked for and found |
| BitswapProvider.Provider.WorkOnce | bitswap/provider.go:223-276 | the popped tasks leave the queue and one message answers them; no tasks, no message |
| RandomPruner.NewRandomPruner | blocks/randompruner.go:60-105 | fails exactly without a disk usage, otherwise returns the configured pruner after one Poll |
| RandomPruner.RandomPruner.UpdatePin | blocks/randompruner.go:292-301 | the use joins the history and, if time does not go back, the pin table still agrees with all of it |
| RandomPruner.RandomPruner.IsPinned | blocks/randompruner.go:303-319 | yes exactly if some use in the history is younger than the pin duration; a key answered no is evicted and no other, and evicting keeps the table in agreement |
| RandomPruner.RandomPruner.Poll | blocks/randompruner.go:151-183 | resyncs the size and starts a prune exactly when the size is at the threshold and none is running |
| RandomPruner.RandomPruner.DeleteBlock | blocks/randompruner.go:107-120 | deletes and subtracts exactly if lookup and deletion both succeed |
| RandomPruner.RandomPruner.Put | blocks/randompruner.go:122-132 | pin, poll, write and count one block, with the failure exit; no other CID of the store changes |
| RandomPruner.RandomPruner.PutMany | blocks/randompruner.go:134-148 | the same for many blocks, each stored with the size it was last given |
| RandomPruner.RandomPruner.WriteKeys | blocks/randompruner.go:205-225 | the file holds one record for each key that has no young use in the history when it is looked at, in order |
| RandomPruner.RandomPruner.DeleteRandomly | blocks/randompruner.go:246-287 | the loop over the file, the store and the size computes the deletion loop on values |
| RandomPruner.RandomPruner.Prune | blocks/randompruner.go:188-290 | scan, file, deletion and the release of the lock, for every sequence of draws |
| MsgPusher.MsgPusher.MpoolPushMessage | messagepusher/msgpusher.go:33-81 | counters, caller's message and result for every answer of gateway and wallet, with all five failure exits; a success, and an advanced counter, exactly if every answer was given |

## Left out

- RecordFile.RoundTripExactly: assumes that the first CID text longer than 64 characters does not continue, behind its 65th character, with the text of its successor in the scan; the two directions without that assumption are RecordRoundTrip and LongRecordShifts.
- PruneLoop.OwnFileEndsExactly: assumes that what is left of the first long CID text behind its 65th character is not itself a CID; without that assumption the exact condition is PruneTerminatesExactly.
- ProviderDelivery.EveryResponseIsDelivered: a message handed to SendMessage counts as sent even if sending fails, as in the code, which only logs that.
- BlockManager.Manager.Sweep: buckets are visited in an arbitrary order over the keys present at the start, which is what Go's iteration gives here because the lock is held throughout.
- PutPath.PutSide.PutMany: a select that finds the channel full and does not leave is completed by one receive of the poller; the fairness of that receive is `EveryScheduleFinishes`.
- ProviderProgress.EveryProviderScheduleFinishes: Retrieve is taken to return; sweep ticks, new wants and new calls count as new work; with no workers configured, queued tasks stay queued.
- The write of PutMany is one step per block in the interleaving model; overwriting an entry, reslicing and calling back with a timeout (blocks/manager.go:168-173) is one step, since the lock is held.
- Callbacks are single steps that do not re-enter the manager, as the provider's are.
- The wants of one message run as independent goroutines in the interleaving model, which allows more interleavings than the code's loop; the loop itself is `ReceiveMessage`.
- The task queue is a multiset: priorities, work sizes, merging and freezing of tasks belong to a library.
- Message encoding, merging of additions for one CID, pending bytes, the network, routing and the wake-up of workers by signal and timer.
- The retriever is an arbitrary outcome; retrieved data enters as writes through the inner store.
- The parent context of a message: a wait context may be cancelled at any time.
- CIDs are identities with printing and parsing as an inverse pair; the store is a map from CIDs to sizes, so multihash keys and different CID forms of one block are not distinguished.
- The record file is ASCII text, one character per byte; the scanner's limit of 64 KiB a line is not modelled. Failing file operations are one error exit at the start of the scan.
- Each pruner operation, scanned key and iteration is atomic: races on the unsynchronised `size` field are not modelled. All pins of one PutMany carry one time.
- The prune's context never ends (it is context.Background()), so its two checks are not modelled.
- Gas estimation returns a new message; if it handed back the caller's own message object, the caller would also see the gas fields. A push that fails after the node accepted the message is not told apart from one that was refused.
- Logging, metrics, signing, gas values, byte-count formatting.
- config.go, bitswap/util.go, keystore, endpoint, minerpeergetter, paychannelmanager, main.go, autoretrieve.go and metrics: configuration, file, HTTP and RPC glue.
