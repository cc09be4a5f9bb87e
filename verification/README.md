# Streamer verification

A Dafny model of the logic of a PCM audio streamer: Rust firmware that captures
audio and sends it, a Python bridge that plays it out to listeners, and a
TypeScript console that reads the device's log and signs requests. `dafny verify
dfyconfig.toml` checks everything.

The model follows one pattern. A component is described on values: a datatype for
its state, a function for each operation, with the branches, constants and error
conditions of the code. Where the code updates an object in place, a class does
the same and every method's contract equates the new state with that function of
the old state (`View()`). What the component promises is then proved about the
functions, mostly over every run of operations.

- Playout (`Playout`, `PlayoutBuffer`, `PlayoutLedger`, `PlayoutRefinement`,
  `PlayoutReadiness`, `PlayoutCounts`, `SerialNumbers`, `Pcm`): the jitter buffer over
  uint32 numbers. Each operation takes the sequence space, so the same policy is read over
  wrapping and over unbounded numbers and the first is shown to refine the second.
- Adaptation (`AdaptiveTarget`, `AdaptiveExactness`, `AdaptiveBuffer`, `QualityWindow`,
  `QualityWindows`, `WallSeconds`): bucketed sixty-second windows against the direct
  definition over all arrivals, and exactly which depth they lead to.
- Log (`LogLines`, `LogEscapes`, `LoggedLines`, `BoundedLog`, `LogDrops`, `LogBuffer`,
  `ConsoleLog`, `ConsoleCatchUp`): a byte array against the list of all lines ever logged,
  these against the chunks they came in, and the console's merged view of it.
- Configuration (`ConfigState`, `ConfigRuns`): two slots and a commit marker, cut
  at any write and damaged at any time.
- Sources (`Gates`, `SourceGate`, `SourceRegistry`, `RegistryInvariant`, `RegistryRekeying`,
  `RegistryAdmission`, `RegistryRuns`, `RegistryObject`): generations, leases, admission,
  re-keying, eviction.
- Fan-out (`ClientFanout`, `FanoutSafety`, `FanoutProgress`, `ClientQueues`): publisher,
  clients and evictions as interleaved steps.
- Keys (`Hex`, `Text`, `TransportKeys`, `KeyRoles`, `KeyStores`, `KeyRuns`, `KeyLifecycle`,
  `DeviceSettings`): the two-slot key record, the roles it plays, and what a verified mark
  stands for.
- Wire (`Wire`, `Framing`, `Reconnecting`): printed packets over a stream that
  takes and delivers bytes in any pieces.
- Smaller machines: play detection (`PlayDetection`, `IdleLearning`, `PlayDetectors`),
  buffered output (`BufferedOutput`, `BufferedWriters`), digest authentication
  (`DigestFields`, `DigestCount`, `DigestAuth`, `DigestClient`, `DigestSecrets`,
  `DigestObjects`).

Four expectations turned out not to hold as stated. For each the code is kept, a concrete
case is given, and the exact condition is proved:

- Appending to the log ends only for capacities of 964 bytes and more, although the
  code asserts only more than 960 (`SmallBufferSticks`, `AppendEndsExactly`).
- A client can be handed a stream with a gap: a read can come between the discarding steps
  of its eviction. What it reads has no gap exactly if no read overtakes the drain; what it
  hands on has none exactly if it completes no batch after such a read, for a batch that
  the end mark cuts short is dropped (`ADrainCanBeOvertaken`, `StreamIsStraightExactly`,
  `HandsOnStraightExactly`).
- An open producer lease of an older generation does not keep its source from being
  evicted (`SupersededLeaseDoesNotHold`, `EvictedExactly`).
- Staging does not keep every key record valid: it can mint the id of an orphan key in the
  second slot, and that is the only way; all other operations keep validity. From the
  default record no orphan arises, because every stored key plays exactly one role
  (`ValidIsNotKept`, `StageKeepsValidExactly`, `OthersKeepValid`, `EveryRunIsSound`).

## Model

| member | source | states |
|---|---|---|
| `SerialNumbers.DistanceIsUnique` | bridge/src/streamline_bridge/playout.py:82-85 | the distance is the one value in the signed 32-bit range that leads from the base to the number |
| `SerialNumbers.WrapKeepsDistance` | bridge/src/streamline_bridge/playout.py:82-85 | wrapped numbers have the true distance if and only if it is within half the sequence space (section 3.2 of RFC 1982) |
| `Pcm.AttenuateSamples` | bridge/src/streamline_bridge/playout.py:88-91 | fading keeps each sample's sign, never makes it louder, changes nothing at step 0 and ends in zero |
| `Pcm.AttenuateToSilence` | bridge/src/streamline_bridge/playout.py:88-91 | silence fades to silence, and every payload does once the steps are used up |
| `PlayoutReadiness.AttenuateCurve` | bridge/src/streamline_bridge/playout.py:88-91 | a fade is sample by sample the sample times the share of the steps that is left, to within half a unit |
| `Playout.StepInv` | bridge/src/streamline_bridge/playout.py:151-297 | every operation, in either number space, keeps the cap on buffered packets, no packet behind the playout number, and the applied depth in bounds |
| `PlayoutRefinement.StepRefines` | bridge/src/streamline_bridge/playout.py:159-247 | one operation over uint32 numbers has the same outcome and a matching state as over unbounded numbers, for arrivals within half the space of each anchor they are compared with (the highest number only when the packet is stored) |
| `PlayoutRefinement.RunRefines` | bridge/src/streamline_bridge/playout.py:159-247 | over any run, through any number of wraps, every admission decision and every chunk agree with the unbounded buffer |
| `PlayoutRefinement.FreshRefines` | bridge/src/streamline_bridge/playout.py:97-137 | a new buffer matches itself in both spaces, so the agreement holds for every run from the start |
| `PlayoutLedger.FreshBalanced` | bridge/src/streamline_bridge/playout.py:97-137 | an empty ledger balances a new buffer |
| `PlayoutLedger.EveryPacketAccountedFor` | bridge/src/streamline_bridge/playout.py:159-201 | in the ledger booked event by event over a run, packets received are those late, duplicate, over the cap or stored, and each stored one was delivered by the run and is still buffered, played, removed by reduction or discarded by a clear or close |
| `PlayoutLedger.AdaptationOnlyStretchesSilence` | bridge/src/streamline_bridge/playout.py:213-247 | over any run chunks emitted are numbers consumed plus the growth of the expansion counter less that of the reduction counter, and in every stretch, with neighbouring silences merged, the emitted sequence is the consumed one |
| `PlayoutLedger.KindIsTheChunk` | bridge/src/streamline_bridge/playout.py:213-248 | what the ledger records for a chunk is the chunk the listener gets, under the next number in serial order |
| `PlayoutLedger.PlayedInSerialOrder` | bridge/src/streamline_bridge/playout.py:218-242 | until the buffer is cleared, packets, those played by a reduction included, are played in strictly increasing serial order, so none twice |
| `PlayoutLedger.AppliedMovesTowardTarget` | bridge/src/streamline_bridge/playout.py:196-223 | the applied depth is set to the target when buffering ends, otherwise moves one packet toward it, and stays in bounds |
| `PlayoutLedger.ConcealedRunEnds` | bridge/src/streamline_bridge/playout.py:225-247 | an unbroken run of concealed chunks is at most the outage limit plus one, whatever arrives and however often the producer leaves or is replaced meanwhile |
| `PlayoutReadiness.ArrivalExactly` | bridge/src/streamline_bridge/playout.py:159-201 | an open buffer keeps exactly the packets that are neither late, duplicate nor over the cap, the first one sets where playout begins, and the producer is told to go exactly when the buffer is closed or full |
| `PlayoutReadiness.ReadyExactly` | bridge/src/streamline_bridge/playout.py:193-201 | playout becomes ready with exactly the stored packet that brings the buffer to its target, the applied depth is then the target, and no other arrival changes either |
| `PlayoutReadiness.IdleTick` | bridge/src/streamline_bridge/playout.py:203-211 | before playout is ready a chunk is silence and changes nothing; after a close there is none |
| `PlayoutReadiness.AudioTick` | bridge/src/streamline_bridge/playout.py:224-248 | a buffered packet with sound is the next chunk, once, and playout moves to the number after it |
| `PlayoutReadiness.SilentTick` | bridge/src/streamline_bridge/playout.py:213-242 | a silent packet is one chunk of silence; below the target it first stands for one more, above it two in a row stand for one |
| `PlayoutReadiness.MissingTick` | bridge/src/streamline_bridge/playout.py:225-231 | a missing packet is the linear fade of the last chunk as often as the policy repeats it, then silence |
| `PlayoutReadiness.MissingMovesOn` | bridge/src/streamline_bridge/playout.py:225-247 | a missing packet raises the target unless another impairment came within the second, moves playout on, and one over the outage limit starts buffering again |
| `PlayoutReadiness.LateImpairs` | bridge/src/streamline_bridge/playout.py:174-178 | a late packet is an impairment too, on top of what its arrival says about jitter |
| `PlayoutReadiness.OtherEvents` | bridge/src/streamline_bridge/playout.py:151-264 | a session reset starts buffering again and forgets what was played, a disconnect only impairs, a close drops everything and wakes the worker |
| `PlayoutReadiness.EveryEventIsAnswered` | bridge/src/streamline_bridge/playout.py:151-264 | over any run every event is answered as the state it finds answers it |
| `PlayoutReadiness.FullBufferPlays` | bridge/src/streamline_bridge/playout.py:159-231 | over every run from a new buffer, whenever as many packets as the target are held the next chunk is not silence for want of packets |
| `PlayoutReadiness.FullWrappedBufferPlays` | bridge/src/streamline_bridge/playout.py:159-231 | the same over uint32 numbers, for arrivals near enough to compare |
| `PlayoutCounts.ArrivalCounts` | bridge/src/streamline_bridge/playout.py:162-187 | every arrival counts as a packet and at most once more, as late, duplicate, over the cap or out of order; only a late one is a quality event |
| `PlayoutCounts.HighestIsKept` | bridge/src/streamline_bridge/playout.py:188-192 | the number others count as out of order against is the one furthest ahead of those kept |
| `PlayoutCounts.ChunkCounts` | bridge/src/streamline_bridge/playout.py:213-247 | a chunk adds exactly the counter and the quality event of what it was, an underrun included |
| `PlayoutCounts.InterruptionCounts` | bridge/src/streamline_bridge/playout.py:250-264 | a disconnect is a quality event, a reset or a close is neither counted nor one |
| `PlayoutBuffers.PlayoutBuffer.Open` | bridge/src/streamline_bridge/playout.py:97-137 | durations become packet counts; a buffer time over the maximum is refused, otherwise the buffer is fresh with those bounds |
| `PlayoutBuffers.PlayoutBuffer.Ingest` | bridge/src/streamline_bridge/playout.py:159-201 | the object's admission is the specified one, result and whole state, and keeps the invariant |
| `PlayoutBuffers.PlayoutBuffer.NextChunk` | bridge/src/streamline_bridge/playout.py:203-248 | the object's next chunk is the specified one, chunk and whole state, and keeps the invariant |
| `PlayoutBuffers.PlayoutBuffer.Lose` | bridge/src/streamline_bridge/playout.py:225-247 | a missing packet is concealed, counted and, past the outage limit, clears the buffer |
| `PlayoutBuffers.PlayoutBuffer.ClearForRebuffer` | bridge/src/streamline_bridge/playout.py:279-292 | a clear leaves no packets, no anchors and no run, and stays ready only when closed |
| `PlayoutBuffers.PlayoutBuffer.ResetSourceSession` | bridge/src/streamline_bridge/playout.py:250-254 | a session reset also forgets the payload used for concealment |
| `PlayoutBuffers.PlayoutBuffer.NoteTcpDisconnect` | bridge/src/streamline_bridge/playout.py:260-264 | a disconnect is one quality event and one impairment |
| `PlayoutBuffers.PlayoutBuffer.Close` | bridge/src/streamline_bridge/playout.py:151-157 | closing drops every packet and wakes the worker |
| `AdaptiveTarget.RequiredCovers` | bridge/src/streamline_bridge/adaptive_buffer.py:52-54 | the required depth covers the spread less a nanosecond, or is the maximum, and is in bounds |
| `AdaptiveTarget.ObserveBounds` | bridge/src/streamline_bridge/adaptive_buffer.py:34-64 | one counted arrival covers the window's spread, keeps the bounds, and lowers the target by at most a step after a clean minute |
| `AdaptiveTarget.AgreesStep` | bridge/src/streamline_bridge/adaptive_buffer.py:29-71 | with a monotone clock every step keeps the buckets equal to the arrivals of the last sixty whole seconds |
| `AdaptiveTarget.SpreadIsAttained` | bridge/src/streamline_bridge/adaptive_buffer.py:44-52 | the window's high and low are transit times of two recent arrivals, and the deque never exceeds sixty |
| `AdaptiveTarget.RunCoversTrueJitter` | bridge/src/streamline_bridge/adaptive_buffer.py:34-71 | at the end of any run, the target covers the transit difference of any two arrivals of the last sixty seconds, or is the maximum |
| `AdaptiveTarget.DecayNeedsACleanMinute` | bridge/src/streamline_bridge/adaptive_buffer.py:58-71 | the target falls only by an arrival, by at most a step, a clean minute after every change and impairment |
| `AdaptiveExactness.StepIsLeast` | bridge/src/streamline_bridge/adaptive_buffer.py:22 | a step is the fewest whole packets, at least one, that last for fifty milliseconds |
| `AdaptiveExactness.RequiredIsLeast` | bridge/src/streamline_bridge/adaptive_buffer.py:52-54 | the required depth is the least whole number of steps over the minimum that covers the spread, capped at the maximum, and the minimum itself for a spread within the slack |
| `AdaptiveExactness.LeastDepthIsOne` | bridge/src/streamline_bridge/adaptive_buffer.py:52-54 | there is only one such least depth |
| `AdaptiveExactness.ObservedTarget` | bridge/src/streamline_bridge/adaptive_buffer.py:52-64 | a counted arrival leads to exactly one target: a lower one rises to the least depth, in a clean minute a higher one comes down a step but not below it, otherwise it stays |
| `AdaptiveExactness.StragglerIsIgnored` | bridge/src/streamline_bridge/adaptive_buffer.py:34-36 | a packet behind the latest one changes nothing |
| `AdaptiveExactness.ImpairedTarget` | bridge/src/streamline_bridge/adaptive_buffer.py:66-71 | an impairment raises the target by a step or to the maximum unless another came within the second, and no minute is clean for the next sixty seconds |
| `AdaptiveExactness.BurstsAddUp` | bridge/src/streamline_bridge/adaptive_buffer.py:66-71 | after any number of impairments a second apart the target is that many steps up, or the maximum |
| `AdaptiveExactness.CalmNeverRaises` | bridge/src/streamline_bridge/adaptive_buffer.py:34-71 | over every run, while transit times stay within the slack and nothing is impaired the target never rises |
| `AdaptiveBuffers.AdaptiveBuffer.Observe` | bridge/src/streamline_bridge/adaptive_buffer.py:34-64 | the object's step, with its expiry loop, is the specified one |
| `AdaptiveBuffers.AdaptiveBuffer.Impair` | bridge/src/streamline_bridge/adaptive_buffer.py:66-71 | an impairment raises the target once a second at most and always postpones decay |
| `Quality.RecordAgrees` | bridge/src/streamline_bridge/quality.py:29-36 | recording an event keeps the buckets equal to the direct count over the log of all events |
| `Quality.RunCounts` | bridge/src/streamline_bridge/quality.py:29-51 | after any recordings and polls each reported total is the number of events in the last sixty whole seconds |
| `Quality.ObservedSinceFirst` | bridge/src/streamline_bridge/quality.py:43-46 | the reported period is the time since the first event, at most a minute and never negative |
| `QualityWindows.QualityWindow.Record` | bridge/src/streamline_bridge/quality.py:29-36 | the object's recording is the specified one |
| `QualityWindows.QualityWindow.Snapshot` | bridge/src/streamline_bridge/quality.py:38-47 | the totals are those of the unexpired buckets |
| `LogLines.SanitizedTwice` | firmware/streamline/src/logs.rs:276-307 | sanitising is idempotent |
| `LogEscapes.SeenText` | firmware/streamline/src/logs.rs:276-307 | of raw text made of visible bytes, control bytes, lone escapes, control sequences and perhaps an unfinished one, the line gets the first 240 visible bytes without the spaces at their end |
| `LogEscapes.EveryTextHasPieces` | firmware/streamline/src/logs.rs:276-307 | every raw text is made of such pieces |
| `LogLines.BlockReads` | firmware/streamline/src/logs.rs:225-266 | the bytes alone tell how many lines are stored, whether the last is open and how long it is |
| `LogBuffers.Sanitize` | firmware/streamline/src/logs.rs:276-307 | the loop over the raw bytes leaves exactly the sanitised text in the array |
| `BoundedLog.SurplusFits` | firmware/streamline/src/logs.rs:240-258 | dropping whole lines to a limit of a line or more ends within it, no sooner than needed, and never takes the open line |
| `BoundedLog.AppendFits` | firmware/streamline/src/logs.rs:125-135 | an append keeps the buffer well formed, with room for the open line's newline, and its history is everything logged |
| `BoundedLog.HoldsTheLastLines` | firmware/streamline/src/logs.rs:125-258 | after any appends the bytes are exactly the last lines of everything logged, each clean, numbered from the count dropped |
| `LoggedLines.CutAtNewlines` | firmware/streamline/src/logs.rs:125-135 | a chunk is cut at its newlines and nowhere else |
| `LoggedLines.LogIsTheLines` | firmware/streamline/src/logs.rs:125-223 | over all chunks since boot the log is the lines of their segments: a chunk continues the line the one before left open, lines without wording are none, and a line is what its segments say one after the other, up to 240 bytes |
| `LogDrops.DropsExactly` | firmware/streamline/src/logs.rs:186-212 | an append drops lines if and only if those held, with what it adds and a newline at the end, are more than the capacity |
| `LogDrops.DropsNoMore` | firmware/streamline/src/logs.rs:161-258 | an eviction keeps as many of the last lines as three quarters of the capacity hold, a copy as many as fit it |
| `BoundedLog.SmallBufferSticks` | firmware/streamline/src/logs.rs:72-74 | in 961 to 963 bytes three appended lines lead to a state that eviction leaves as it is while the next line does not fit |
| `BoundedLog.AppendEndsExactly` | firmware/streamline/src/logs.rs:199-203 | eviction makes room for every write, so every append ends, if and only if the capacity is at least 964 |
| `BoundedLog.CopyIsWholeLines` | firmware/streamline/src/logs.rs:161-183 | the bytes copied are whole lines of the source and the newlines left behind are its dropped lines |
| `BoundedLog.CopyFits` | firmware/streamline/src/logs.rs:161-183 | a copy into another capacity is well formed and its dropped count accounts for exactly the lines left behind |
| `LogBuffers.LogBuffer.Append` | firmware/streamline/src/logs.rs:125-135 | the object's append is the specified one on the byte array, ends, and extends the ghost history by the chunk |
| `LogBuffers.LogBuffer.Evict` | firmware/streamline/src/logs.rs:240-258 | eviction moves the kept bytes to the front; the arm without a newline is never taken |
| `LogBuffers.LogBuffer.CopyInto` | firmware/streamline/src/logs.rs:161-183 | the destination becomes the specified copy, keeping boot and last ordinal |
| `LogBuffers.LogBuffer.FirstSequence` | firmware/streamline/src/logs.rs:153-156 | whatever the memory holds, the lines numbered from there end at the next ordinal unless there are too many; in a valid buffer it is the dropped count |
| `LogBuffers.LogBuffer.IsIntact` | firmware/streamline/src/logs.rs:112-116 | of arbitrary memory, what passes can be numbered without saturation; every valid buffer passes exactly when its layout is stamped |
| `ConsoleLog.AnswerIsNumbered` | console/src/state/logs.ts:50-55 | the lines read from an answer are the device's held lines under their ordinals |
| `ConsoleLog.MergeFaithful` | console/src/state/logs.ts:67-80 | a merge adds new ordinals in order and keeps every held text a beginning of the device's line |
| `ConsoleLog.ViewIsFaithful` | console/src/state/logs.ts:67-80 | over any appends, polls and restarts the view has strictly increasing device ordinals, at most a thousand lines, each a beginning of the device's line |
| `ConsoleLog.PollReachesTheEnd` | console/src/state/logs.ts:67-80 | after a poll the view ends with the device's newest line |
| `ConsoleCatchUp.PollKeepsUp` | console/src/state/logs.ts:67-80 | a poll before the device drops an unseen line leaves a view of the newest thousand lines, without a gap, the others counted as trimmed |
| `ConsoleCatchUp.TimelyPollsMissNothing` | console/src/state/logs.ts:67-80 | over any run of appends, restarts and timely polls the view has no gap |
| `ConfigState.MarkerFits` | firmware/streamline/src/state.rs:85-97 | a marker of two snapshots always fits its record |
| `ConfigState.MarkersDiffer` | firmware/streamline/src/state.rs:85-97 | different commits print different markers |
| `ConfigState.SaveLoadsBack` | firmware/streamline/src/state.rs:118-172 | a completed save of a state of up to 3840 bytes loads back what was saved |
| `ConfigState.SaveIsAtomic` | firmware/streamline/src/state.rs:118-144 | a save cut at any write leaves the state before or the state being saved, whatever the store held, also on the fallback |
| `ConfigState.DamageFallsBack` | firmware/streamline/src/state.rs:132-171 | after two completed configured saves, damage to the active slot yields the earlier one |
| `ConfigRuns.LoadIsCommitted` | firmware/streamline/src/state.rs:114-172 | over every run of cut saves and damage, a load returns nothing, the last state fully committed or what was loaded just before that one, byte for byte what its slot holds |
| `ConfigRuns.OnlyTheLastTwo` | firmware/streamline/src/state.rs:118-172 | the same in terms of the run: the last completed save, or what a load would have returned just before it if both are configured |
| `ConfigRuns.ResetForgets` | firmware/streamline/src/state.rs:132-135 | after a completed reset only the reset or a state fully saved since is ever loaded |
| `ConfigRuns.StateStore.Committed` | firmware/streamline/src/state.rs:146-172 | the loop over the marker's snapshots finds the specified current snapshot, with read errors passed on |
| `ConfigRuns.StateStore.Load` | firmware/streamline/src/state.rs:114-116 | loading answers the specified state or the storage error |
| `ConfigRuns.StateStore.Save` | firmware/streamline/src/state.rs:118-144 | saving performs the two writes in order, is cut where the storage fails, and refuses a state over 3840 bytes before any write; it succeeds exactly when nothing of that happens |
| `SourceGates.SessionsNeverMix` | bridge/src/streamline_bridge/sources.py:37-55 | after any run the next chunk is silence, or a packet of the current generation, or a fade of one |
| `SourceGates.ReplacedProducerIsShutOut` | bridge/src/streamline_bridge/sources.py:51-59 | once replaced, a producer's packets are refused and change nothing, whatever happens between, further connections included |
| `SourceGates.NewProducerIsHeard` | bridge/src/streamline_bridge/sources.py:37-55 | the first packet of a producer that just connected to an open buffer is taken, is all that is held and plays next |
| `SourceGates.TcpSourceGate.Connect` | bridge/src/streamline_bridge/sources.py:37-49 | a new connection takes the next generation, resets the session and returns the old connection |
| `SourceGates.TcpSourceGate.Ingest` | bridge/src/streamline_bridge/sources.py:51-55 | only the current generation reaches the buffer |
| `SourceGates.TcpSourceGate.Release` | bridge/src/streamline_bridge/sources.py:61-67 | only the current connection can release the gate |
| `RegistrySafety.EvictedExactly` | bridge/src/streamline_bridge/sources.py:357-367 | a source is evicted if and only if it is dynamic, has no consumer lease and no current producer lease, and was idle for the period |
| `RegistrySafety.RekeyedIsUnbound` | bridge/src/streamline_bridge/sources.py:276-328 | a source that is re-keyed has no pinned, recording or live producer lease; all others keep key and place |
| `RegistryRekeying.RekeyedExactly` | bridge/src/streamline_bridge/sources.py:276-328 | a source is re-keyed if and only if the key is not registered and the source is the first, in preference order, that its open leases leave free |
| `RegistryRuns.PerformInv` | bridge/src/streamline_bridge/sources.py:198-328 | every operation keeps the registry's invariant |
| `RegistryRuns.ReachableStatesAreSound` | bridge/src/streamline_bridge/sources.py:198-367 | in every reachable state the capacity holds, entries are under their own keys, counters are the open leases, and connected means an open lease of the current generation |
| `RegistryRuns.BoundSourceStays` | bridge/src/streamline_bridge/sources.py:306-367 | no operation short of shutdown takes the entry of a source with a pinned, recording or live producer lease |
| `RegistryRuns.BoundSourceStaysThroughout` | bridge/src/streamline_bridge/sources.py:306-367 | over any run, for as long as it is so bound a source keeps its entry |
| `RegistryRuns.SupersededLeaseDoesNotHold` | bridge/src/streamline_bridge/sources.py:244-265 | an evicted source whose superseded producer lease is still open, reached by two connections |
| `RegistryAdmission.RefusedExactly` | bridge/src/streamline_bridge/sources.py:276-301 | a producer is refused exactly when an allow list lacks its address, its key is no identity, or the registry is full, the key new and no source free to move, each with its reason |
| `RegistryAdmission.KnownKey` | bridge/src/streamline_bridge/sources.py:283-288 | a registered key is the source stored under it, which only learns where its producer is now |
| `RegistryAdmission.MovedSource` | bridge/src/streamline_bridge/sources.py:289-299 | a new key takes over the first source free to move, which is then stored under the new key alone and keeps its gate and its listeners |
| `RegistryAdmission.NewSource` | bridge/src/streamline_bridge/sources.py:300-304 | with nothing to take over a new key gets a new source, permanent for its own listed address |
| `RegistryAdmission.AdmittedUnderItsKey` | bridge/src/streamline_bridge/sources.py:276-304 | however it is admitted, a producer's source is stored under its canonical key with its peer and transport |
| `RegistryAdmission.ProducerLease` | bridge/src/streamline_bridge/sources.py:198-215 | an admitted producer holds the last lease, of the source under its key, which its connection feeds under the next generation; a refused one leaves what eviction left |
| `RegistryAdmission.SelectedExactly` | bridge/src/streamline_bridge/sources.py:330-355 | a request by key gets the source under that key or none, one without a key the only source or a pending one, and is refused as ambiguous exactly for two or more |
| `RegistryAdmission.ConsumerLease` | bridge/src/streamline_bridge/sources.py:230-242 | an admitted consumer holds the last lease, pinned if it asked by key, of the source it asked for |
| `RegistryAdmission.ReleaseCloses` | bridge/src/streamline_bridge/sources.py:244-265 | releasing closes that lease alone, and shuts the gate exactly when it is the current producer's |
| `RegistryAdmission.NothingAfterShutdown` | bridge/src/streamline_bridge/sources.py:223-228 | after the shutdown no key is known and the leases stay to be released |
| `SourceRegistries.SourceRegistry.LeaseProducer` | bridge/src/streamline_bridge/sources.py:198-215 | admission evicts, acquires and connects as specified, or is refused with the specified reason; the evicted sources are returned either way |
| `SourceRegistries.SourceRegistry.Acquire` | bridge/src/streamline_bridge/sources.py:276-304 | the entry found, reused, re-keyed or created is the specified one |
| `SourceRegistries.SourceRegistry.FindReusable` | bridge/src/streamline_bridge/sources.py:306-328 | the search returns the first candidate the rules allow |
| `SourceRegistries.SourceRegistry.Select` | bridge/src/streamline_bridge/sources.py:330-355 | selection creates the pending source, takes the only one, or refuses with the specified reason |
| `SourceRegistries.SourceRegistry.LeaseConsumer` | bridge/src/streamline_bridge/sources.py:230-242 | a consumer lease is the specified step and is numbered last, or is refused with the specified reason; the evicted sources are returned either way |
| `SourceRegistries.SourceRegistry.Release` | bridge/src/streamline_bridge/sources.py:244-265 | releasing a lease is the specified step and happens once |
| `SourceRegistries.SourceRegistry.EvictExpired` | bridge/src/streamline_bridge/sources.py:357-367 | the eviction loop leaves the specified registry and returns exactly the sources removed |
| `SourceRegistries.SourceRegistry.Close` | bridge/src/streamline_bridge/sources.py:223-228 | shutdown empties the registry and returns every source |
| `FanoutSafety.StepInv` | bridge/src/streamline_bridge/fanout.py:47-119 | every event of every interleaving keeps the invariant |
| `FanoutSafety.NewcomerStarts` | bridge/src/streamline_bridge/fanout.py:47-56 | a client's stream starts at the first chunk published after it registered |
| `FanoutSafety.LatecomersWait` | bridge/src/streamline_bridge/fanout.py:47-69 | a client registered after the close is given nothing, not even an end mark, until another close |
| `FanoutSafety.StreamIsStraightExactly` | bridge/src/streamline_bridge/fanout.py:71-119 | over every interleaving what a client reads from its queue is the published stream without a gap if and only if no read overtakes its drain |
| `FanoutSafety.HandsOnStraightExactly` | bridge/src/streamline_bridge/fanout.py:71-119 | over every interleaving what a client hands on is the published stream without a gap if and only if it completes no batch after a read that overtook its drain |
| `FanoutSafety.ADrainCanBeOvertaken` | bridge/src/streamline_bridge/fanout.py:102-119 | a run from the start in which a client reads and hands on chunk 2 after the drain discarded chunk 1 |
| `FanoutSafety.YieldsWhatItRead` | bridge/src/streamline_bridge/http.py:110-123 | what a client hands on is a beginning of what it read |
| `FanoutSafety.EvictionEndsTheStream` | bridge/src/streamline_bridge/fanout.py:102-111 | a client is evicted at most once and its stream then ends with the end mark |
| `FanoutSafety.EndMarkFits` | bridge/src/streamline_bridge/fanout.py:110-111 | the queue is empty when the end mark is put |
| `FanoutSafety.ListenerIsUpToDate` | bridge/src/streamline_bridge/fanout.py:71-79 | what a registered client read and has queued reaches up to the chunk it is next due |
| `FanoutProgress.QueuesAreBounded` | bridge/src/streamline_bridge/fanout.py:47-79 | over every interleaving no queue is longer than its capacity |
| `FanoutProgress.EvictedWasFull` | bridge/src/streamline_bridge/fanout.py:71-79 | over every interleaving a client is evicted only if the publisher came with a chunk when as many as the capacity were unread |
| `FanoutProgress.LeavingIsFinal` | bridge/src/streamline_bridge/fanout.py:58-60 | a client that leaves while nothing is published is given nothing more and is not evicted, whatever comes |
| `FanoutProgress.PublisherFinishes` | bridge/src/streamline_bridge/fanout.py:62-119 | from any state so many steps of the publisher's thread finish what it is doing |
| `FanoutProgress.ReaderCatchesUp` | bridge/src/streamline_bridge/http.py:110-123 | a client with only chunks queued hands on all of them, in order, if it goes on reading |
| `ClientQueues.ClientQueue.Drain` | bridge/src/streamline_bridge/fanout.py:114-119 | the draining loop empties the queue |
| `ClientQueues.ClientQueue.CollectHttpBatch` | bridge/src/streamline_bridge/http.py:110-123 | a batch and what stays are the queue as it was; an end mark drops the unfinished batch |
| `Wire.PrintedParses` | bridge/src/streamline_bridge/protocol.py:35-80 | every packet the firmware prints is accepted with its number and payload |
| `Wire.ParsedWasPrinted` | bridge/src/streamline_bridge/protocol.py:35-80 | every accepted packet is byte for byte what the firmware prints for it |
| `Wire.HeaderOnTheWire` | firmware/streamline/src/protocol.rs:37-54 | the header byte by byte |
| `Wire.EncodeHeader` | firmware/streamline/src/protocol.rs:37-54 | filling the header field by field gives the specified header |
| `Wire.AudioPacket.FromPcm` | firmware/streamline/src/packet.rs:14-19 | the array holds the packet of that number and payload |
| `Wire.AudioPacket.Silence` | firmware/streamline/src/packet.rs:25-29 | the array holds the packet of that number without a payload |
| `Wire.AudioPacket.AsBytes` | firmware/streamline/src/packet.rs:21-23 | the bytes sent are exactly the printed packet |
| `Wire.AudioPacket.PayloadBytes` | firmware/streamline/src/packet.rs:31-33 | the length read back from the array is the payload's |
| `Framing.WriteAllWith` | firmware/streamline/src/transport.rs:425-438 | over any short writes a prefix arrives, in order; it succeeds, with all of it, exactly when the stream goes on taking something and never more than it was offered |
| `Framing.SendPackets` | firmware/streamline/src/transport.rs:393-438 | packets are sent in order until one fails, all of them exactly when the stream goes on taking |
| `Framing.RecvExact` | bridge/src/streamline_bridge/tcp.py:96-116 | over any short reads the bytes are exactly the next ones; a clean end and a truncated frame are told apart, and nothing else is reported over a connection that only delivers, an idle time before the first byte included where that is allowed |
| `Framing.CutStreamReads` | bridge/src/streamline_bridge/tcp.py:129-141 | a printed stream cut anywhere reads as exactly its complete packets, and ends cleanly exactly between packets |
| `Framing.WholeStreamReads` | bridge/src/streamline_bridge/tcp.py:129-141 | a whole printed stream reads back as the packets printed |
| `Framing.ReceiveSource` | bridge/src/streamline_bridge/tcp.py:119-145 | however the bytes are delivered, the packets ingested are the stream's, in order, all of them at its end; over a connection that only delivers there is no other way to stop than the end or a refusal |
| `Framing.Deliver` | firmware/streamline/src/transport.rs:393-438 | from the firmware's packets over short writes and short reads, exactly the packets that arrived whole are ingested, and all of them when neither side fails |
| `Reconnecting.FreshMeansFirst` | firmware/streamline/src/transport.rs:393-415 | over every run a send reports a new connection exactly when it is the first to succeed on it, and no connection is gone back to |
| `Reconnecting.SendsExactly` | firmware/streamline/src/transport.rs:386-415 | after any calls a send succeeds exactly when there is a stream or one can be made, the caller is ready and the stream takes the bytes, on the stream there was or else on a new one |
| `Reconnecting.ReconnectingSender.SendAll` | firmware/streamline/src/transport.rs:393-415 | connecting lazily, dropping a failed stream and reporting the connection are the specified step |
| `Hex.EncodedInjective` | firmware/streamline/src/hex.rs:4-12 | no two byte strings render alike, and the digits are lowercase |
| `Hex.Encode` | firmware/streamline/src/hex.rs:4-12 | the loop renders two digits a byte |
| `Hex.DecodeHex` | firmware/streamline/src/transport.rs:506-522 | a text is read exactly when it is the rendering of thirty-two bytes, and reads as those |
| `TransportKeys.ValidIdsAreMinted` | firmware/streamline/src/transport.rs:498-504 | the ids that pass validation are exactly those the device can mint |
| `TransportKeys.ValidIsNotKept` | firmware/streamline/src/transport.rs:246-275 | a valid record with an orphan key, over which staging produces a duplicate id |
| `TransportKeys.StageKeepsValidExactly` | firmware/streamline/src/transport.rs:145-168 | staging over a valid record leaves it valid if and only if it does not mint the id of an orphan in the second slot |
| `TransportKeys.OthersKeepValid` | firmware/streamline/src/transport.rs:170-244 | every other operation keeps any valid record valid |
| `TransportKeys.StageSound` | firmware/streamline/src/transport.rs:145-168 | staging, also when it fails, keeps the record valid with one role for every key |
| `TransportKeys.RestSound` | firmware/streamline/src/transport.rs:185-244 | so do marking, resetting, discarding, activating, rolling back and retiring |
| `TransportKeys.StageSucceedsExactly` | firmware/streamline/src/transport.rs:145-168 | staging succeeds if and only if nothing but an active key with another id is stored |
| `TransportKeys.DiscardUndoesStage` | firmware/streamline/src/transport.rs:201-207 | staging and discarding leave the record as it was |
| `TransportKeys.RollbackTwice` | firmware/streamline/src/transport.rs:220-231 | rolling back swaps the two keys, so twice is nothing |
| `TransportKeys.ActivationCanBeUndone` | firmware/streamline/src/transport.rs:209-218 | the key an activation replaces is the one kept to fall back on |
| `KeyRoles.StageRoles` | firmware/streamline/src/transport.rs:145-168 | in terms of active, staged and fallback key: staging needs neither of the last two and a new id, each refusal has its reason, and then the minted key waits for proof |
| `KeyRoles.RecoverRoles` | firmware/streamline/src/transport.rs:170-183 | recovery drops every key but the active one and fails only for a clash of ids |
| `KeyRoles.ProofRoles` | firmware/streamline/src/transport.rs:185-198 | proof can be noted exactly for a staged key and taken back at any time |
| `KeyRoles.DiscardRoles` | firmware/streamline/src/transport.rs:201-207 | a staged key can be given up, and only that |
| `KeyRoles.ActivateRoles` | firmware/streamline/src/transport.rs:209-218 | exactly a proven staged key becomes the active one, and the one it replaces the fallback |
| `KeyRoles.FallbackRoles` | firmware/streamline/src/transport.rs:220-244 | exactly with a fallback key and none staged, falling back swaps the two and retiring drops one, each refusal with its reason |
| `KeyRoles.LoadsExactly` | firmware/streamline/src/transport.rs:246-275 | a record validates exactly when its markers name stored keys in different roles, a proof is about a staged key and the ids are mintable and distinct |
| `KeyStores.KeyStore.Stage` | firmware/streamline/src/transport.rs:145-168 | the object's staging is the specified one, returns the minted key and keeps the record sound |
| `KeyStores.KeyStore.Recover` | firmware/streamline/src/transport.rs:170-183 | recovery drops all but the active key, then stages |
| `KeyStores.KeyStore.Activate` | firmware/streamline/src/transport.rs:209-218 | the object's activation is the specified one, with its two refusals |
| `KeyStores.KeyStore.RollbackKey` | firmware/streamline/src/transport.rs:220-231 | the object's rollback is the specified one, with its three refusals |
| `KeyStores.KeyStore.RetireRollback` | firmware/streamline/src/transport.rs:233-244 | the object's retirement is the specified one, with its three refusals |
| `KeyStores.KeyStore.MarkPendingVerified` | firmware/streamline/src/transport.rs:185-191 | the object marks the staged key, and refuses when there is none |
| `KeyStores.KeyStore.ResetPendingVerification` | firmware/streamline/src/transport.rs:196-198 | only the mark is dropped |
| `KeyStores.KeyStore.DiscardPending` | firmware/streamline/src/transport.rs:201-207 | the object's discard is the specified one |
| `KeyRuns.EveryRunIsSound` | firmware/streamline/src/transport.rs:246-319 | over every run from the default state, failed writes included, validation succeeds, secure mode has an active key, and every stored key has exactly one role |
| `KeyRuns.EditKeepsProofExactly` | firmware/streamline/src/config.rs:200-215 | a target edit costs the staged key its proof if and only if host or port changes |
| `KeyRuns.VerifiedMeansAccepted` | firmware/streamline/src/transport.rs:333-353 | a verified mark means this very key was accepted at the current host and port, with neither changed since |
| `KeyRuns.ActiveKeysWereAccepted` | firmware/streamline/src/transport.rs:209-218 | every key that is active or kept to fall back on was accepted by the bridge configured at the time |
| `KeyLifecycle.TargetIsSet` | firmware/streamline/src/config.rs:200-215 | a target edit stores the host less whitespace around it, and the port, and leaves mode and keys |
| `Text.TrimParts` | firmware/streamline/src/config.rs:200-206 | what trimming takes away is whitespace on either side and nothing else |
| `KeyLifecycle.VerifiesExactly` | firmware/streamline/src/transport.rs:333-353 | verification succeeds exactly with a target, a staged key and a bridge there that accepts it, each refusal with its reason |
| `KeyLifecycle.ModeExactly` | firmware/streamline/src/transport.rs:311-320 | secure mode can be chosen exactly when a key is active, cleartext always |
| `KeyLifecycle.ModeFollows` | firmware/streamline/src/adapters/http/handlers/transport.rs:25-145 | recovery also goes back to cleartext, activation turns secure mode on, other key operations leave mode and target alone |
| `KeyLifecycle.RotationCompletes` | firmware/streamline/src/transport.rs:145-353 | from any state a run leads to, with a target and nothing but an active key, staging, proving and activating puts the new key in use and keeps the old one to fall back on |
| `DeviceSettings.Settings.UpdateTarget` | firmware/streamline/src/config.rs:200-215 | the object's edit trims the host, drops a void verification and changes only what is given |
| `DeviceSettings.Settings.VerifyPending` | firmware/streamline/src/transport.rs:333-353 | verification asks about the staged key at the configured target and marks it only if it was accepted there; a refusal changes nothing |
| `PlayDetection.AlwaysInv` | firmware/streamline/src/play.rs:109-173 | in every run, relearns included, the counters are in range and the sixteen-bit noise floor loses nothing |
| `PlayDetection.FloorFits` | firmware/streamline/src/play.rs:109-157 | the noise floor fits and the stop threshold is below the start threshold |
| `PlayDetection.StopsExactly` | firmware/streamline/src/play.rs:133-142 | playback stops at exactly the first packet where some suffix since the onset has quiet less eight times loud of 375 |
| `PlayDetection.StartsExactly` | firmware/streamline/src/play.rs:128-147 | playback starts at exactly the first packet ending twenty-four loud ones in a row |
| `PlayDetection.PeriodsAreLong` | firmware/streamline/src/play.rs:116-149 | without a relearn, playing lasts at least 375 packets, pausing at least 24, and nothing starts before warm-up and debounce |
| `PlayDetection.RelearnLeavesNoGap` | firmware/streamline/src/play.rs:97-105 | after a relearn during playback, any stream of packets of RMS 297 and more is reported as playing throughout, further relearns included |
| `PlayDetection.SafeLevelExactly` | firmware/streamline/src/play.rs:97-157 | a steady level survives a relearn without a gap if and only if it is at least 297 |
| `IdleLearning.QuietPacketIsLearned` | firmware/streamline/src/play.rs:162-173 | a packet that is not music, also in a pause while playing, brings the learned idle level a quarter unit nearer |
| `IdleLearning.QuietRoomIsLearned` | firmware/streamline/src/play.rs:162-173 | a steady level below 150 never counts as playing and is learned to within a quarter unit, whatever was believed before |
| `IdleLearning.MusicIsNotLearned` | firmware/streamline/src/play.rs:162-173 | while it plays above the stop threshold the learned idle level stays as it is |
| `IdleLearning.SilenceStops` | firmware/streamline/src/play.rs:116-149 | 375 packets in a row below 60 always stop playback, whatever was learned and played before |
| `PlayDetectors.PlayDetector.Update` | firmware/streamline/src/play.rs:116-149 | the object's update is the specified one and reports the specified state |
| `PlayDetectors.PlayDetector.Relearn` | firmware/streamline/src/play.rs:97-105 | relearning starts afresh and holds the report only if it was playing |
| `BufferedOutput.DrainKeeps` | firmware/streamline/src/buffered_writer.rs:23-35 | draining moves bytes and changes none; some stay behind exactly when it fails, and it fails exactly when the sink stops taking, an interruption being retried |
| `BufferedOutput.WriteAppends` | firmware/streamline/src/buffered_writer.rs:39-49 | a write appends exactly what it reports, in order, also directly to the sink; it succeeds exactly when it fits, or the buffer drains and the sink takes what is too much for it |
| `BufferedOutput.FlushEmpties` | firmware/streamline/src/buffered_writer.rs:51-54 | a successful flush hands over everything, a failed one loses nothing, and it fails exactly when the sink stops taking |
| `BufferedOutput.StreamIsAccepted` | firmware/streamline/src/buffered_writer.rs:12-55 | over any calls and any sink, received bytes followed by pending ones are all bytes accepted, in order |
| `BufferedWriters.BufferedWriter.Drain` | firmware/streamline/src/buffered_writer.rs:23-35 | the loop over the array is the specified drain |
| `BufferedWriters.BufferedWriter.Write` | firmware/streamline/src/buffered_writer.rs:39-49 | the object's write is the specified one and appends what it reports |
| `BufferedWriters.BufferedWriter.Flush` | firmware/streamline/src/buffered_writer.rs:51-54 | the object's flush is the specified one; on success the sink has the whole stream |
| `DigestFields.ParseDigestFields` | firmware/streamline/src/auth.rs:167-187 | the parsing loop computes the specified fields or fails |
| `DigestFields.PrintedHeaderParses` | firmware/streamline/src/auth.rs:167-187 | a header printed from parameters with distinct names is taken apart into exactly those |
| `Text.LowerIgnoresCase` | firmware/streamline/src/auth.rs:173 | field names are lowered to the same exactly when they differ only in the case of ASCII letters |
| `DigestCount.CountRoundTrip` | firmware/streamline/src/auth.rs:124-126 | a printed request count has eight digits and is read back while it fits 32 bits, and is refused beyond |
| `DigestClient.CredentialsParse` | console/src/lib/digest.ts:80-91 | every field of the client's credentials is read back as it was, for values without a quote (section 3.4 of RFC 7616) |
| `DigestAuth.AcceptedCountsRise` | firmware/streamline/src/auth.rs:85-143 | with fresh nonces, over every run, accepted counts strictly rise for each nonce, so no pair is accepted twice |
| `DigestAuth.TableExactly` | firmware/streamline/src/auth.rs:59-72 | with a monotone clock the table has at most four nonces; one is in it exactly when at most three challenges followed, the last within its lifetime |
| `DigestClient.ClientIsAnswered` | firmware/streamline/src/auth.rs:85-143 | over every run a client with any key, nonce and count gets its verdict: stale for a nonce not among the last four or expired or a count not above all accepted, otherwise authorized if and only if its response is the one the device's key gives, and denied beyond 32 bits |
| `DigestClient.BothSidesHashAlike` | firmware/streamline/src/auth.rs:145-162 | the client's response and the device's are the hash of the same text (section 3.4.1 of RFC 7616) |
| `DigestSecrets.AuthorizedExactly` | firmware/streamline/src/auth.rs:85-143 | with a key, a request is authorized exactly when its header is addressed to the device, names a live nonce with an unused count and carries the digest a client with that key computes for this verb and path; only the nonce's count then changes |
| `DigestSecrets.ResponseBinds` | console/src/lib/digest.ts:53-67 | two requests with one response have the same key, verb and path, nonce and counts, or show two texts with the same hash |
| `DigestSecrets.OnlyTheKeyOpens` | firmware/streamline/src/auth.rs:137-140 | a response made with another key, or for another verb or path, is authorized only by two texts with the same hash |
| `DigestObjects.DigestAuthenticator.Challenge` | firmware/streamline/src/auth.rs:59-79 | a challenge issues the specified table and offers the new nonce; with a fresh nonce accepted counts go on rising |
| `DigestObjects.DigestAuthenticator.Authorize` | firmware/streamline/src/auth.rs:85-143 | the object's checks, in order, are the specified ruling, and its history of accepted counts goes on rising for each nonce |
| `DigestObjects.DigestSession.Authorization` | console/src/lib/digest.ts:80-91 | each request uses up one count and prints the credentials for it |

## Left out

- Reporting: byte and frame totals, timestamps and connection counts in the playout statistics, client statistics of the fan-out, health reports and metrics.
- Payloads of an odd number of bytes, on which fading raises an error: packets are required to be whole samples, as the framing delivers them.
- Floating point: times, intervals and gains are reals, and rounding is to the nearest integer with ties to even.
- Clock: the registry takes one reading an operation, where the code reads it again when a source is created or released.
- Sources and leases are records in tables; the registry model does not capture two variables naming one object, and closing the hubs of evicted sources is only the list returned.
- Fan-out: a publish after the close is left out, because the pipeline joins its worker before closing the clients (bridge/src/streamline_bridge/pipeline.py:50-56).
- Fan-out between threads is a state machine over single queue operations; the `_clients` dictionary is not a class of its own, the queue is.
- Text is bytes or characters: lossy UTF-8 decoding and the 32- and 64-bit widths of the log's counters are not modelled.
- SHA-256 and the JSON of states are parameters. States are assumed to decode as they were encoded, and the checksum to differ on the texts of one run; the marker's JSON is printed in full.
- ConfigRuns.LoadIsCommitted: damage to the marker itself is damage to an unreadable text, because a forged marker that still parses could name any snapshot.
- Framing.ReceiveSource: the lease is a count of packets accepted before it refuses; the registry and the playout buffer model what a lease does.
- Connections: the peer's bytes and the size of each piece are a script; sockets, TLS and keepalive are not part of this model.
- KeyRuns.EveryRunIsSound: the Wi-Fi form is its target fields, and a write that fails for any reason, validation of other fields included, is a step that does not persist.
- DigestSecrets.ResponseBinds: SHA-256 is any function to thirty-two bytes, so what a response proves is stated down to two texts with one hash.
- DigestAuth.AcceptedCountsRise: nonces are required to be new, which the random generator makes likely and nothing checks.
- DigestObjects.DigestAuthenticator.Authorize: the response comparison is equality; that it takes constant time is not modelled.
- DigestObjects.DigestSession.Authorization: how the console takes a challenge apart with a regular expression is not modelled; realm and nonce are given.
- `hiddenLines` of the console: the device's dropped count also covers lines the console still holds.
- Bridge mode changes against connections still in a handshake, HTTP routes, ESP-IDF adapters, GPIO, captive portal, calibration and the console's components.
