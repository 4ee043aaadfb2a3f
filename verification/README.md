# DNP3 test master: a verified model

The repository is a DNP3 test master: a C++ host, whose bounded stores are fed by callback
threads, and a Python client that must fail closed. This project models its stores, protocols and
byte-level readers in Dafny and proves what they promise. Nothing here runs the original program.

| file | models |
|---|---|
| `CaptureConfig`, `CaptureModel`, `CaptureInvariant`, `CaptureVerdict`, `CaptureResult`, `CaptureSteps`, `CaptureLimits` | the configuration of a measurement capture, the capture as a state machine in which every section under the mutex is one step, what every step keeps, what the verdict proves, the checks the client repeats, what each call does, and when the bounded counters and stores give up |
| `CaptureBitmap`, `MeasurementCapture` | the 64-bit words behind a set of points, and the object whose methods perform the steps in place |
| `ReadTask` | the IIN store, the read operation, and all threads around one read call |
| `Commands`, `CommandTask` | batches, keys and correlation of control commands; the control operation, its outcome and the single flight |
| `Incidents`, `IncidentUnlinks`, `IncidentStore` | the file protocol of the uncertain-control lock under crashes and races; when a failure handler's unlink can lose a lock; the store of one process |
| `Client` | the control path of the client, from the checks before a request to every ending after it |
| `TraceRing`, `Unsolicited` | the circular trace buffer and the store of unsolicited events |
| `JsonText`, `JsonScan`, `Utf8`, `LineReader` | printed JSON, the two nesting scanners and the duplicate-key stack (RFC 8259), the two UTF-8 checkers (section 4 of RFC 3629), the line reader |
| `HostLoop`, `Regression`, `TailBuffer`, `Common` | request ids and counters, growth and percentiles, the diagnostic tail, shared types and the sort |

Code that changes state is a class whose methods are proved to perform a step of a specification;
the properties are proved of the specification over all runs. Where the source releases a mutex to
wait, the method takes the list of steps of other threads that happen meanwhile.

Three statements one might expect are false of the code; each has an exact condition and an example:

* A capture whose digest provider fails at the end is answered as a success that the client
  refuses: `CaptureResult.SnapshotsAreAccepted`, `CaptureResult.FinishFaultIsRefused`.
* The two nesting scanners can differ on texts with a stray closing bracket. They differ at exactly
  the limits from the highest nesting reached up to below the greatest rise:
  `JsonScan.ScannersDifferExactly`, `JsonScan.ScannersAgreeExactly`,
  `JsonScan.StrayBracketSplitsTheScanners`.
* If fsync fails after the text of a lock is complete, the recorder's later unlink by path can remove
  another incident's lock, the file another recorder is still writing, or a record the acknowledger is
  about to replace: `IncidentUnlinks.LateUnlinkLosesLock`, `IncidentUnlinks.LateUnlinkOrphansWriter`,
  `IncidentUnlinks.OwnUnlinkLosesLock`. `IncidentUnlinks.UnlinkIsHarmlessExactly` says when it is
  harmless, and `Incidents.NoIncidentIsLost` holds of every run in which each such unlink is.

Two more hold under a condition: a batch in which every point succeeded is refused
by the client if the library never reported its start (`CommandTask.ClientAcceptsSuccess`), which the
order of the library's callbacks rules out (`CommandTask.StartedSuccessesAreAccepted`); and a caller
is covered by a record it is given as long as that record is still open (`Incidents.OpenRecordCovers`,
`Incidents.AcknowledgedRecordCoversNothing`).

## Model

| member | source | states |
|---|---|---|
| CaptureVerdict.StaticVerdict | native/src/MeasurementCapture.cpp:325-365 | for every interleaving of producers, worker and RPC calls: a finalized static-set capture is valid if and only if it was offered, in its own window of the run, exactly one measurement for each configured point and nothing else, and no bounded store overflowed |
| CaptureVerdict.CountersDecide | native/src/MeasurementCapture.cpp:635-646 | distinct points seen = configured total, no repeats and no strays, together, say exactly that every configured point occurs once and nothing else does |
| CaptureVerdict.CoverSize | native/src/MeasurementCapture.cpp:281-289 | disjoint ranges hold as many points as their sizes add up to, so the expected total is the size of the set |
| CaptureVerdict.LogIsWindow | native/src/MeasurementCapture.cpp:419-460 | what the capture was offered is what the run shows between its begin and its deadline or end, from its sources |
| CaptureVerdict.Conservation | native/src/MeasurementCapture.cpp:257-313 | in every reachable state: processed is a prefix of enqueued, depth never passes the capacity, and below counter saturation offered + faults = received + queued + overflow + discarded, and received = unique + duplicates + unmatched |
| CaptureVerdict.WorkerDrains | native/src/MeasurementCapture.cpp:463-496 | once nothing is accepted, the queue is empty after as many worker turns as it held, whatever else happens |
| CaptureVerdict.EventVerdict | native/src/MeasurementCapture.cpp:600-633 | a reported sequence match means the processed events are exactly the list the manifest describes, in order, unless the digest collides on the two texts; if the capture is valid they are all that was offered |
| CaptureVerdict.RecordsUnique | native/src/MeasurementCapture.cpp:511-523 | the concatenated LF-terminated records decode uniquely into their events |
| CaptureVerdict.EndingAgainChangesNothing | native/src/MeasurementCapture.cpp:349-386 | after end has left its wait, ending, working or offering again changes nothing, and neither does aborting unless the capture had timed out |
| CaptureSteps.BeginStartsFresh | native/src/MeasurementCapture.cpp:257-313 | in every reachable state begin is refused while a capture is active, finalizing or undrained and otherwise starts one in which nothing of the last is left: a new id, its deadline the configured duration after now, all counters zero, as many expected points as the ranges have |
| CaptureSteps.TimesOutExactly | native/src/MeasurementCapture.cpp:654-664 | in every run an active capture looked at is timed out if and only if its duration has passed since its start, with its queue kept and its end at the deadline |
| CaptureSteps.OfferIsQueuedOrLost | native/src/MeasurementCapture.cpp:419-460 | a measurement is taken if and only if the capture is active, before its deadline and of that source; it is queued if there is room and otherwise counted as lost with the overflow reason |
| CaptureSteps.FragmentIsCounted | native/src/MeasurementCapture.cpp:401-417 | a fragment is counted under the same condition, and nothing else changes |
| CaptureSteps.LossMeansFullQueue | native/src/MeasurementCapture.cpp:440-460 | in every run a capture with the overflow reason was offered a measurement while its queue was full |
| CaptureSteps.EndStopsAccepting | native/src/MeasurementCapture.cpp:325-345 | end touches only the capture it names, which takes nothing from then on |
| CaptureSteps.EndReturnDecides | native/src/MeasurementCapture.cpp:338-365 | after the wait an undrained capture is aborted with its queue counted as discarded, a drained one is final, and an ended one keeps its state |
| CaptureSteps.AbortEnds | native/src/MeasurementCapture.cpp:367-398 | in every reachable state: aborting a running or timed-out capture ends it now, not accepting, with an empty queue counted as discarded, the reason noted and an event digest finished; any other capture stays as it is |
| CaptureSteps.AbortedNeverValid | native/src/MeasurementCapture.cpp:367-398 | an aborted capture is never valid again, whatever follows, until another begins |
| CaptureSteps.OverflowIsAnswered | native/src/MeasurementCapture.cpp:679-691 | the answer is an overflow if and only if something offered was lost or could not be processed |
| CaptureSteps.SnapshotReports | native/src/MeasurementCapture.cpp:693-822 | the totals of a snapshot are those of what was offered, processed, lost and discarded, its verdict is that of the capture, and its duration that between start and end |
| CaptureLimits.DimensionsCounted | native/src/MeasurementCapture.cpp:498-507 | in every run the limit reason is present if and only if more than 256 kinds or variations were processed, and each number given for one is exact |
| CaptureLimits.SamplesAreFirstMismatches | native/src/MeasurementCapture.cpp:525-551 | in every run the samples are the first unexpected measurements, or the one difference to the manifest, up to the configured number |
| CaptureLimits.CountersDoNotStick | native/src/MeasurementCapture.cpp:583-590 | no counter sticks in a run of fewer than 2^64 steps |
| CaptureLimits.NoFaultNoProcessingFailure | native/src/MeasurementCapture.cpp:476-494 | every measurement is processed unless the digest provider fails while one is hashed |
| CaptureLimits.VerdictOfEveryMode | native/src/MeasurementCapture.cpp:349-365 | in every run, for all three modes: a finalized capture is valid if and only if no bounded store overflowed, the digest did not fail, and the measurements offered in its window are what its mode asks for |
| CaptureLimits.WithinBoundsTruthDecides | native/src/MeasurementCapture.cpp:325-365 | within the stated bounds and without a provider failure, validity is equivalent to that truth alone |
| CaptureInvariant.RunKeeps | native/src/MeasurementCapture.cpp:257-496 | lifecycle, bounds, conservation, counters, point tallies and digest state hold together in every reachable state |
| CaptureInvariant.EveryMeasurementIsClassified | native/src/MeasurementCapture.cpp:525-551 | every processed measurement is a new point, a repeat or a stray, and only one of them |
| CaptureModel.ParsedConfigIsGood | native/src/CaptureConfig.cpp:406-508 | what the parser accepts is what the capture relies on: disjoint ordered ranges, bounds, a manifest exactly for event captures |
| CaptureResult.SnapshotsAreAccepted | python/src/dnp3_master/models.py:877-1095 | every snapshot of every reachable capture passes every check of the client, the recomputed verdict included, if and only if the digest provider has not failed |
| CaptureResult.NoFaultNoDigestFailure | native/src/MeasurementCapture.cpp:628-632 | without a provider failure at the end no capture ever carries the digest-failure reason |
| CaptureResult.FinishFaultIsRefused | native/src/MeasurementCapture.cpp:628-691 | a provider failing at the end yields a success reply whose snapshot the client refuses |
| CaptureResult.BegunThenEnding | native/src/MeasurementCapture.cpp:257-336 | the state in which that happens is reached by begin and end alone |
| CaptureBitmap.SettingAddsPoint | native/src/MeasurementCapture.cpp:530-545 | setting one bit of a 64-bit word adds its point to the set the bitmaps stand for, and no other |
| CaptureBitmap.BitTells | native/src/MeasurementCapture.cpp:530-545 | with disjoint ranges, the bit of the range that holds a point says whether the point was seen |
| CaptureBitmap.ZeroWordsAreEmpty | native/src/MeasurementCapture.cpp:281-289 | freshly allocated words stand for no point |
| MeasurementCapture.Recorder.Begin | native/src/MeasurementCapture.cpp:257-313 | performs the begin step of the state machine in place, and answers busy, allocation failure or the new snapshot |
| MeasurementCapture.Recorder.AllocateRanges | native/src/MeasurementCapture.cpp:281-289 | one zeroed bitmap per range with the right number of words, and the total of points |
| MeasurementCapture.Recorder.Progress | native/src/MeasurementCapture.cpp:315-323 | expires the capture, then answers its result or that the id is unknown |
| MeasurementCapture.Recorder.End | native/src/MeasurementCapture.cpp:325-365 | is the enter step, then any run of producers and worker while the mutex is released, then the leave step; it answers the result after them |
| MeasurementCapture.Recorder.AbortCapture | native/src/MeasurementCapture.cpp:367-398 | performs the abort step |
| MeasurementCapture.Recorder.RecordFragment | native/src/MeasurementCapture.cpp:401-417 | performs the fragment step |
| MeasurementCapture.Recorder.RecordObject | native/src/MeasurementCapture.cpp:419-460 | performs the offer step: dropped, queued, or counted as lost |
| MeasurementCapture.Recorder.WorkerTurn | native/src/MeasurementCapture.cpp:463-496 | performs one worker step, the handler for a failed record included |
| MeasurementCapture.Recorder.ProcessLocked | native/src/MeasurementCapture.cpp:498-551 | counts the measurement and hashes or matches it; throws exactly for a missing or failing digest of an event capture |
| MeasurementCapture.Recorder.MatchLocked | native/src/MeasurementCapture.cpp:525-551 | the loop over ranges and bits decides new point, repeat or stray as the set of seen points does |
| MeasurementCapture.Recorder.SetBit | native/src/MeasurementCapture.cpp:538-544 | the in-place update of the words adds exactly one point |
| MeasurementCapture.Recorder.TestBit | native/src/MeasurementCapture.cpp:535-537 | the masked word tells whether the point was seen |
| MeasurementCapture.Recorder.IncrementDimension | native/src/MeasurementCapture.cpp:569-581 | counts a key, or reports the limit of 256 keys or a stuck counter |
| MeasurementCapture.Recorder.Increment | native/src/MeasurementCapture.cpp:583-590 | a 64-bit counter stops at its maximum and says so |
| MeasurementCapture.Recorder.FinalizeEventSequence | native/src/MeasurementCapture.cpp:600-633 | finishes the digest once and compares number and digest with the manifest |
| MeasurementCapture.Recorder.FinalizeStaticSet | native/src/MeasurementCapture.cpp:635-646 | adds the mismatch reason exactly when a point is missing, repeated or unexpected |
| MeasurementCapture.Recorder.ExpireLocked | native/src/MeasurementCapture.cpp:654-664 | an active capture past its deadline stops accepting and is timed out |
| MeasurementCapture.Recorder.ResultLocked | native/src/MeasurementCapture.cpp:679-691 | answers overflow if anything was lost, else success, with the snapshot of the current state |
| MeasurementCapture.Recorder.ResetLocked | native/src/MeasurementCapture.cpp:824-856 | returns to the idle state and keeps the id counter |
| CaptureConfig.ParsePointRanges | native/src/CaptureConfig.cpp:194-280 | accepts exactly the lists of valid, pairwise disjoint ranges of at most 1000000 points, returns them sorted, and every rejection is justified by the input |
| CaptureConfig.SortThenCompareDecides | native/src/CaptureConfig.cpp:255-279 | comparing neighbours after sorting decides whether the ranges are pairwise disjoint |
| CaptureConfig.SortKeepsDisjointness | native/src/CaptureConfig.cpp:255-279 | sorting neither makes nor removes overlaps |
| CaptureConfig.AnyOverlap | native/src/CaptureConfig.cpp:262-279 | the index loop finds an overlap of neighbours exactly when there is one |
| CaptureConfig.ParseSources | native/src/CaptureConfig.cpp:149-192 | accepts exactly one or two distinct known sources |
| CaptureConfig.ParseEventManifest | native/src/CaptureConfig.cpp:291-404 | accepts exactly the valid manifests |
| CaptureConfig.ParseCaptureConfig | native/src/CaptureConfig.cpp:406-508 | accepts exactly the valid parameter objects, with the meaning they have |
| CaptureConfig.DefaultsApply | native/src/CaptureConfig.cpp:465-490 | a sample limit or queue capacity left out is 100 or 4096, and a given one is taken as it is |
| CaptureConfig.HostAcceptsPythonConfig | python/src/dnp3_master/models.py:700-790 | the parameters of every configuration Python accepts are accepted by the host with the same meaning |
| CaptureConfig.PythonAcceptsHostRanges | python/src/dnp3_master/models.py:700-790 | Python accepts the point ranges of every configuration the host accepts |
| JsonText.PrintUnique | native/src/MeasurementCapture.cpp:511-523 | the compact text of a JSON value, followed by anything that may follow a value, determines the value and what follows |
| JsonText.QuoteUnique | native/src/MeasurementCapture.cpp:511-523 | the text of a string ends where it says and determines the string |
| JsonScan.ExceedsJsonDepth | native/src/JsonLineProtocol.cpp:77-110 | the loop over two flags and a floored counter rejects exactly the texts whose nesting passes the limit outside strings |
| JsonScan.ValidateJsonDepth | python/src/dnp3_master/client.py:157-186 | the loop over structural characters with one remembered escaped index does the same with a counter that may go negative |
| JsonScan.ScannersMeasureDepth | native/src/JsonLineProtocol.cpp:77-110 | on the text of any JSON value, brackets, quotes and backslashes in strings included, both scanners reject exactly when the depth of the value passes the limit |
| JsonScan.HostAcceptanceImpliesClientAcceptance | python/src/dnp3_master/client.py:157-186 | on any text at all, what the host scanner accepts the client scanner accepts |
| JsonScan.ClientMeasuresPeak | python/src/dnp3_master/client.py:157-186 | on any text the client refuses exactly when the highest signed nesting passes the limit |
| JsonScan.HostMeasuresRise | native/src/JsonLineProtocol.cpp:77-110 | on any text the host refuses exactly when the nesting somewhere rises by more than the limit above an earlier point |
| JsonScan.PeakIsHighest | python/src/dnp3_master/client.py:157-186 | the peak is the greatest signed nesting after any prefix, and is reached |
| JsonScan.RiseIsGreatest | native/src/JsonLineProtocol.cpp:77-110 | the rise is the greatest difference between the nestings of two prefixes in order, and is reached |
| JsonScan.ScannersDifferExactly | python/src/dnp3_master/client.py:157-186 | on any text the two scanners disagree at a limit if and only if it lies from the peak up to below the rise |
| JsonScan.ScannersAgreeExactly | python/src/dnp3_master/client.py:157-186 | on any text they agree at every limit if and only if the rise is the peak |
| JsonScan.BalancedTextsAgree | python/src/dnp3_master/client.py:157-186 | on texts that never close more than they opened, both decide alike |
| JsonScan.StrayBracketSplitsTheScanners | python/src/dnp3_master/client.py:157-186 | for every limit, 64 included: one closing bracket and then one opening bracket more than the limit is refused by the host and accepted by the client |
| JsonScan.DuplicateKeyFound | native/src/JsonLineProtocol.cpp:244-270 | the stack of key sets over the parse events of a value finds a duplicate exactly when some object repeats a key |
| Utf8.IsValidUtf8 | native/src/JsonLineProtocol.cpp:25-75 | decode and compare accepts exactly the texts of section 4 of RFC 3629 |
| Utf8.DecodeAt | native/src/JsonLineProtocol.cpp:25-75 | one turn finds the length of the character, or rejects, exactly as the table does |
| Utf8.CopyUtf8 | native/src/ProtocolTrace.cpp:13-66 | reads no further than the NUL, writes the specified copy and a NUL within the room and touches nothing after it |
| Utf8.CharacterAt | native/src/ProtocolTrace.cpp:26-46 | the byte-range test accepts exactly the characters of the table, with their length |
| Utf8.CopyCharacter | native/src/ProtocolTrace.cpp:25-63 | one turn of the loop keeps the copy that is still to come |
| Utf8.CopyFitsAndIsValid | native/src/ProtocolTrace.cpp:13-66 | the copy fits the room and is valid UTF-8 |
| Utf8.CopyReportsChange | native/src/ProtocolTrace.cpp:13-66 | the copier returns false exactly when the copy is the whole input |
| Utf8.CopyIsLongestPrefix | native/src/ProtocolTrace.cpp:13-66 | on valid input the copy is the longest prefix of whole characters that fits |
| Utf8.CheckersAgree | native/src/ProtocolTrace.cpp:13-66 | given room, the copier leaves alone exactly the texts the request validator accepts |
| LineReader.ReadLine | native/src/JsonLineProtocol.cpp:161-216 | with a buffer of at most one byte more than the limit: cut at LF or end, strip one CR, accept exactly payloads within the limit, and always consume through the LF |
| LineReader.ReadingUndoesJoining | native/src/JsonLineProtocol.cpp:161-216 | repeated reading undoes joining any framable lines with LF or CRLF in any mixture |
| LineReader.OversizedLineIsSkipped | native/src/JsonLineProtocol.cpp:199-209 | a line over the limit is consumed whole and the next is read normally |
| TraceRing.Balance | native/src/ProtocolTrace.cpp:218-253 | in every reachable state delivered + dropped + queued = sequence if and only if no line came after the last sequence number; after one, the drop count is the maximum |
| TraceRing.GapsAreDrops | native/src/ProtocolTrace.cpp:140-178 | batches hold the records made under consecutive numbers, and the numbers skipped between two batches are the rise in the drop counter |
| TraceRing.LogRecordsExactly | native/src/ProtocolTrace.cpp:218-253 | a line is recorded if and only if a trace is active and the line has a session; the oldest record is dropped only from a full buffer, and counted |
| TraceRing.EntryTells | native/src/ProtocolTrace.cpp:218-253 | a record holds its line's fields, its texts within 128 and 1024 bytes, and is marked truncated if and only if one of them was changed |
| TraceRing.ReadTakesExactly | native/src/ProtocolTrace.cpp:140-178 | a read of the current trace hands out the oldest records, as many as there are or were asked for |
| TraceRing.StartsExactly | native/src/ProtocolTrace.cpp:107-138 | a trace starts empty under the next id if and only if none is active or undrained and the capacity is allowed |
| TraceRing.Ring.Record | native/src/ProtocolTrace.cpp:218-253 | the circular buffer refines appending to a queue that drops its oldest record when full |
| TraceRing.Ring.Read | native/src/ProtocolTrace.cpp:140-178 | bounds, unknown ids, the wait and the batch: the oldest records leave in order |
| TraceRing.Ring.StartTrace | native/src/ProtocolTrace.cpp:107-138 | starts exactly when capacity, state, queue and id counter allow it |
| TraceRing.Ring.Stop | native/src/ProtocolTrace.cpp:180-194 | stops exactly the named trace |
| TraceRing.Ring.DropOldest | native/src/ProtocolTrace.cpp:231-237 | advancing the head drops the oldest record and counts it, without wrapping |
| Unsolicited.SessionBalance | native/src/OpenDnp3UnsolicitedSupport.cpp:165-232 | within a session delivered + dropped + queued = last sequence, counts by kind are exact, items leave in order, once and unchanged, and no drop means no loss |
| Unsolicited.OpenFragmentStaysHidden | native/src/OpenDnp3UnsolicitedSupport.cpp:250-265 | while a fragment is open a take hands out nothing, and no earlier one saw a part of it |
| Unsolicited.RecordStoresExactly | native/src/OpenDnp3UnsolicitedSupport.cpp:165-232 | an event is stored if and only if a fragment of a session is open, and the oldest one is dropped only from a full store |
| Unsolicited.TakeHandsOutExactly | native/src/OpenDnp3UnsolicitedSupport.cpp:234-310 | a take hands out the oldest events, as many as there are or were asked for, unless a fragment is open |
| Unsolicited.OpensExactly | native/src/OpenDnp3UnsolicitedSupport.cpp:102-163 | a fragment opens if and only if a session is active and the response is unsolicited; beginning and ending a session empty the store |
| Unsolicited.UnsolicitedStore.BeginSession | native/src/OpenDnp3UnsolicitedSupport.cpp:102-118 | a new session forgets everything of the last |
| Unsolicited.UnsolicitedStore.EndSession | native/src/OpenDnp3UnsolicitedSupport.cpp:120-130 | ends the session with an empty queue |
| Unsolicited.UnsolicitedStore.BeginFragment | native/src/OpenDnp3UnsolicitedSupport.cpp:143-153 | opens a numbered fragment only for unsolicited responses of a session |
| Unsolicited.UnsolicitedStore.EndFragment | native/src/OpenDnp3UnsolicitedSupport.cpp:155-163 | closes the fragment |
| Unsolicited.UnsolicitedStore.Record | native/src/OpenDnp3UnsolicitedSupport.cpp:165-232 | stores an item of the open fragment, dropping the oldest when full |
| Unsolicited.UnsolicitedStore.Take | native/src/OpenDnp3UnsolicitedSupport.cpp:234-310 | waits as specified, then hands out at most the limit and nothing of an open fragment, and reports a missing session |
| ReadTask.SuccessIsComplete | native/src/OpenDnp3ReadSupport.cpp:924-986 | over every interleaving: a reported success has a window that is the complete log since submission and holds the first IIN after its own successful completion callback; nothing it counted was left out |
| ReadTask.ExpiredWaitIsFinal | native/src/OpenDnp3ReadSupport.cpp:445-473 | in every run: once the call of an operation has left its wait before the operation was decided, everything it ever returns is a timeout, whatever callbacks, cancellation and IINs follow |
| ReadTask.MarkedMeansExpired | native/src/OpenDnp3ReadSupport.cpp:445-457 | in every run an operation is marked as timed out if and only if its call left its wait before a decision |
| ReadTask.AnswersExactly | native/src/OpenDnp3ReadSupport.cpp:459-554 | in every run, both ways: a timeout if the wait expired, otherwise an overflow if and only if objects, fragments or IINs were left out, otherwise success, timeout or failure exactly by the completion |
| ReadTask.SucceedsExactly | native/src/OpenDnp3ReadSupport.cpp:924-986 | in every run a read succeeds if and only if its wait did not expire, it was decided with SUCCESS, nothing overflowed and its window is the whole log since submission |
| ReadTask.SomeReadSucceeds | native/src/OpenDnp3ReadSupport.cpp:924-986 | a run from the start in which a read succeeds |
| ReadTask.TotalsCountCallbacks | native/src/OpenDnp3ReadSupport.cpp:332-443 | in every run the totals of an operation are the numbers of callbacks made for it, stored up to their limits and overflowed beyond |
| ReadTask.CallbacksDecide | native/src/OpenDnp3ReadSupport.cpp:277-315 | a completion that is no response decides at once, a response one waits, and destruction decides no-comms exactly if nothing is pending |
| ReadTask.CancelDecides | native/src/OpenDnp3ReadSupport.cpp:997-1012 | cancelling the active operation decides it as no-comms unless it is decided, and disarms it |
| ReadTask.ThrowDecides | native/src/OpenDnp3ReadSupport.cpp:954-972 | a submission that throws decides its operation as no-comms and goes on to clear up |
| ReadTask.ClearsUp | native/src/OpenDnp3ReadSupport.cpp:988-995 | clearing up disarms the operation and frees the API |
| ReadTask.ReportedClearsUp | native/src/OpenDnp3ReadSupport.cpp:981-985 | a call that has reported clears up exactly a decided operation |
| ReadTask.ExecuteStartsExactly | native/src/OpenDnp3ReadSupport.cpp:924-948 | a read is refused exactly while the active operation is undecided, and otherwise starts one at the end of the log |
| ReadTask.OwnIinReleases | native/src/OpenDnp3ReadSupport.cpp:219-223 | the IIN after the completion callback releases the active operation with exactly that completion |
| ReadTask.CompleteWindow | native/src/OpenDnp3ReadSupport.cpp:113-134 | a window lost nothing exactly when it is the whole log since the start, and what is lost is counted |
| ReadTask.StepEvolves | native/src/OpenDnp3ReadSupport.cpp:277-330 | no step of any thread changes the decision of a decided operation or lifts an expired wait |
| ReadTask.RunHoldsGate | native/src/OpenDnp3ReadSupport.cpp:144-164 | the gate names every undecided active operation once armed |
| ReadTask.IinStore.Record | native/src/OpenDnp3ReadSupport.cpp:96-105 | keeps the last 1024 of the unbounded log and counts the rest |
| ReadTask.IinStore.After | native/src/OpenDnp3ReadSupport.cpp:113-134 | returns exactly what is left of the log after a number, and exactly how much of it was evicted |
| ReadTask.ReadOperation.MarkComplete | native/src/OpenDnp3ReadSupport.cpp:277-288 | a response completion is only noted, any other decides at once |
| ReadTask.ReadOperation.FinalizeResponseAfterIin | native/src/OpenDnp3ReadSupport.cpp:290-301 | decides only a noted completion |
| ReadTask.ReadOperation.MarkDestroyed | native/src/OpenDnp3ReadSupport.cpp:303-315 | decides no-comms only if nothing was noted |
| ReadTask.ReadOperation.Cancel | native/src/OpenDnp3ReadSupport.cpp:317-330 | decides no-comms unless decided |
| ReadTask.ReadOperation.LeaveWaitForCompletion | native/src/OpenDnp3ReadSupport.cpp:445-457 | freezes whether the wait expired |
| ReadTask.ReadOperation.GetOutcome | native/src/OpenDnp3ReadSupport.cpp:459-554 | timeout, overflow, success, failure in that order |
| ReadTask.ReadOperation.BeginFragment | native/src/OpenDnp3ReadSupport.cpp:332-358 | counts every fragment, stored or overflowed |
| ReadTask.ReadOperation.Record | native/src/OpenDnp3ReadSupport.cpp:369-443 | counts every object, stored or overflowed |
| Commands.ParseCommands | native/src/CommandConfig.cpp:417-479 | accepts exactly 1 to 256 valid commands without a repeated type and index, and keeps them in order |
| Commands.KeysTellCommands | native/src/OpenDnp3CommandSupport.cpp:119-122 | two commands have the same key exactly when they have the same type and index |
| Commands.KeysAreOrdinals | native/src/OpenDnp3CommandSupport.cpp:171-268 | for a parsed batch the keys and the request ordinals are in bijection |
| Commands.BuildCommandSet | native/src/OpenDnp3CommandSupport.cpp:171-268 | grouping by kind gives each kind that occurs its own header, and the map with the first request of each key |
| Commands.AddMetadata | native/src/OpenDnp3CommandSupport.cpp:187-197 | adds the requests of one kind and keeps all others |
| Commands.Correlate | native/src/OpenDnp3CommandSupport.cpp:325-378 | counts successes, doubtful statuses and points that match no request or repeat one |
| Commands.ErrorsAre | native/src/OpenDnp3CommandSupport.cpp:364-368 | no correlation error means every returned key was requested and none returned twice |
| Commands.CountDecidesCorrelation | native/src/OpenDnp3CommandSupport.cpp:440-513 | for any points the library returns: as many as requested without an error, exactly when they correspond one to one to the requests |
| Commands.ValidateCommandCorrelation | python/src/dnp3_master/client.py:1193-1232 | the client check accepts exactly the one-to-one results |
| Commands.EveryRequestIsAnswered | python/src/dnp3_master/client.py:1231-1232 | a one-to-one result leaves no request without its point |
| CommandTask.SuccessIsPermutation | native/src/OpenDnp3CommandSupport.cpp:440-513 | the host reports success exactly for a successful, not cancelled operation whose points are a permutation of the request |
| CommandTask.OutcomeExactly | native/src/OpenDnp3CommandSupport.cpp:425-515 | which of the four outcomes an operation has, both ways: undecided until done, failed if decided without success, success if its points correspond one to one, uncorrelated otherwise |
| CommandTask.FailureExactly | native/src/OpenDnp3CommandSupport.cpp:484-500 | a failure is a response timeout if and only if the task ended with one, and is marked uncertain if and only if it timed out, had started, or some returned point is doubtful, unrequested or repeated |
| CommandTask.SuccessExactly | native/src/OpenDnp3CommandSupport.cpp:447-452 | a success is marked uncertain if and only if some point is doubtful, and all_success if and only if every point succeeded |
| CommandTask.ReportTells | native/src/OpenDnp3CommandSupport.cpp:456-480 | every report states its operation's id, mode, completion, start, destruction and numbers of points |
| CommandTask.ResultDecides | native/src/OpenDnp3CommandSupport.cpp:325-378 | the first result decides an undecided operation with its own points |
| CommandTask.DestructionDecides | native/src/OpenDnp3CommandSupport.cpp:313-323 | start and completion are only noted, and destruction decides if and only if a completion was noted |
| CommandTask.CancelDecides | native/src/OpenDnp3CommandSupport.cpp:399-414 | a cancel decides an undecided operation as a cancelled failure and leaves a decided one |
| CommandTask.CancelFreesApi | native/src/OpenDnp3CommandSupport.cpp:683-693 | cancelling the active operation decides it and frees the API |
| CommandTask.AnsweredFreesApi | native/src/OpenDnp3CommandSupport.cpp:667-681 | a call that has answered clears exactly a decided operation |
| CommandTask.CallAnswersResult | native/src/OpenDnp3CommandSupport.cpp:603-673 | a call whose task starts and succeeds answers the outcome of exactly the points the library returned |
| CommandTask.ExecuteStartsExactly | native/src/OpenDnp3CommandSupport.cpp:603-626 | a submission starts a fresh operation with its mode and commands if and only if none is undecided |
| CommandTask.AnswerTells | native/src/OpenDnp3CommandSupport.cpp:640-673 | the reply is the outcome the operation has at that moment |
| CommandTask.ClientAcceptsSuccess | python/src/dnp3_master/models.py:1521-1621 | the client accepts a success report if and only if the start was reported or some point failed |
| CommandTask.StartedSuccessesAreAccepted | python/src/dnp3_master/models.py:1521-1621 | in every run in which the start of a task is reported before its successful result, the client accepts every success the host answers, and it corresponds one to one to the request |
| CommandTask.SuccessWithoutStart | python/src/dnp3_master/models.py:1591-1600 | what the client's check guards against: a batch completed by a library that never reported the start would be a success for the host and refused by the client |
| CommandTask.AllSuccessIsCertain | native/src/OpenDnp3CommandSupport.cpp:449-452 | all_success implies not execution_uncertain |
| CommandTask.UnmarkedFailureNeverStarted | native/src/OpenDnp3CommandSupport.cpp:486-499 | a failure not marked uncertain comes from an operation that had not started and returned no doubtful point |
| CommandTask.StatusNamesAgree | python/src/dnp3_master/models.py:32-33 | both languages give every raw status the same name |
| CommandTask.UndecidedMeansRefused | native/src/OpenDnp3CommandSupport.cpp:603-612 | at most one operation is undecided, and while one is, every submission is refused and starts nothing, even after its wait timed out |
| CommandTask.VerdictStands | native/src/OpenDnp3CommandSupport.cpp:298-423 | once decided, completion, points, cancellation and all_success never change |
| CommandTask.AnswersAreSound | native/src/OpenDnp3CommandSupport.cpp:571-673 | every success answered in any run is a permutation of its request |
| CommandTask.CommandOperation.CompleteWith | native/src/OpenDnp3CommandSupport.cpp:325-397 | the result callback decides an undecided operation with its correlated points |
| CommandTask.CommandOperation.MarkDestroyed | native/src/OpenDnp3CommandSupport.cpp:313-323 | destruction decides with the noted completion, if there is one |
| CommandTask.CommandOperation.Cancel | native/src/OpenDnp3CommandSupport.cpp:399-414 | cancels only an undecided operation |
| CommandTask.CommandOperation.GetOutcome | native/src/OpenDnp3CommandSupport.cpp:425-515 | undecided, failed, uncorrelated or success, with the flags that go with them |
| Incidents.NoIncidentIsLost | python/src/dnp3_master/safety_incidents.py:255-529 | over racing recorders, one acknowledger at a time, failing writes and fsyncs, and a crash between any two file operations, as long as no failure handler unlinks a file somebody needs: each incident a recorder reported as open keeps its device locked or has its acknowledged record in the archive, and control is clear only without an active file, so a torn one never reads as clear |
| Incidents.ReleaseNeedsCall | python/src/dnp3_master/safety_incidents.py:430-529 | in every safe run: a reported incident that no longer locks its device was named by an acknowledgment call with valid inputs for that device, and the archive holds its record with the data of that call |
| Incidents.ReleasedIsReturned | python/src/dnp3_master/safety_incidents.py:444-456 | a call repeated after the release returns what is archived for that device and changes nothing |
| Incidents.RaisingKeepsLocks | python/src/dnp3_master/safety_incidents.py:430-529 | a call that raises leaves every active file as it was |
| Incidents.FoundIsReturned | python/src/dnp3_master/safety_incidents.py:385-428 | a recorder returns the readable record it finds, before or after losing the race to create one, and raises on an unreadable one |
| Incidents.HarmlessRunsAreSafe | python/src/dnp3_master/safety_incidents.py:293-319 | without a failed fsync of a complete text every failure handler finds its own torn file, which nobody needs |
| Incidents.ReturnsAreTold | python/src/dnp3_master/safety_incidents.py:387-428 | every record a recorder returns is a form of a completed incident, and an open one is among the incidents that are kept |
| Incidents.OpenRecordCovers | python/src/dnp3_master/safety_incidents.py:373-428 | a record returned as open blocks control until an acknowledgment of it takes effect |
| Incidents.ReturnFindsLock | python/src/dnp3_master/safety_incidents.py:387-428 | at the moment it is returned, an open record is the active one |
| Incidents.AcknowledgedRecordCoversNothing | python/src/dnp3_master/safety_incidents.py:387-389 | a new outcome can be answered with a record that is acknowledged already, and control is clear one operation later |
| Incidents.AnswersAgree | python/src/dnp3_master/safety_incidents.py:430-529 | all calls that return for one incident return the same document: the acknowledged form of what was written |
| Incidents.RetryReturnsSameDocument | python/src/dnp3_master/safety_incidents.py:486-529 | once the acknowledged document is active, a retry with the same data returns it after at most four operations whatever recorders do; only a torn archive file makes it raise, and then the lock stays |
| Incidents.RetryStarts | python/src/dnp3_master/safety_incidents.py:430-497 | from every state reached without a failed fsync such a retry is on its way |
| Incidents.RunKeeps | python/src/dnp3_master/safety_incidents.py:293-529 | active, archived and torn files, their writers, what recorders returned and the acknowledger stay consistent in every state that safe runs reach, failed fsyncs included |
| IncidentUnlinks.LateUnlinkLosesLock | python/src/dnp3_master/safety_incidents.py:310-318 | a run with a failed fsync of a complete text in which a written lock is lost |
| IncidentUnlinks.LateUnlinkOrphansWriter | python/src/dnp3_master/safety_incidents.py:300-318 | a run in which the late unlink meets another recorder's torn file: that recorder returns success for a lock that has no name |
| IncidentUnlinks.OwnUnlinkLosesLock | python/src/dnp3_master/safety_incidents.py:300-337 | a run in which even the unlink of the recorder's own file loses a lock, because the acknowledger has read it and replaces whatever the path holds by then |
| IncidentUnlinks.UnlinkIsHarmlessExactly | python/src/dnp3_master/safety_incidents.py:310-314 | in every state that safe runs reach: a failure handler's unlink finds no file or one that nobody needs, if and only if no continuation without a further unlink loses a reported incident |
| IncidentUnlinks.NeededUnlinkLoses | python/src/dnp3_master/safety_incidents.py:310-318 | any other unlink has a continuation after which a reported incident is neither active nor archived and control is clear |
| IncidentStore.SafetyIncidentStore.WriteExclusive | python/src/dnp3_master/safety_incidents.py:293-319 | creates exactly a new complete file, or leaves the directory as it was; if the removal after a failure fails too, what was written stays |
| IncidentStore.SafetyIncidentStore.ReplaceDocument | python/src/dnp3_master/safety_incidents.py:321-337 | replaces the record, or leaves every record as it was, and leaves no temporary file unless its removal fails |
| IncidentStore.SafetyIncidentStore.RecordUncertain | python/src/dnp3_master/safety_incidents.py:373-428 | reports a readable lock as it is and changes nothing, raises on an unreadable one or invalid data, and otherwise leaves exactly the complete open record as the lock, or raises |
| IncidentStore.SafetyIncidentStore.Acknowledge | python/src/dnp3_master/safety_incidents.py:430-529 | acts only on the active record of the named device and incident, with valid inputs, and on an acknowledged one only with its own data; anything else stays as it is; never removes a lock when it raises; when it returns, that record is archived with the data of the call and the lock gone |
| Client.ControlFailsClosed | python/src/dnp3_master/client.py:1004-1348 | a lab control that may have been sent ends fully correlated without a doubtful point, or as a plain refusal, or with the session broken, the token gone and the device locked or the failure to lock it raised |
| Client.SendsOnlyWhenClear | python/src/dnp3_master/client.py:1004-1091 | a call sends at most one control, with a token, from a running session, and in the lab only with no active incident |
| Client.ControlEndsExactly | python/src/dnp3_master/client.py:1004-1191 | how every control ends, both ways: completed if and only if the host answered with a report that passes all checks, matches the request one to one and asks for no readback; refused if and only if plainly refused; and then the session differs only in what it sent |
| Client.BlockedExactly | python/src/dnp3_master/client.py:1012-1064 | which check blocks a call, in order, each if and only if it is the first that fails |
| Client.UncertainExactly | python/src/dnp3_master/client.py:1093-1191 | every uncertain end drops the token and breaks the session, under the code of its cause |
| Client.LockNamesCommand | python/src/dnp3_master/client.py:1251-1348 | the lock an uncertain end leaves is the active record of the device and names the operation, every point in order, the payload and the code |
| Client.ConnectGivesToken | python/src/dnp3_master/client.py:548-605 | a session gets a token exactly from a consistent connect reply to a running host |
| Client.OtherCallsDo | python/src/dnp3_master/client.py:607-615 | disconnecting drops the token, a failed exchange breaks the session, and start and close set its state |
| Client.UncertainEndsLock | python/src/dnp3_master/client.py:1251-1348 | when the disk works and no other process touches the directory meanwhile, every uncertain end of a lab control leaves an open incident that passes its own validation |
| Client.IncidentIsValid | python/src/dnp3_master/client.py:1281-1304 | what the handler writes is valid, so only the disk can refuse the lock |
| Client.NoControlAfterUncertainty | python/src/dnp3_master/client.py:1004-1348 | over a whole session: after an uncertain end no further control is ever sent |
| Client.DeadForever | python/src/dnp3_master/client.py:1886-1905 | a session without token that is broken or closed stays so and sends nothing |
| Client.HostAndClientAgree | python/src/dnp3_master/client.py:1093-1191 | from the library callbacks to the operator: a plain refusal means the operation never started, a result means its points are a permutation of the request and none is doubtful |
| Client.HostOutcomeEndsExactly | python/src/dnp3_master/client.py:1093-1191 | from the library to the operator, both ways: a failed operation ends as a plain refusal if and only if it neither timed out nor started and no point is doubtful; a one-to-one success ends completed if and only if it had started or some point failed, and no point is doubtful |
| Client.Dnp3MasterClient.CommandTaskResult | python/src/dnp3_master/client.py:1004-1091 | performs the control step of the session |
| Client.Dnp3MasterClient.ExecuteCommandTask | python/src/dnp3_master/client.py:1093-1191 | each ending of the exchange leads to its specified end |
| Client.Dnp3MasterClient.HandleUncertainCommand | python/src/dnp3_master/client.py:1251-1348 | locks the device if it can, and in any case drops token and process |
| Client.Dnp3MasterClient.AbortProcess | python/src/dnp3_master/client.py:1886-1905 | drops the token and breaks the session |
| TailBuffer.Tail.Append | python/src/dnp3_master/client.py:119-133 | the chunks together are the last bytes of the stream, as many as there are up to the capacity |
| Regression.GrowthIsLeastSquares | python/src/dnp3_master/performance.py:743-756 | with two distinct timestamps the growth is the slope of the one line with least squared error, else 0 |
| Regression.SlopeIsUniqueBest | python/src/dnp3_master/performance.py:743-756 | no line has a smaller squared error than the computed one, and every other line has a larger one |
| Regression.GrowthIgnoresShift | python/src/dnp3_master/performance.py:743-756 | moving all timestamps by the same amount changes nothing |
| Regression.NearestRankIsSmallest | python/src/dnp3_master/performance.py:698-710 | the percentile is the smallest sample that at least that share of the samples does not exceed |
| HostLoop.HostController.RememberRequestId | native/src/HostController.cpp:302-314 | an id passes if and only if it is not among the last 4096 that passed; queue and set hold the same distinct ids |
| HostLoop.HostController.Dispatch | native/src/HostController.cpp:41-300 | every request that does not throw in the backend is counted once, as the success or failure it is |
| HostLoop.HostController.Turn | native/src/main.cpp:90-143 | every line read is one received request and, whatever is thrown, at least one success or failure; the loop stops exactly after a parsed line that leaves the host shutting down and whose reply did not throw |
| HostLoop.HostController.Serve | native/src/main.cpp:90-143 | reads every line up to the one that shuts the host down; received = succeeded + failed if and only if no turn threw after it was counted |

## Left out

- CaptureVerdict.EventVerdict: the digest is any function of the text; a collision on the two texts is the stated exception, SHA-256 itself is not modelled.
- CaptureResult.SnapshotsAreAccepted: the timings object, the decimal text of ids and the JSON types of single fields are not part of the snapshot; durations are exact reals, not rounded doubles.
- MeasurementCapture.Recorder.Begin: the two clock readings are one, and of the allocation failures only that of the digest is modelled.
- MeasurementCapture.Recorder.RecordObject: an allocation failure while queueing (the enqueue-failure reason) is not modelled, nor the destructor of the capture.
- MeasurementCapture.Recorder.ProcessLocked: a record whose text cannot be dumped counts as a failing digest provider.
- CaptureConfig.ParsePointRanges: `std::sort` is an insertion sort; only the order of the result is used.
- Incidents.NoIncidentIsLost: one acknowledger at a time, because the store takes no lock for that; a run in which a failure handler unlinks a file somebody needs is excluded, because then an incident can be lost (`IncidentUnlinks.NeededUnlinkLoses`).
- Incidents.RetryReturnsSameDocument: a failing unlink of the active file raises and leaves the lock; the retry assumes it works, and that no fsync of a complete text failed before or during it.
- IncidentStore.SafetyIncidentStore.WriteExclusive: errors of the create other than an existing file, the size limit of a record, and directory creation are left out.
- Client.UncertainEndsLock: no other process acts on the incident directory between the check before the request and the handler; what races do to a returned record is the subject of `Incidents`.
- Client.ControlFailsClosed: an interrupt inside the incident handler itself, and the texts added to error details, are not modelled; process handling is its effect on state and token.
- Commands.ParseCommands: the value fields of each command type are one flag.
- CommandTask.SuccessIsPermutation: counts by status name and state, and the timings, are left out; raw statuses have seven bits.
- ReadTask.ReadOperation.BeginFragment: the counters are modelled, the stored fragment is not.
- ReadTask.ReadOperation.Record: the counters are modelled, the stored measurement is not.
- CommandTask.StartedSuccessesAreAccepted: the order of the callbacks is that of the library, which calls OnStart when it takes up a task and delivers results only afterwards.
- ReadTask.SuccessIsComplete: callbacks run one after the other on the thread of the manager, and the completion callback of a response precedes its IIN, as the pinned library does; aggregate IIN bits, counts by kind and measurement contents are left out.
- TraceRing.Ring.Record: the name of the level is given, and the clock is a parameter.
- Unsolicited.UnsolicitedStore.Record: counters do not wrap, counts by group and variation, the enabled classes and the copy to the capture are left out.
- JsonScan.DuplicateKeyFound: the parse events are those of a value; the library's parser is not modelled.
- Utf8.DecodeAt: masks and shifts are division and remainder by the same powers of two.
- Utf8.CopyUtf8: a null source is handled where the trace uses the copy.
- Regression.GrowthIsLeastSquares: over the reals, without rounding.
- HostLoop.HostController.Dispatch: commands are told apart by whether they take parameters, shut down, and succeed; exceptions that are not standard ones are left out.
- OpenDNP3 itself, channels and handler adapters, process spawning, pipes, wall clocks, evidence files, test plans and reports: easy checks or input and output.
- ConnectionConfig, ReadConfig and TraceConfig range checks and enumeration tables: easy branches.
