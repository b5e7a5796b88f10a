# Loss Observatory, modelled in Dafny

Loss Observatory turns packet-loss evidence into judgements. Evidence items come in from
sources, are fenced by source, epoch and sequence number, stored within bounds, derived into
observations, checked for freshness, classified, localized on a path, recorded as episodes and
written to a journal from which a later process recovers its history. This project models that
pipeline and proves what each stage promises.

Code that works step by step in the repository is imperative here as well: classes with the
same fields for the byte cursors, the journal store, the queue, the batch, the source and
generation registries, the evidence store, the engine around them and the episode tracker, and
methods with loops for the parsers, scans and folds. Each such method is proved against a
specification function or relation, and the theorems are about those. Numbers are mathematical integers with the widths of
the source written out: subset types for 8 to 64 bits, explicit remainders where a product or a
counter wraps, and explicit cuts where a cast truncates.

| files | subject |
|---|---|
| Octets, Bytes, Crc32c | bytes, the little-endian cursors, the Castagnoli CRC of section 12.1 of RFC 3720 |
| Evidence, EvidenceCodec | evidence items and their binary encoding |
| Journal, JournalWriter, JournalRecovery | record framing, the writer, the recovery loop and what it recovers |
| Calendar, Decimal, IsoTime | the proleptic Gregorian calendar and ISO 8601 text (section 5.6 and appendix C of RFC 3339) |
| BoundedQueue, BatchState, BatchIngest | concurrent batch ingest as atomic steps under each mutex |
| Observation, Conflict, Classify, Judgement | observations, conflict detection, classification and its theorems |
| Generation, Freshness | generation windows and admissibility |
| Localize, Localization | localization and its theorems |
| Counter, Pairing, Derive | counter deltas, endpoint pairing, derivation of single observations |
| Derivation, Provenance | the derivation of a whole snapshot, and what stands behind each observation |
| Fence, Store, Canonical, Snapshot | source fencing, the evidence store, the canonical order, snapshots |
| Confluence, Engine | stores filled in any order; recording, submitting and classifying, and the order of arrival |
| Restart | recovery across a restart |
| Episodes | the episode lifecycle |
| Lexer, ScriptValues, ExportLine, ScriptLine, ExportRoundTrip | the export line and the script reader that undoes it |
| Sequences | facts about sequences used in several proofs |

Some promises hold only under a condition, which is then part of the theorem:

- A probe report whose hop limit is set but not in use loses it in the export line
  (`ExportRoundTrip.ExportReadsBack`, `ExportRoundTrip.UnusedTtlIsLost`).
- In the first partial second of the 64-bit range the ISO 8601 parser overflows
  (`IsoTime.RoundTrip`).
- Where no observation shows loss, loss is asserted exactly when the offered counts overflow, no
  conflict is left unsettled and a threshold can be reached (`Judgement.LossNeedsLoss`,
  `Judgement.OverflowReadsAsLoss`).
- The store's bound on all items is exceeded exactly by an insertion into a full store whose
  bucket has room and for which nothing retained goes; that takes a bucket that overflowed
  before (`Store.ExceedsExactly`, `Store.BoundHoldsExactly`, `Store.BoundIsExceeded`).
- Evicting a closed episode takes an open one with the same key out of the index. A second one
  opens beside it exactly when a verdict of loss for that key comes while the first is open
  (`Episodes.EvictionUnindexes`, `Episodes.OneOpenExactly`, `Episodes.SecondOpens`).
- The readings of a counter step are found by identity, the last one with it. Under a shared
  identity a step from recovered history can read as current. It does exactly when one of its
  readings is recovered and none of those found for them is (`Provenance.SeriesMarkedExactly`, `Provenance.MarkedExactly`,
  `Restart.NothingRevives`, `Provenance.SharedIdentityHidesHistory`).
- A store comes to retain an identity twice exactly when one comes in that is still retained and
  whose other copy does not go for it (`Store.RepeatsExactly`, `Store.DistinctExactly`).
- The documentation says that decoders refuse enumerators out of range. The evidence decoder accepts
  an unknown payload discriminator from five up when nothing follows it; the store then refuses the
  item, as the counter it carries is nil (`EvidenceCodec.UnknownKindRefused`,
  `EvidenceCodec.UnknownKindAccepted`).
- A session can write a manifest that no later process accepts (`JournalRecovery.ManifestReads`).
- Basis points wrap around for large counts (`Observation.RatioExact`, `Observation.RatioWraps`).
- A counter delta is exact exactly when the step is shorter than the range, plausible and, if it
  passes a multiple of the range, taken for a wrap (`Counter.StepIsExact`, `Counter.DeltasAreExact`);
  a step through the whole range leaves no trace (`Counter.FullTurnIsLost`).
- The documentation says that decoders refuse trailing bytes. Of the decoders modelled the evidence
  decoder does (`EvidenceCodec.PrefixFree`); a manifest may be followed by anything
  (`Journal.TrailingBytesAreIgnored`).

## Model

| member | source | states |
|---|---|---|
| Crc32c.MakeCrcTable | src/core/bytes.cpp:9-23 | entry i of the built table is eight steps of bitwise division of i by the reflected Castagnoli polynomial, for all 256 entries |
| Crc32c.TableStep | src/core/bytes.cpp:193-201 | one table look-up and shift equals xoring the byte in and taking eight bit steps, for every 32-bit state and every byte |
| Crc32c.ExtendWithTable | src/core/bytes.cpp:193-201 | the checksum loop over the table computes the bit-by-bit reference checksum of the bytes, from any seed |
| Crc32c.ExtendConcat | src/core/bytes.cpp:193-201 | extending in two calls gives the checksum of the concatenation |
| Crc32c.BitStepInjective | src/core/bytes.cpp:9-23 | a bit step loses no information: equal results come from equal states |
| Crc32c.RunInjective | src/core/bytes.cpp:193-201 | feeding the same bytes to two different states never makes them meet |
| Crc32c.RunIsWord | src/core/bytes.cpp:193-201 | up to four bytes act on the state like one little-endian word xored in before all the bit steps |
| Crc32c.BurstChangesCrc | src/core/bytes.cpp:193-201 | replacing at most four consecutive bytes by others always changes the checksum, whatever stands before and behind them |
| Bytes.ByteWriter.PutU8 | src/core/bytes.cpp:51-57 | the little-endian bytes of the number join what was asked for; with the class invariant the buffer then holds all that was asked for, or the latch is set because it would not fit |
| Bytes.ByteWriter.PutU16 | src/core/bytes.cpp:59-63 | the little-endian bytes of the number join what was asked for; with the class invariant the buffer then holds all that was asked for, or the latch is set because it would not fit |
| Bytes.ByteWriter.PutU32 | src/core/bytes.cpp:65-69 | the little-endian bytes of the number join what was asked for; with the class invariant the buffer then holds all that was asked for, or the latch is set because it would not fit |
| Bytes.ByteWriter.PutU64 | src/core/bytes.cpp:71-75 | the little-endian bytes of the number join what was asked for; with the class invariant the buffer then holds all that was asked for, or the latch is set because it would not fit |
| Bytes.ByteWriter.PutI64 | src/core/bytes.cpp:77-80 | the little-endian bytes of the number join what was asked for; with the class invariant the buffer then holds all that was asked for, or the latch is set because it would not fit |
| Bytes.ByteWriter.PutRaw | src/core/bytes.cpp:82-90 | all of the bytes are written or none; the latch is set exactly when what was asked for no longer fits |
| Bytes.ByteWriter.PutText | src/core/bytes.cpp:92-106 | a 32-bit length and the bytes are written as two requests; a length above 32 bits is refused and latched |
| Bytes.ByteReader.Take | src/core/bytes.cpp:108-115 | succeeds exactly when enough bytes remain, returns exactly those bytes, and moves only on success |
| Bytes.ByteReader.GetU32 | src/core/bytes.cpp:137-145 | succeeds exactly when four bytes remain and then returns the number they encode; on failure nothing is left to read |
| Bytes.ByteReader.GetU64 | src/core/bytes.cpp:147-155 | the same for eight bytes |
| Bytes.ByteReader.GetI64 | src/core/bytes.cpp:157-166 | the same for signed words, whose bytes are those of the unsigned cast |
| Bytes.ByteReader.GetText | src/core/bytes.cpp:173-191 | succeeds exactly when a length within the caller's bound and that many bytes follow, and returns those bytes |
| Bytes.FromLeOfLe | src/core/bytes.cpp:59-75 | a number that fits its width is read back from its little-endian bytes |
| Bytes.LeOfFromLe | src/core/bytes.cpp:126-155 | bytes are the little-endian form of the number read from them, so the reader is injective |
| EvidenceCodec.EncodeEvidence | src/persist.cpp:82-157 | writes the item as the declared list of chunks of its payload kind into the fixed buffer |
| EvidenceCodec.DecodeEvidence | src/persist.cpp:159-337 | the reader-driven decoder is the offset-based decoding: same items, same errors, for every byte string, unknown payload discriminators included |
| EvidenceCodec.UnknownKindRefused | src/persist.cpp:255-336 | behind a readable header an unknown payload discriminator is refused if and only if it is zero or something follows it |
| EvidenceCodec.UnknownKindAccepted | src/persist.cpp:255-336 | the header of any item followed by any discriminator from five up decodes, as a counter sample of which nothing was written |
| EvidenceCodec.RoundTrip | src/persist.cpp:82-337 | decoding an encoding gives the item back if and only if its subject is known and its note is within the decoder's bound |
| EvidenceCodec.PrefixFree | src/persist.cpp:159-337 | no proper extension of a decodable byte string decodes |
| EvidenceCodec.EncodingPrefixFree | src/persist.cpp:82-337 | among the prefixes and the extensions of an encoding only the encoding itself decodes |
| JournalWriter.PersistenceStore.WriteRecord | src/persist.cpp:758-793 | appends exactly one framed record with the next sequence number and counts its bytes, or leaves file and log alone and says why |
| JournalWriter.PersistenceStore.OpenSession | src/persist.cpp:795-874 | a manifest goes first into an empty file and a session record follows; what was written before stays; succeeds exactly when both payloads fit their buffers and the payload bound |
| JournalWriter.PersistenceStore.FrameHeader | src/persist.cpp:766-783 | the header bytes with the payload behind them are the frame of the record, checksum included |
| Journal.FindRecord | src/persist.cpp:1046-1102 | what the framing loop finds at a position: nothing, a broken record, a damaged one, or an intact record with its bytes |
| Journal.ReadManifest | src/persist.cpp:1119-1164 | the verdict on a manifest payload is that of its declared layout, version and text bounds |
| Journal.TrailingBytesAreIgnored | src/persist.cpp:1119-1164 | a manifest that is read at all has the same verdict with any bytes behind it: trailing bytes are never refused |
| Journal.LoadJournal | src/persist.cpp:1016-1118 | the imperative recovery loop computes the specified recovery of the byte sequence, report included |
| Journal.ActKeeps | src/persist.cpp:1046-1118 | one turn of the loop only ever adds to what was delivered and accepts at most the record it read |
| JournalRecovery.LoadsWholeJournal | src/persist.cpp:758-1118 | a journal of whole records within the bounds is delivered completely, in order and unchanged, if and only if a manifest comes first and every manifest is understood |
| JournalRecovery.StoreLoads | src/persist.cpp:758-1118 | what a store has written to a new file is what loading that file delivers |
| JournalRecovery.CutRecovers | src/persist.cpp:1046-1118 | a journal cut at any byte delivers exactly its longest prefix of whole records, and reports truncation exactly when the cut is inside a record |
| JournalRecovery.WholeRecordsIsLongest | src/persist.cpp:1046-1118 | the number of records recovered from a cut is the largest whose frames fit |
| JournalRecovery.AppendKeeps | src/persist.cpp:1046-1118 | arbitrary bytes behind whole records neither change nor remove what is delivered of them |
| JournalRecovery.BurstIsCaught | src/persist.cpp:766-1102 | a change within four consecutive bytes of one record that stays inside one of its parts (magic, kind and flags; sequence; checksum; payload; never the length) is caught: every earlier record is delivered as written and nothing from the damaged one on |
| JournalRecovery.AbsorbsAll | src/persist.cpp:1104-1164 | a sequence of intact records never ends recovery by itself if and only if a manifest comes first and all manifests are good |
| JournalRecovery.ManifestReads | src/persist.cpp:795-874 | the manifest a session writes is understood again exactly when both of its texts are within the reader's bound, which the writer does not check |
| Calendar.CivilOfDays | src/core/time.cpp:19-39 | the date of the day number of a valid date is that date |
| Calendar.DaysOfCivil | src/core/time.cpp:19-39 | every day number gives a valid date, and the day number of that date is the day number |
| Calendar.NextDateIsNextDay | src/core/time.cpp:32-39 | the day after a date in the Gregorian calendar, leap years included, has the next day number |
| Calendar.ConsecutiveDays | src/core/time.cpp:19-30 | day zero is 1 January 1970 and consecutive day numbers are consecutive dates, on both sides of it |
| IsoTime.ParseFixedDigits | src/core/time.cpp:55-69 | succeeds exactly on a field of digits and returns its value |
| IsoTime.ParseIso8601 | src/core/time.cpp:97-150 | the cursor loop computes the specified parse of every text: instant, refusal, out of range, or the overflow of the signed product |
| IsoTime.YearInRange | src/core/time.cpp:73-95 | every 64-bit instant lies in a year of four digits, so its text has a fixed shape |
| IsoTime.RoundTrip | src/core/time.cpp:73-150 | parsing a printed instant gives the instant back if and only if its floored second in nanoseconds fits 64 bits; otherwise the parser overflows |
| IsoTime.TextsDiffer | src/core/time.cpp:73-150 | different instants inside that range print differently |
| BoundedQueue.Queue.TryPush | include/loss_observatory/core/bounded.hpp:114-134 | accepts at the end when open and not full, otherwise refuses and counts the refusal; statistics and high-water mark follow |
| BoundedQueue.Queue.PushBeforeWait | include/loss_observatory/core/bounded.hpp:138-148 | answers at once when the queue is closed or has room, and otherwise leaves it as it is and waits |
| BoundedQueue.Queue.CloseAfterDrain | include/loss_observatory/core/bounded.hpp:213-221 | closes and leaves what is queued to the consumers |
| BoundedQueue.Queue.PushAfterWait | include/loss_observatory/core/bounded.hpp:138-167 | a push whose wait has ended appends or is refused as closed, never as full |
| BoundedQueue.Queue.PopAfterWait | include/loss_observatory/core/bounded.hpp:171-186 | takes the oldest item, or nothing when the queue is empty |
| BoundedQueue.Queue.Close | include/loss_observatory/core/bounded.hpp:201-209 | discards what is queued and closes |
| BoundedQueue.OperationsKeepBounded | include/loss_observatory/core/bounded.hpp:114-221 | every operation keeps length within high-water mark within capacity, and pushed equal to popped, queued and discarded together |
| BatchState.OutcomeKeeps | src/engine.cpp:219-236 | recording a worker's outcome keeps the outstanding count equal to the undone slots and never replaces an outcome |
| BatchState.FillKeeps | src/engine.cpp:362-381 | the final sweep gives every undone slot an outcome and touches no other |
| BatchState.RefusalKeeps | src/engine.cpp:343-360 | recording a refused push marks that slot alone and keeps the count exact |
| BatchState.BatchState.RecordOutcome | src/engine.cpp:219-236 | a worker answer enters its slot only while that is undone |
| BatchState.BatchState.RecordRefusal | src/engine.cpp:350-360 | a refused push is recorded in its slot |
| BatchState.BatchState.FillUndone | src/engine.cpp:156-180 | sweeping a batch cancels exactly its undone slots and returns how many there were |
| BatchIngest.InvStep | src/engine.cpp:119-382 | every enabled step of producers, workers, stop and request_stop keeps the whole invariant of queue, batches, work in hand and shutdown |
| BatchIngest.Safety | src/engine.cpp:119-382 | in every interleaving: length within capacity, pushed equals popped then discarded then queued in push order, no slot pushed twice, outstanding equals undone slots, and a returned batch has an outcome everywhere |
| BatchIngest.OutcomesStay | src/engine.cpp:219-381 | over any stretch of a run a done slot stays done, a worker's outcome is never overwritten and a returned batch never changes |
| BatchIngest.GracefulStopProcessesAll | src/engine.cpp:130-150 | when a graceful stop joins its workers, every accepted push has been popped and processed |
| BatchIngest.NobodyIsStuck | src/engine.cpp:150-180 | once stop has closed the queue, no caller inside a batch is left without an enabled step |
| Observation.RatioExact | include/loss_observatory/core/checked.hpp:99-118 | the basis points of a part of a whole are exact if and only if the part is the whole or its ten-thousandfold fits 64 bits |
| Observation.RatioWraps | include/loss_observatory/core/checked.hpp:109-116 | above that, a loss of one half can read as zero |
| Observation.SaturatingSum.Add | include/loss_observatory/core/checked.hpp:70-93 | exact until the sum leaves 64 bits, then the largest word with the saturation flag |
| Conflict.Evaluate | src/conflict.cpp:53-139 | filtering, sorting, the nested scan and the authority rule together compute the specified resolution for all claims |
| Conflict.ConflictIsLinear | src/conflict.cpp:31-116 | for distinct sources, the quadratic scan reports a conflict if and only if one current claim asserts loss and another absence, or the defined ratios spread further than the tolerance |
| Conflict.ResolvedByAuthority | src/conflict.cpp:117-138 | a conflict is resolved if and only if one current claim alone holds the highest authority and that is not none; then every other current claim is retained |
| Conflict.SpreadIsLargest | src/conflict.cpp:103-115 | the reported spread is the largest difference of two defined ratios |
| Conflict.OneOrder | src/conflict.cpp:62-80 | claims of distinct sources have only one sorted order, so the outcome does not depend on how they arrive |
| Classify.Counter.TallyObservation | src/classify.cpp:74-135 | one observation changes the tally as specified: saturating totals, wrapping tests and marks |
| Classify.TallySources | src/classify.cpp:415-470 | the per-source maps hold the tally of each source's admissible observations and whether it has one |
| Classify.ClaimsFor | src/classify.cpp:415-512 | one claim for each source that speaks, in sorted order, made from its admissible observations alone |
| Classify.Classify | src/classify.cpp:514-785 | the whole classifier computes the specified verdict, totals, ratio and conflict |
| Judgement.StaleEvidenceIsInert | src/classify.cpp:415-631 | if anything is admissible, removing everything inadmissible changes neither verdict, totals, ratio nor conflict |
| Judgement.AbsentAndStale | src/classify.cpp:565-577 | no observations read as absent, inadmissible ones alone as stale, both with zero totals |
| Judgement.LossNeedsLoss | src/classify.cpp:581-631 | with a confirmation threshold of at least one basis point and no admissible observation that shows loss, loss is asserted if and only if the offered counts overflow, no conflict between the sources is left unsettled, and one of the two thresholds is at most 10000; it is confirmed loss if and only if that holds of the threshold for confirmation |
| Judgement.UnsettledIsConflict | src/conflict.cpp:31-138 | a conflict is left unsettled if and only if the current claims contradict each other or spread beyond the tolerance and no claim alone holds the top authority |
| Judgement.OverflowReadsAsLoss | src/classify.cpp:74-135 | two lossless reports of one source whose offered counts overflow are classified as confirmed loss |
| Judgement.OrderIsIrrelevant | src/classify.cpp:415-631 | while no total overflows, rearranged observations are classified the same |
| Generation.Observe | src/model/generation.cpp:35-59 | records one observation in its window, starting a new one if needed and dropping the lowest entity of a full table |
| Generation.GenerationRegistry.ObserveFlow | src/model/generation.cpp:118-121 | an observation of a flow is recorded among the flows and leaves the paths alone; over every run the windows are those of everything observed, as long as all entities fit |
| Generation.GenerationRegistry.ObservePath | src/model/generation.cpp:123-126 | and the other way round for a path |
| Generation.RecordedDescribes | src/model/generation.cpp:35-59 | one recording step: while no entity is dropped, each window reaches exactly from the earliest to the latest observation of its generation |
| Generation.StillDescribes | src/model/generation.cpp:35-59 | the same as an invariant of a run that asks nothing of it but that all entities together fit; the registry keeps it |
| Generation.OneDescription | src/model/generation.cpp:35-59 | the recorded windows depend on the set of observations only, not on their order |
| Generation.Correlate | src/model/generation.cpp:61-116 | the search loop finds the generation in force: covering windows first, then the later start, then the larger generation |
| Generation.OneAnswer | src/model/generation.cpp:61-116 | the recorded windows determine the answer |
| Generation.CorrelatedMatch | src/model/generation.cpp:61-116 | the match of that answer is the one the freshness rules ask for |
| Generation.OneCurrentGeneration | src/model/generation.cpp:61-116 | at an instant at most one generation of an entity is current, and each kind of answer is given under exactly its condition |
| Freshness.AdmissibleIsFresh | src/freshness.cpp:72-232 | only fresh observations are admissible and no recovered one ever is; each refusal has its reason |
| Freshness.AdmissibleExactly | src/freshness.cpp:72-232 | an observation is admissible if and only if it is live, timely, vouched for by its source and epoch, of the generation in force and not revised since, each rule stated on its own |
| Freshness.AdmissibleInterval | src/freshness.cpp:72-232 | for fixed registries the instants at which an observation is admissible form one interval: once stale it stays stale |
| Freshness.UsableExactly | src/freshness.cpp:72-232 | an observation can be admissible at some instant under some policy if and only if it is not recovered and has an instant |
| Localize.Coverage | src/localize.cpp:131-215 | the covered indices are exactly those of the hops the observation speaks about, in increasing order |
| Localize.RunsPartition | src/localize.cpp:391-404 | the runs tile the path, each is uniform and no two neighbours could be merged |
| Localize.Attribute | src/localize.cpp:443-480 | charges every observation to the segment the specification names and to no other |
| Localize.Localize | src/localize.cpp:103-530 | the whole localizer computes the specified result on every exit path |
| Localization.SegmentsTile | src/localize.cpp:391-433 | without truncation the segments are the maximal runs: every hop in exactly one, in order, neighbours differ |
| Localization.HomeIsObserved | src/localize.cpp:443-480 | an admissible observation finer than a path that covers a hop is charged to an observed segment, the one around the first hop it covers |
| Localization.ChargesAreSums | src/localize.cpp:443-493 | while nothing overflows, lost, offered and count of a segment are the sums over the observations at home in it |
| Localization.EachCountedOnce | src/localize.cpp:443-480 | the counts of all segments together are the number of attributable observations |
| Localization.AttributionIsExact | src/localize.cpp:340-493 | both facts for the segments built from a path |
| Localization.NeverFinerThanEvidence | src/localize.cpp:228-519 | on every exit path the achieved granularity is no finer than evidence and cap, no segment is finer than the evidence, every single named hop has admissible hop-scoped evidence, and the defensive clamp never fires |
| Counter.DeriveCounterDeltas | src/evidence/counter.cpp:155-296 | the loop yields the specified delta for each pair of neighbouring readings |
| Counter.StepIsExact | src/evidence/counter.cpp:180-293 | the delta of two readings is the true increase, reported as a wrap exactly when the total passed a multiple of the range, if and only if the readings can be compared and the step is shorter than the range, plausible, and, if it passes a multiple, allowed to wrap and of 64 bits or inside the band |
| Counter.JudgeIsExact | src/evidence/counter.cpp:206-293 | the verdict on two values is exact if and only if that holds of the step, for every width and policy |
| Counter.DeltasAreExact | src/evidence/counter.cpp:180-293 | over a whole series all deltas are exact if and only if every reading follows readably on the one before, and then they add up to the true increase across any number of wraps |
| Counter.FullTurnIsLost | src/evidence/counter.cpp:240-293 | a step through the whole range cannot be told from no step |
| Pairing.FindBest | src/evidence/derive.cpp:521-543 | finds a nearest free compatible receiver, the first among equals, or says that there is none |
| Pairing.PairReports | src/evidence/derive.cpp:507-610 | greedy pairing is a maximal matching: every report in exactly one outcome, pairs join sender and receiver on different nodes within the window, nothing left over could have been paired, senders choose in order the nearest receiver that is left, and each observation says what became of its reports |
| Derive.ApplyCounterDelta | src/evidence/derive.cpp:95-169 | only a trusted delta of a loss counter becomes loss; every other state is invalid with its own discontinuity and zero totals |
| Derive.ApplyProbe | src/evidence/derive.cpp:171-209 | a probe is valid exactly when method, window and counts allow it, and then sent equals received plus lost with an exact ratio |
| Derive.ApplySequence | src/evidence/derive.cpp:211-258 | a sequence report is valid exactly when its range can hold its received count, and then range, received and lost add up |
| Derivation.GroupBy | src/evidence/counter.cpp:112-152 | one pass builds exactly the groups of the items that belong, each in order, and the keys once each |
| Derivation.DeriveObservations | src/evidence/derive.cpp:387-624 | the whole derivation, from declared subjects over reports, counter series and endpoint groups to the final order, yields the specified observations |
| Provenance.OriginDecides | src/evidence/derive.cpp:21-41 | an observation is marked recovered if and only if an item behind it is: its report, the only reading, both reports of a comparison; for a step, if and only if one of the readings found under the identities of its two is |
| Provenance.SeriesMarkedExactly | src/evidence/derive.cpp:457-485 | for a series of any length: one observation for each step, recovered if and only if the last reading with the identity of the end is, or the identities differ and the last one with that of the start is; so all steps are marked as their readings are if and only if for every step that agrees with the marks of its two readings |
| Provenance.MarkedExactly | src/evidence/derive.cpp:387-624 | over a whole snapshot: every observation is marked as the items behind it are if and only if every series keeps its marks, and none reads as current that comes in part from a recovered item if and only if no series loses one |
| Provenance.DistinctKeepsMarks | src/evidence/derive.cpp:464-482 | a snapshot whose items have distinct identities keeps all its marks |
| Provenance.EveryObservationHasOrigin | src/evidence/derive.cpp:387-624 | every derived observation is exactly what one report, one reading, a reading of a series and the one before it, or two compatible reports of one group of the snapshot say, all of declared subjects, whatever their identities |
| Provenance.NothingIsDropped | src/evidence/derive.cpp:387-624 | every item of a declared subject is behind some observation, whatever the identities |
| Provenance.RecoveredStaysRecovered | src/evidence/derive.cpp:387-624 | nothing derived from recovered items alone is current, whatever identities they carry |
| Provenance.SharedIdentityHidesHistory | src/evidence/derive.cpp:464-482 | the failing input: of two readings with one identity the later is found for both, so with a recovered first and a live second one the step reads as current; two readings are marked as they should be if and only if their identities differ or there is no mark to lose |
| Fence.ApplyFence | src/model/source.cpp:295-338 | the decision and the new window for one sequence number |
| Fence.FenceStep | src/model/source.cpp:295-338 | a sequence is admitted if and only if it is not among the last window of admitted ones, and accepted if and only if it also exceeds all of them |
| Fence.WindowedStep | src/model/source.cpp:295-338 | an admitted sequence comes again only after a full window of other admissions |
| Fence.OneLiveEpoch | src/model/source.cpp:340-378 | at most one epoch of a source is let through |
| Fence.StaysFenced | src/model/source.cpp:108-252 | no operation but an activation that names it makes a fenced epoch live |
| Fence.RetiredIsNotLive | src/model/source.cpp:215-252 | retiring or restoring an epoch takes it out |
| Fence.FencedUntilNamed | src/model/source.cpp:108-252 | over every run, a fenced epoch is not live again until an activation names it |
| Fence.FenceHolds | src/model/source.cpp:295-378 | over every run and for every epoch: the high-water mark is the largest admitted sequence, accepted ones strictly increase, and repeats are a full window apart |
| Fence.RunsKeepLists | src/model/source.cpp:108-237 | over every run no epoch stands twice in the list of its source |
| Fence.SourceRegistry.RegisterSource | src/model/source.cpp:156-184 | the method changes the registry as the operation of the run model does |
| Fence.SourceRegistry.ActivateIncarnation | src/model/source.cpp:186-213 | the method changes the registry as the operation of the run model does |
| Fence.SourceRegistry.ActivateIncarnationWithEpoch | src/model/source.cpp:108-136 | the method changes the registry as the operation of the run model does |
| Fence.SourceRegistry.RestoreIncarnation | src/model/source.cpp:215-237 | the method changes the registry as the operation of the run model does |
| Fence.SourceRegistry.RetireIncarnation | src/model/source.cpp:239-252 | the method changes the registry as the operation of the run model does |
| Fence.SourceRegistry.ObserveSequence | src/model/source.cpp:340-378 | the method changes the registry as the operation of the run model does |
| Store.EvidenceStore.Submit | src/evidence/store.cpp:9-158 | an item is refused by structure, then by the fence, then as a duplicate or for capacity, in that order; accepted items enter buckets and insertion order exactly as stated, refused ones change nothing there |
| Store.EvidenceStore.Restore | src/evidence/store.cpp:164-239 | recovered items skip the fence, are marked recovered whatever they said, and are otherwise admitted alike |
| Store.EvidenceStore.Insert | src/evidence/store.cpp:112-147 | retained items are accepted minus evicted; buckets stay bounded; at the bound the oldest identity of the insertion order goes |
| Store.EvidenceStore.EvictOldest | src/evidence/store.cpp:129-145 | the first item with the oldest identity goes from the first subject in order that holds one, and nothing else |
| Store.EvidenceStore.TotalBound | src/evidence/store.cpp:112-147 | over every run of a store: the bound on all items has held throughout if and only if no insertion was one that exceeds it; while no bucket has overflowed none is |
| Store.ExceedsExactly | src/evidence/store.cpp:112-147 | one insertion into a store within its bound exceeds it if and only if the store is full, the bucket has room, and the insertion order is short or its oldest identity is neither retained nor the new one |
| Store.BoundHoldsExactly | src/evidence/store.cpp:112-147 | the same folded over any run of insertions, up to any moment |
| Store.OrderIsRecent | src/evidence/store.cpp:112-145 | over every run the insertion order lists exactly the identities that came last |
| Store.EvidenceStore.RetainedAreDistinct | src/evidence/store.cpp:91-147 | over every run of a store no identity has been retained twice if and only if no insertion repeated one; none is while no bucket has overflowed and identities are remembered for as long as items are listed |
| Store.RepeatsExactly | src/evidence/store.cpp:91-147 | one insertion into a store that retains no identity twice makes it do so if and only if the identity is still retained and neither the item a full bucket loses nor the oldest one that goes for the bound has it |
| Store.DistinctExactly | src/evidence/store.cpp:91-147 | the same folded over any run of insertions |
| Store.BoundIsExceeded | src/evidence/store.cpp:116-120 | after a bucket has overflowed the bound fails: three items are retained under a bound of two |
| Store.TracksStep | src/evidence/store.cpp:123-128 | an identity is refused exactly while it is among the last admitted identities of the window |
| Episodes.EpisodeTracker.Observe | src/episode.cpp:123-238 | the method performs the operation of the run model: extends, closes, opens or ignores according to the verdict and what is open under the flow and generation, then evicts |
| Episodes.EpisodeTracker.Evict | src/episode.cpp:240-282 | evicts oldest first, or the lowest closed identity while the oldest is open |
| Episodes.FindVictim | src/episode.cpp:240-277 | finds the oldest episode, or the lowest closed one if the oldest is open, and nothing exactly when all are open |
| Episodes.EvictionKeeps | src/episode.cpp:240-282 | eviction removes closed episodes only, keeps the rest unchanged and ends within the bound or with nothing closed left |
| Episodes.EpisodeTracker.CloseIdle | src/episode.cpp:284-301 | closes exactly the open episodes idle for too long, at their last observation |
| Episodes.EpisodeTracker.SealAll | src/episode.cpp:303-324 | closes every open episode and leaves closed ones alone |
| Episodes.EpisodeTracker.Restore | src/episode.cpp:412-427 | history enters closed, known identities are left as they are, and nothing becomes open |
| Episodes.OneOpenEpisode | src/episode.cpp:123-238 | while every open episode is the one its key names, a flow and generation have at most one open episode |
| Episodes.EvictionUnindexes | src/episode.cpp:278-280 | for any eviction of a closed episode: every open one is still the one its key names if and only if none is open under the same key |
| Episodes.EvictionIndexed | src/episode.cpp:240-282 | a whole eviction loop leaves every open episode indexed if and only if none of the episodes it takes has the key of an open one |
| Episodes.OperationKeeps | src/episode.cpp:123-427 | every operation keeps the tracker sound, never changes a closed episode, and lets only closed ones go |
| Episodes.IndexedWhileSafe | src/episode.cpp:123-427 | over every run of operations: every open episode has been the one its key names throughout if and only if no operation evicted an episode with the key of an open one |
| Episodes.OneOpenStep | src/episode.cpp:123-238 | one operation keeps one open episode to a flow and generation if and only if it is not a verdict of loss for a key that is open but not in the index |
| Episodes.OneOpenExactly | src/episode.cpp:123-427 | over every run: a flow and generation have had at most one open episode throughout if and only if no such verdict came |
| Episodes.OneOpenWhileSafe | src/episode.cpp:123-427 | over every run in which no eviction takes an open key out of the index nothing doubles, and a flow and generation have at most one open episode throughout |
| Episodes.SecondOpens | src/episode.cpp:240-282 | otherwise the next loss verdict opens a second episode beside the first |
| Episodes.ClosedForever | src/episode.cpp:123-427 | over every run of operations from the empty tracker a closed episode stays exactly as it is for as long as it is kept |
| Episodes.ExtensionGrows | src/episode.cpp:203-221 | an extension keeps identity, binding and start, and totals and peaks never fall |
| Canonical.CanonicalLessIsTotal | src/evidence/evidence.cpp:273-284 | a strict order that tells items with different identities apart |
| Canonical.SnapshotIsOrderFree | src/evidence/evidence.cpp:273-290 | items with distinct identities have one canonical arrangement |
| Snapshot.TakeSnapshot | src/evidence/store.cpp:246-263 | a snapshot is everything the store retains and nothing else, in canonical order |
| Snapshot.OneSnapshot | src/evidence/store.cpp:246-263 | where its identities are distinct, what is retained determines the snapshot |
| Confluence.Fill | src/evidence/store.cpp:9-158 | well-formed items with distinct identities and sequences, of live epochs and within the bounds, are all admitted, and each bucket holds its items as they came |
| Confluence.RearrangedIsWelcome | src/evidence/store.cpp:9-158 | whatever a rearrangement of such items is: it is such a list as well and fits the same bounds |
| Confluence.FillAndSnapshot | src/evidence/store.cpp:246-263 | submitting them and taking a snapshot gives their canonical order |
| Engine.FindTouched | src/engine.cpp:264-283 | the scan finds out whether a hop, a link or a queue is on a path |
| Engine.Engine.RecordGenerations | src/engine.cpp:238-288 | the generation registry is told of the item for its flow or path, or for every declared flow whose path the entity is on, and of nothing else |
| Engine.Engine.SubmitSync | src/engine.cpp:290-301 | any item is told to the generation registry, accepted or not; the store then refuses it for the first reason there is or takes it in, as it does on its own |
| Engine.Engine.SubmitNext | src/engine.cpp:290-301 | of welcome items the next one is recorded and admitted |
| Engine.Engine.Ingest | src/engine.cpp:303-326 | from an empty engine all welcome items are admitted and recorded, and the generation windows are exactly those of everything they are evidence of |
| Engine.Engine.Conclude | src/engine.cpp:450-488 | a classification is the classifier's verdict on the observations of the subject derived from a snapshot, with the freshness rules over the registries |
| Engine.ArrivalOrderIsIrrelevant | src/engine.cpp:290-488 | two engines that took in the same items in any two orders have the same snapshot, the same generation windows and the same observations, and answer every question with the same verdict, totals, ratio and conflict |
| Engine.TwoArrivals | src/engine.cpp:290-488 | the same over two whole runs from empty engines, with conditions on the first order alone |
| Restart.Run | src/evidence/store.cpp:164-167 | after any mixture of loading and submitting, every retained item not marked recovered was submitted live |
| Restart.AdmissibleMeansLive | src/freshness.cpp:78-84 | as long as no series of the snapshot loses the mark of a recovered reading, an observation derived from it is admissible, at any instant and under any policy, only if every item behind it was submitted live |
| Restart.NothingRevives | src/freshness.cpp:78-84 | and exactly then: nothing that comes in part from a recovered item can ever be admissible if and only if no series of the snapshot loses a mark |
| Restart.HistoryIsNotLoss | src/classify.cpp:565-577 | of a store that holds nothing live every question is answered absent or stale with zero totals, at any instant and under any policy |
| Restart.BootAndDerive | src/evidence/store.cpp:9-263 | over a whole boot, whatever is loaded and submitted: as long as no series of the snapshot loses a mark, what can be admissible comes from submitted items alone; none does where no identity is retained twice |
| Restart.BootAndConclude | src/engine.cpp:450-488 | a boot that only loads history answers every question absent or stale with zero totals |
| Restart.RestoreEpisodes | src/episode.cpp:412-427 | after loading any history no episode is open |
| Lexer.Tokenize | src/script.cpp:28-45 | the index loop splits a line into its maximal stretches without white space |
| Lexer.WordsOfJoined | src/script.cpp:28-45 | words joined by single spaces are told apart again |
| Lexer.ContentOfJoined | src/script.cpp:16-26 | trimming and comment removal leave such a line as it is |
| ScriptValues.WriteHex | src/model/ids.cpp:10-17 | writes the sixteen hexadecimal digits of a word, highest first |
| ScriptValues.ReadHex | src/model/ids.cpp:19-38 | reads sixteen hexadecimal digits of either case and nothing else |
| ScriptValues.HexRoundTrip | src/model/ids.cpp:10-38 | every identity is read back from its text |
| ScriptValues.ReadU64 | src/script.cpp:478-497 | reads digits only and refuses everything above 64 bits |
| ScriptValues.DecimalRoundTrip | src/script.cpp:478-497 | every 64-bit number is read back from its decimal text |
| ScriptValues.MethodRoundTrip | src/model/method.cpp:36-81 | the name of a method parses to the method, aliases notwithstanding |
| ScriptValues.ScopeRoundTrip | src/evidence/evidence.cpp:47-95 | the name of a counter scope parses to the scope |
| ExportLine.Describe | src/evidence/evidence.cpp:155-271 | appending field by field produces the line whose words are the verb and the shown fields, in order |
| ExportLine.KeyTextsDiffer | src/script.cpp:98-121 | no two keys share a text |
| ScriptLine.ParseLine | src/script.cpp:395-472 | the loops accept exactly the lines the word-by-word reading accepts, with the same fields |
| ExportRoundTrip.CommandBack | src/evidence/evidence.cpp:238-271 | the exported line is read as the command of its payload kind that carries every shown value under its key |
| ExportRoundTrip.ExportReadsBack | src/script.cpp:932-1183 | the line of a valid item reads back as the item, apart from the recovery mark, if and only if its note has no white space, both times are within the parser's range, and no unused hop limit is set |
| ExportRoundTrip.UnusedTtlIsLost | src/evidence/evidence.cpp:187-204 | a valid probe report with a hop limit that is not in use does not read back |
| ExportRoundTrip.LinesDiffer | src/evidence/evidence.cpp:238-271 | different exportable items have different lines |

## Left out

Weaker than the source in the model:

- Freshness.AdmissibleInterval: differences of instants are mathematical integers; the 64-bit overflow for instants centuries apart is not modelled.
- Pairing.PairReports: distances of instants are mathematical integers.
- Derivation.DeriveObservations: the bounds on observations, series and points per series and the rejections are not modelled; the final sort is one arrangement where the source leaves ties open.
- Engine.Engine.Conclude: the bound on results, a question without a subject and a question without an instant are not modelled; how the verdict enters aggregates and episodes is not either, the latter being in Episodes.
- Engine.ArrivalOrderIsIrrelevant: items that overflow a bound, share a sequence number or meet a fence that has seen others may be admitted or not depending on their order, so nothing is promised for them.
- Snapshot.TakeSnapshot: the bound on the items of a snapshot is not modelled.
- BatchIngest.Safety: the count of cancelled submissions is not modelled, neither is starting an engine again after stop, and exactly one caller stops it.
- Restart.Run: the journal hands over evidence items; how their records are decoded is in EvidenceCodec and Journal.
- ScriptLine.ParseLine: does not tell an unknown verb, a comment or another command from a refused line; bounds on input size, lines and commands are not modelled, the bound on the length of a line is, and the bound of 64 fields cannot bite because there are fewer keys.
- Localize.Localize: the classifier of a hop and the assessment of an observation are parameters, so it holds for every classifier.

Not modelled at all:

- File streams, directories, rename, flush and their errors: the journal is a byte sequence.
- Hashes, derived identities and derived epochs: identities are given, and fresh where the source derives them; the script reader takes the hash of symbolic names, the next sequence number and time offsets as parameters.
- Codecs of topology, sources, incarnations and episodes, and compaction: built from the same cursors as the evidence codec.
- What the recovery loop does with accepted records beyond the report, except for evidence and episodes.
- Reason lists, confidence, rationale and detail strings, lists of evidence identities, bound notes and counters of rejections.
- Aggregation, reports, topology registration, explanations and export bundles.
- The other verbs of the script language, hop lists and endpoint texts.
- Names of sources and their checks, and a change of the sequence window during a run.
- Clearing the store, and marking everything recovered.
- The store with a bound of zero items or zero items per subject, and generation tables with a bound of zero: the source takes elements from empty containers there.
- Threads, memory ordering and liveness under a scheduler: each region under a mutex is one step.
