# Verified model of the benchmark engine

`bench/` of this repository measures brokers: it offers load on an exact schedule, records what comes back,
judges the run by accounting identities, and repeats configurations until they pass or spend a budget. This
project models that engine in Dafny and proves the identities and the protocols behind them.

- `Arith`, `Words`, `Slots`, `Histogram`, `Statistics`: machine integers, 64-bit words as bit sets, the slot
  grid with its two roundings, the latency histogram, order statistics.
- `PacketIds` (module `Ids`), `Qos1`: the packet-id allocator, and the QoS 1 writer and reader as interleaved
  atomic steps over permits, ids and counters. Section 2.3.1 of MQTT 3.1.1 asks for an unused identifier,
  section 4.3.2 for the acknowledgement.
- `Pacer`, `Accounts`, `Connection`, `Generator`: one open-loop connection from its first slot to its teardown, its
  accounts step by step, and the run over all connections.
- `Payload`, `Wire`: stamps and PUBLISH frames, with an independent reader of the bytes.
- `Deliveries`, `Recorder`, `Arrivals`: the sharded recorder against a plain list of deliveries, and against whatever
  arrives.
- `CpuCount`: the sweep over CPU lists against the union of the elements.
- `RunRecords`, `Analysis`, `Figures`, `Verdict`, `Judgement`: records, the derived figures as figures of the
  deliveries, reconciliation row by row and as one condition on the record's fields, and the recompute fixpoint.
- `CleanRun`: from the slot grid through generator and recorder to the verdict, both ways: a record is valid exactly
  when nothing went wrong (`CleanRun.CleanRunsExist` shows that nothing need go wrong).
- `Outcome`, `OpenLoop`, `Classify`, `Resume`, `FileName`, `Ledgers`, `Matrix`, `Rounds`, `Session`: attempts,
  verdicts, file names, and the retry and resume orchestrator over an output directory that outlives sessions.

## How the source is read

- Integers are unbounded; wrapping, saturating and checked steps are written out. `f64` values are exact
  rationals, except that a rate over zero seconds is infinite or not a number.
- A panic of a checked conversion is an outcome of its own (`None` or `Panicked`).
- The clock is any nondecreasing reading. What is done to a connection's task is kept beside it (a refused session, a
  broken write, an abort, refused id allocations), with a tally of missed slots per cause. A write may complete, fail
  or time out, and a task may be aborted at any await. Acknowledgements arrive at any point where the tasks can
  interleave, and a peer acknowledges only ids already written. A reader is stopped only at an await, so its release,
  count, permit and in-flight steps are never cut. A timed-out gated write was polled at least once, so its gate ran.
- The output directory is a list of published records and a set of names held by temporary records or scratch
  directories. `run` returns any record with its spec's identity; a signal, a failed write, a failed inspection
  or a surviving child may end a session at any dispatch. One process at a time uses the directory.
- Reasons and refusals are row numbers and enumerations; their wording is not modelled.
- `resume_plan` is documented to ignore cancelled attempts; `attempt_complete` also refuses a repetition that
  left a child running. The model follows the code.

## Properties that hold under a condition

- A due time can panic on an accepted schedule (`Pacer.DueTimeCanPanic`); `Slots.DueTimesFitExactly` gives the
  exact condition.
- A run can be dispatched twice: a failed write that leaves neither a temporary record nor a scratch directory
  leaves its name free (`Matrix.LostRunIsRepeated`); `Matrix.NameFreeAgain` gives the exact condition, and
  `Session.RunCampaign` excludes every other repetition.
- The resume plan and the open-loop outcome can disagree at the attempt number `u32::MAX`
  (`Resume.PlanDisagreesAtLastNumber`). `Resume.PlanAgreesWithOutcome` gives the exact condition;
  `Resume.PlanAgreesBelowLastNumber` is the part a caller can check first.
- A valid verdict does not show that what arrived was published, because the accounts are counts
  (`CleanRun.OtherKeyPasses`). `CleanRun.CleanMeansEachOnce` gives the exact condition: every stamp that arrives was
  published.
- QoS 1 publishes add up over every run without an aborted task. An aborted task counts as one stall whatever it
  left uncounted, so they need not otherwise (`Generator.AbortBreaksIdentity`); `Generator.RunConservesPublishes`
  gives the size of the gap.

## Model

| member | source | states |
|---|---|---|
| `CleanRun.VerdictMeans` | bench/src/analysis.rs:182-545 | For every run and any arrivals, both directions: the record is valid if and only if the recorder was armed; every session opened and ended by itself with nothing missed, stalled or wrong; no write of an in-window publish failed; the arrivals are one per scheduled slot, of known connections, with distinct keys, as many scheduled in the window as the grid has there, none early and none of the window over range; and nothing disturbed the run. Stated over results and arrivals |
| `CleanRun.CleanRunPassesAccounting` | bench/src/analysis.rs:182-545 | Whatever disturbed it, a flawless run with a slot to schedule leaves no reason that concerns the accounts: rows 1-7, 9-17, 20, 24, 25, 27 and 29 are silent |
| `CleanRun.DeliverAndJudge` | bench/src/runner.rs:3339-3482 | Arm, deliver any arrivals, report and finalize. The record tells what happened: its counts are read off the results and the arrivals, and its latency figures are quantiles of the latencies. It is valid if and only if the recorder could be armed, the run was flawless and nothing disturbed it |
| `CleanRun.RunToVerdict` | bench/src/gen.rs:348-426 | The engine in one method: generator, recorder and judge, for whatever arrives. There is a verdict unless a connection panics, and none does when the due times fit. A valid verdict means that every connection sent all of its slots in order and, when every stamp that arrives was published, that what arrived is what was published, stamp for stamp; a run without failures whose publishes arrive once each and in time fails no accounting row |
| `Verdict.ValidMeans` | bench/src/analysis.rs:182-545 | For every kind of run, both directions: no reason is given if and only if the fields of the record balance (deliveries equal publishes, acknowledgements at QoS 1, grid and histogram counts, no error of any kind) and nothing disturbed the run (window as planned, last ten seconds within a tenth, lateness a tenth of latency at p99, backlog at most 50 ms of slots, counter bounds, driver, harness errors) |
| `CleanRun.RecordTells` | bench/src/runner.rs:3339-3482 | Offered, acked, missed, errors and lateness of a record are the sums over the connections; delivered, duplicates, foreign payloads, anomalies, over-range and window deliveries count the arrivals taken; latency figures are quantiles of them |
| `CleanRun.CleanMeansEachOnce` | bench/src/record.rs:386-441 | Of a complete run: every publish arrives once and nothing else does if and only if the arrivals are genuine stamps and are one per slot with distinct keys and in time |
| `CleanRun.OtherKeyPasses` | bench/src/record.rs:386-441 | The accounts are counts: a flawless run in which the delivered sequence number is not the published one |
| `CleanRun.CompleteReport` | bench/src/gen.rs:615-654 | The generator report of a run with no failure: offered equals scheduled, window slots equal the grid count, acked equals offered at QoS 1 |
| `CleanRun.GeneratorMeans` | bench/src/gen.rs:615-654 | The generator’s side of the accounts agrees if and only if every connection is complete and its in-window writes were done |
| `CleanRun.LatenessReads` | bench/src/gen.rs:615-654 | The merged lateness histogram holds, bucket by bucket, the write delays of every in-window publish written on any connection |
| `Arrivals.DeliverAll` | bench/src/record.rs:331-372 | Handing any encoded stamps to a recorder files those of known connections, in order, and counts every other one as foreign, all of them before arming |
| `Arrivals.DeliveryMeans` | bench/src/record.rs:386-441 | The report of any arrivals shows no duplicate, anomaly or over-range latency if and only if their keys are distinct and their times in order; then it counts all of them, and one latency per arrival scheduled in the window |
| `CleanRun.CompleteRunFillsWindow` | bench/src/gen.rs:335-346 | The window count of `slot_counts` is the number of in-window slots the connections own together |
| `CleanRun.PublishedAreDistinct` | bench/src/gen.rs:1605-1640 | No two stamps read back from the buffers of a whole run carry the same connection and sequence number, whatever was missed, refused or aborted |
| `Slots.GridInversion` | bench/src/gen.rs:319-333 | A slot is due before the grid end exactly when its index is below `scheduled_slots`: it is due before the window, or more than 10 ms before the window ends |
| `Slots.PastDueInversion` | bench/src/gen.rs:1981-2012 | A slot is due at or before `elapsed` exactly when its index is below the past-due closed form |
| `Slots.OffsetInversion` | bench/src/gen.rs:1469-1475 | Floor division of due times and ceiling division of counts are inverse, at every rate |
| `Slots.SlotCountsAreLiteral` | bench/src/gen.rs:335-346 | At every rate, zero included, `slot_counts` returns what literal counting of slots gives, never underflows, and panics exactly when the schedule leaves `u64` |
| `Slots.SlotDueIsOffset` | bench/src/gen.rs:1469-1475 | `slot_due_ns` is exact: no `u128` step saturates |
| `Slots.ProductFits` | bench/src/gen.rs:329-346 | No product of the slot counts saturates at `u128` |
| `Slots.OwnInversion` | bench/src/gen.rs:2017-2021 | A connection owns slot `k` below a bound exactly when `k` is below `own_slot_count` |
| `Slots.OwnCountsPartition` | bench/src/gen.rs:2017-2021 | The per-connection counts sum exactly to any global bound |
| `Slots.DueTimesFitExactly` | bench/src/gen.rs:1469-1475 | No due time a pacer computes can panic if and only if the first slot past the grid of the last connection fits `u64` |
| `Pacer.DueTimeCanPanic` | bench/src/gen.rs:1469-1475 | A concrete configuration the generator accepts on which the due-time conversion panics |
| `Ids.PacketIds.constructor` | bench/src/gen.rs:235-240 | A new allocator has no id in use |
| `Ids.PacketIds.Allocate` | bench/src/gen.rs:242-264 | Returns the lowest unused id at or after the cursor’s word if there is one there, else the lowest unused id, and `None` exactly when all 65535 are used |
| `Ids.PacketIds.FirstFree` | bench/src/gen.rs:242-264 | The scan finds the first unused id in the order it visits words |
| `Ids.PacketIds.FreeInWord` | bench/src/gen.rs:246-258 | The lowest unused id of one word; the top bit of the last word stands for no id |
| `Ids.PacketIds.MarkUsed` | bench/src/gen.rs:259 | Setting one bit adds exactly one id to the set |
| `Ids.PacketIds.Release` | bench/src/gen.rs:266-279 | Reports exactly prior membership, removes exactly the id, and moves the cursor to its word |
| `Ids.PacketIds.ReleaseThenAllocate` | bench/src/gen.rs:242-279 | After a release the next allocation takes an id of the same word, no greater than the one freed |
| `Pacer.OwnIsScheduled` | bench/src/gen.rs:1960-1972 | A connection’s own count is exactly its slots due before the grid end |
| `Pacer.ComputedDue` | bench/src/gen.rs:1469-1475 | The due time read by the pacer is exact on scheduled slots and past the grid end after the last |
| `Pacer.DueBoundIsExact` | bench/src/gen.rs:1981-2004 | The skip bound counts exactly the scheduled slots already due |
| `Pacer.WriteStartCell.Update` | bench/src/gen.rs:169-182 | Under interference from other connections the compare-and-swap loop ends, and the cell holds the greatest start ever passed, this one included |
| `Connection.Connection.CountRemainingMissed` | bench/src/gen.rs:1960-1972 | Every slot from the next one on becomes missed for one cause, nothing else changes |
| `Connection.Connection.SkipPastDueMissed` | bench/src/gen.rs:1981-2004 | Exactly the slots due by the clock reading become missed, at least one, after a refused allocation |
| `Connection.Connection.TakeSlot` | bench/src/gen.rs:1718-1736 | A due slot joins the batch under an id of its own, or every slot already due is missed when no id is left; either way the pacer advances |
| `Connection.Connection.CollectSlot` | bench/src/gen.rs:1710-1737 | One pass of collecting keeps the slot and id accounts |
| `Accounts.PushKeeps` | bench/src/gen.rs:1718-1736 | Adding the next slot under an unused id keeps every account |
| `Connection.Connection.CollectBatch` | bench/src/gen.rs:1701-1738 | A batch holds at most 64 consecutive slots with exact due times and distinct ids, and a due slot is always passed, even with all ids in flight |
| `Connection.Connection.Submit` | bench/src/gen.rs:1836-1851 | Once the gate has read a start before the window end, the whole batch is offered and in flight exactly once, its start reaches the shared cell, and the stamps read back from its bytes join those sent |
| `Accounts.SubmitKeeps` | bench/src/gen.rs:1836-1851 | Submitting a batch with the stamps its bytes carry keeps every account: each slot offered once, numbered on from those sent |
| `Connection.Connection.Complete` | bench/src/gen.rs:1855-1868 | A completed write records one lateness sample, at the bucket of its delay past the due time, or one over-range count per in-window slot |
| `Accounts.FinishKeeps` | bench/src/gen.rs:1855-1868 | Recording a batch keeps the lateness report exact, bucket by bucket and over range, for the in-window publishes recorded |
| `Connection.Connection.Write` | bench/src/gen.rs:1850-1889 | However a write ends, offered publishes stay accounted as acked, in flight or stalled |
| `Connection.Connection.SendBatch` | bench/src/gen.rs:1817-1889 | A batch is offered whole, or refused whole when its write would begin at or after the window end |
| `Connection.Connection.EncodePending` | bench/src/gen.rs:1776-1798 | The bytes a batch is written as read back as its ids, sequence numbers and due times, and the sequence number moves past it |
| `Accounts.BatchStampsFollow` | bench/src/gen.rs:1605-1640 | A batch numbered on from what was sent carries exactly the stamps its slots are owed |
| `Connection.Connection.ReleaseBatchIds` | bench/src/gen.rs:1741-1755 | Exactly the ids of the unwritten batch go back to the allocator |
| `Connection.Connection.DropBatch` | bench/src/gen.rs:1759-1771 | The batch and every later slot become missed |
| `Accounts.DropKeeps` | bench/src/gen.rs:1759-1771 | Dropping a batch whose ids were released keeps every account |
| `Connection.Connection.SendOrDrop` | bench/src/gen.rs:1641-1679 | Sending, dropping and failing each keep the slot account and end it where the pacer ends |
| `Connection.Connection.PacerPass` | bench/src/gen.rs:1623-1679 | Every pass strictly advances the next slot or ends with every slot accounted for |
| `Connection.Connection.RunPacer` | bench/src/gen.rs:1594-1682 | Under any clock, acknowledgements and write outcomes the pacer ends, and on every exit but a panic or an abort offered plus missed is the connection’s slot count. Every missed slot has a cause that did happen: a clock reading at or past the window end, a broken write, or an allocation refused with all ids in use; without one, every slot is sent, in order. A panic happens only when some due time does not fit |
| `Connection.Connection.Teardown` | bench/src/gen.rs:1896-1949 | QoS 1: offered equals acked plus stalled unless the task is aborted, and never falls short of them |
| `Connection.Connection.ReaderStep` | bench/src/gen.rs:2030-2086 | One PUBACK of an id in use moves exactly one publish from in flight to acked; of any other id it is exactly one protocol error |
| `Connection.Connection.ReaderSteps` | bench/src/gen.rs:1192-1219 | Any number of PUBACKs, or of frames under QoS 0, keep the id account and touch only the reader’s counters |
| `Accounts.AckKeeps` | bench/src/gen.rs:2030-2086 | Acknowledging an id in use and not of the batch: one publish leaves flight, and slots, stamps, lateness and ids stay accounted for |
| `Accounts.RecordLateness` | bench/src/gen.rs:1856-1867 | The lateness loop adds, for every in-window slot of the batch, a sample at the bucket of the time since it was due, at least one nanosecond, or an over-range count |
| `Generator.RunConnection` | bench/src/gen.rs:1484-1522 | Every connection that does not panic leaves settled counters, however it ends: refused, aborted at any await, or by itself |
| `Generator.RunSession` | bench/src/gen.rs:1484-1522 | The same from an open session, through pacer and teardown |
| `Generator.CloseSession` | bench/src/gen.rs:1496-1522 | A session whose pacer has ended settles, torn down unless its task was aborted |
| `Generator.QuietRunMissesNothing` | bench/src/gen.rs:476-546 | Over a whole run: with every session open, no write broken, no id refused and every clock reading before the window end, the whole schedule is offered, in order on every connection, and nothing is missed |
| `Generator.RunGenerator` | bench/src/gen.rs:348-426 | All connections settle, the last write start lies in the window, the report is built over them, and the run fails only when some due time does not fit |
| `Generator.RunAccountsForOpenSlots` | bench/src/gen.rs:476-546 | Whatever opens, fails or is aborted: offered plus missed covers every slot of the connections that ended and no slot of one that never opened |
| `Generator.RunConservesSlots` | bench/src/gen.rs:476-546 | With no session refused and no task aborted, offered plus missed is `scheduled`; a report without connect errors and stalls shows neither happened |
| `Generator.RunConservesPublishes` | bench/src/gen.rs:476-546 | QoS 1, every run: with no task aborted offered is acked plus stalled; otherwise the gap is what the aborted tasks left uncounted less one per task |
| `Generator.AbortBreaksIdentity` | bench/src/gen.rs:507-545 | At every number of connections there is a whole run, one task aborted before it offered anything, in which acked plus stalled exceed offered by one |
| `Qos1.StepKeeps` | bench/src/gen.rs:955-1035 | Every atomic step of writer, reader and teardown keeps the accounting invariant |
| `Qos1.RunKeeps` | bench/src/gen.rs:955-1035 | The invariant holds in every state of every interleaving, in both modes |
| `Qos1.WindowIsNeverExceeded` | bench/src/gen.rs:955-1035 | Available permits, held permits and unacknowledged ids never exceed the window, and id allocation never fails for a permit held |
| `Qos1.NoPermitIsLost` | bench/src/gen.rs:1132-1184 | Between batches, permits and unacknowledged ids make up the whole window |
| `Qos1.InFlightNeverWraps` | bench/src/gen.rs:1132-1184 | The in-flight counter never goes below zero, and at zero nothing is unacknowledged |
| `Qos1.ClosedSessionsBalance` | bench/src/gen.rs:1071-1124 | At teardown, in both modes, offered is acked plus stalled, and every publish is in exactly one of the two |
| `Qos1.FreeIdForEveryPermit` | bench/src/gen.rs:1239-1271 | While a batch is filled there is a free id for every permit still held |
| `Qos1.EarlyAckWrapsInFlight` | bench/src/gen.rs:1132-1184 | Without the assumption that a peer acknowledges only written ids: a run reaches a state in which an early acknowledgement wraps the in-flight counter |
| `Deliveries.TimelineTotalIsDelivered` | bench/src/record.rs:105-109 | The total of a timeline is the number of its deliveries |
| `Deliveries.SumSecsIsDelivered` | bench/src/record.rs:111-126 | Any span of seconds sums to the deliveries of those seconds |
| `Deliveries.FreshAllCountsPairs` | bench/src/record.rs:386-441 | Fresh deliveries are as many as distinct connection and sequence pairs |
| `Recorder.Shard.SetSeqBit` | bench/src/record.rs:198-210 | The chunked bitset answers prior membership and adds exactly one sequence number |
| `Recorder.Shard.BumpTimeline` | bench/src/record.rs:212-230 | The timeline grows to either side and one bin gains one, every other bin keeps its count |
| `Recorder.Shard.RecordHere` | bench/src/record.rs:347-371 | A shard stays equal to what its plain list of deliveries gives |
| `Recorder.Shard.CountFresh` | bench/src/record.rs:355-371 | A first delivery is counted, filed by window and latency, and binned |
| `Recorder.Shard.FileDelivery` | bench/src/record.rs:357-371 | Before its schedule an anomaly, and nothing else; in the window past the range one more over range, and nothing else; in the window and in range one sample at the bucket of its delay, at least one nanosecond; otherwise nothing |
| `Recorder.AddCounts` | bench/src/record.rs:386-441 | Merging bins at an offset adds them second by second, saturating |
| `Recorder.MergeTimelines` | bench/src/record.rs:386-441 | Timelines of different origins merge into one that starts at the earliest and holds exactly their deliveries |
| `Recorder.Recorder.ArmAt` | bench/src/record.rs:298-327 | Arming succeeds exactly once, near the clock and on a window in range |
| `Recorder.Recorder.RecordDelivery` | bench/src/record.rs:331-372 | A payload is a call of its connection, or foreign: undecodable, out of range, or before arming |
| `Recorder.Recorder.Report` | bench/src/record.rs:386-441 | Every number of the report, read off the calls: delivered and duplicates from which call of a connection and sequence number comes first; anomalies, over-range, every histogram bucket and every stretch of the timeline from the two times of those first calls |
| `Recorder.ReportReads` | bench/src/record.rs:386-441 | The same of any calls: each bucket of the latency histogram counts the first calls scheduled in the window whose delay falls in it, each stretch of seconds those delivered in it |
| `Recorder.PairsOfCalls` | bench/src/record.rs:386-441 | The pairs counted are those of the calls |
| `Recorder.ReportAccountsForEveryCall` | bench/src/record.rs:386-441 | Delivered counts distinct pairs; delivered, duplicates and foreign together are the calls made; the timeline total is delivered |
| `Histogram.BucketTopInRange` | bench/src/analysis.rs:660-676 | The record reader’s range check admits every bucket a recorder can fill |
| `Histogram.BucketIsNarrow` | bench/src/record.rs:28-41 | A bucket is less than a 1024th of its values wide and reported at its highest value, which is its own bucket |
| `Histogram.MergeCounts` | bench/src/record.rs:263-270 | Merging histograms adds their counts bucket by bucket |
| `Histogram.RecordCounts` | bench/src/gen.rs:187-195 | One sample raises its bucket, and the total, by one |
| `Payload.EncodeStamp` | bench/src/payload.rs:14-21 | The buffer filled in place is the stamp’s 64 bytes |
| `Payload.StampRoundTrip` | bench/src/payload.rs:14-38 | A payload decodes to a stamp if and only if it is that stamp’s encoding |
| `Wire.WriteVarint` | bench/src/wire.rs:117-129 | The loop appends the variable-length encoding of section 2.2.3 of MQTT 3.1.1 |
| `Wire.VarintRoundTrip` | bench/src/wire.rs:117-129 | Reading a written length gives it back, and refuses exactly what four bytes cannot hold |
| `Wire.EncodePublish` | bench/src/wire.rs:51-68 | Appends one PUBLISH as section 3.3 of MQTT 3.1.1 lays it out |
| `Wire.EncodeBatch` | bench/src/gen.rs:1776-1798 | The write buffer is the batch’s publishes in order, and the sequence number moves past them |
| `Wire.BatchRoundTrip` | bench/src/gen.rs:1776-1798 | Parsing a write buffer frame by frame gives back exactly the batch’s ids, sequence numbers and due times, in order, with no byte left |
| `Wire.EncodeFresh` | bench/src/gen.rs:1776-1798 | A batch encoded into an empty buffer reads back as the batch, stamp by stamp, and the sequence number moves past it |
| `CpuCount.CpuCount` | bench/src/analysis.rs:1104-1151 | For every element list, the sweep returns the size of the union of its ranges and strides, capped at `u32::MAX` |
| `CpuCount.SegmentCount` | bench/src/analysis.rs:1118-1148 | A segment without cuts is counted exactly, by range, by one stride in closed form, or by merging |
| `CpuCount.MergeCount` | bench/src/analysis.rs:1130-1146 | The heap merge ends and counts each CPU hit by any stride once |
| `CpuCount.Cuts` | bench/src/analysis.rs:1104-1109 | The cuts are exactly the bounds of the elements, ascending and once each |
| `CpuCount.ActiveStrides` | bench/src/analysis.rs:1113-1117 | Between two cuts the active strides hit exactly the CPUs the elements name |
| `Analysis.ComputeHistogramTotal` | bench/src/analysis.rs:660-676 | The checking loop equals its specification |
| `Analysis.HistogramTotalMeaning` | bench/src/analysis.rs:660-676 | A total is given exactly for ascending, in-range buckets whose sum fits, and then it is their sum |
| `Analysis.ComputePercentile` | bench/src/analysis.rs:682-696 | The walking loop returns the percentile whose meaning `Analysis.PercentileMeaning` gives |
| `Analysis.PercentileMeaning` | bench/src/analysis.rs:682-696 | The percentile is a recorded bucket: the samples up to it are at least the quantile’s share of the total, and at least one; those below it are fewer, or none |
| `Analysis.NoPercentile` | bench/src/analysis.rs:682-696 | There is none if and only if the bucket list is one no recorder emits, or holds no sample |
| `Analysis.PercentileMax` | bench/src/analysis.rs:682-696 | The quantile 1 is the last bucket with a sample |
| `Analysis.PercentileMonotone` | bench/src/analysis.rs:682-696 | A higher quantile is no lower value |
| `Figures.PercentileReads` | bench/src/analysis.rs:682-696 | A percentile of the latency histogram is that quantile of the latencies themselves: of the first calls scheduled in the window the share is delivered within it, and those in lower buckets are fewer |
| `Figures.FiguresRead` | bench/src/analysis.rs:91-175 | Every derived figure from the deliveries: p50, p99 and maximum are those quantiles of the latencies, or 0 without any; rates are deliveries of the window, and of its last ten seconds or fewer, per second; syscalls are per delivery of the window; connections are cycles per second |
| `Analysis.PerMeans` | bench/src/analysis.rs:91-175 | A rate times its divisor is its count |
| `Analysis.ReconcileMeaning` | bench/src/analysis.rs:182-545 | A reason is given exactly for a failing row or a harness error; what it means that none is, `Verdict.ValidMeans` says without the rows |
| `Judgement.FinalizeRecord` | bench/src/runner.rs:3339-3482 | The verdict is taken after the derived fields, which come from the raw observations: valid if and only if the accounts balance and nothing disturbed the run; a run that was never armed gets the window its constants plan |
| `Judgement.FinalizedRecomputes` | bench/src/analysis.rs:577-651 | For any raw record whose unresolved count follows from its other counts: after finalizing it recomputes without a mismatch if and only if its syscall count is the parse of its raw text and its connection rate is a number |
| `Judgement.StoredRecordsRecompute` | bench/src/analysis.rs:577-651 | For every profile, report, counter and list of survivors, a record finalized, judged again beside survivors and marked by the matrix recomputes without a mismatch |
| `Judgement.FinalizeCounter` | bench/src/runner.rs:2538-2627 | The stored count is what parsing the stored raw text gives; times, exit and raw text are the counter’s own |
| `Judgement.SurvivorsRecompute` | bench/src/runner.rs:2807-2818 | Judging beside survivors keeps a record consistent, names each of them in a reason, and makes it invalid |
| `Judgement.CancellingRecomputes` | bench/src/matrix.rs:739-742 | The cancellation mark keeps a record consistent |
| `Statistics.ComputeSpread` | bench/src/analysis.rs:715-734 | Minimum and maximum found in one pass give the specified spread |
| `Statistics.MedianSplits` | bench/src/analysis.rs:700-712 | Half of the values do not exceed the median and half are not below it; of an even number it lies midway between the middle two |
| `Statistics.SpreadMeaning` | bench/src/analysis.rs:715-734 | Over a positive median the gate holds if and only if no two values lie further apart than the limit’s share of it |
| `Outcome.CompleteMeaning` | bench/src/analysis.rs:752-785 | An attempt is complete if and only if nothing was cancelled, no child was left, and each repetition is there exactly once |
| `Outcome.JudgeConfig` | bench/src/analysis.rs:792-828 | The gate’s loop names the refusal the specification names |
| `Outcome.PassMeaning` | bench/src/analysis.rs:792-836 | An attempt passes if and only if it is complete, all valid and, when enforced, all metrics are finite, the median is not zero and no two metrics lie further apart than a tenth of it |
| `Outcome.GateReads` | bench/src/analysis.rs:738-745 | The figure the gate compares: throughput, p99 latency, connections per second or syscalls per message |
| `Outcome.PassesReordered` | bench/src/analysis.rs:792-836 | Passing does not depend on reading order |
| `Outcome.SurvivorIsIncomplete` | bench/src/analysis.rs:752-775 | An attempt with a record judged beside a surviving child is never complete |
| `Outcome.CapacityRows` | bench/src/analysis.rs:864-879 | The rows pushed are the failed capacity rows in order |
| `Outcome.FailedRowsMeaning` | bench/src/analysis.rs:864-879 | They are reconciliation rows 3, 11 and 31 of an open-loop record |
| `Outcome.CounterFailedMeaning` | bench/src/analysis.rs:1243-1248 | A counter failure is reconciliation row 19, 22 or 23 |
| `OpenLoop.NotSustainedMeaning` | bench/src/analysis.rs:900-964 | Not sustained if and only if the budget is spent without a pass, no counted run used strace, and every completed attempt has an invalid repetition, each on a capacity row and none on the counter |
| `OpenLoop.NotSustainedRows` | bench/src/analysis.rs:900-964 | A not-sustained list is non-empty, ascending, free of repeats, and names exactly the rows shown |
| `Classify.GroupByAttempt` | bench/src/analysis.rs:901-904 | Grouping loses and reorders nothing |
| `Classify.JudgeAttempt` | bench/src/analysis.rs:934-961 | One completed attempt is read in repetition order until it offends |
| `Classify.JudgeAttempts` | bench/src/analysis.rs:932-963 | Completed attempts are read in ascending order until one offends; otherwise their rows are collected |
| `Classify.ClassifyOpenLoop` | bench/src/analysis.rs:900-964 | The whole classification equals its specification, with the first offending attempt and repetition |
| `Resume.ResumePlan` | bench/src/matrix.rs:522-576 | Every configuration with records gets its state, and no other; a planned number follows the highest stored one, so it exceeds every stored attempt of its configuration and the one before it is stored |
| `Resume.PlanAgreesWithOutcome` | bench/src/matrix.rs:530-573 | Plan and outcome agree on what passed; they agree on what is still to run if and only if the highest number is below the last, or its attempt passes, or the budget is spent |
| `Resume.PlanAgreesBelowLastNumber` | bench/src/matrix.rs:530-573 | They agree on every configuration whose highest attempt number is not the last |
| `Resume.PlanDisagreesAtLastNumber` | bench/src/matrix.rs:530-573 | One cancelled record under the last number: the plan runs nothing, and the outcome is still pending |
| `Resume.VerdictsIgnoreOrder` | bench/src/matrix.rs:522-576 | Plan and outcome do not depend on the order records are read in |
| `FileName.NamesAreInjective` | bench/src/run_record.rs:261-278 | Record names, temporary names and scratch directories are each injective on key, attempt and repetition |
| `FileName.RecordIsNotTemporary` | bench/src/matrix.rs:851-854 | No temporary record takes a record’s name |
| `FileName.WithoutJsonSuffix` | bench/src/runner.rs:1315-1317 | Removing `.json` from a record name gives its stem back |
| `Matrix.AttemptInUse` | bench/src/matrix.rs:956-979 | A number is vacant or occupied exactly as its repetitions’ names are held; inspection may fail |
| `Matrix.FirstUnused` | bench/src/matrix.rs:687-710 | Only occupied numbers are skipped; none is left only when the last one is taken |
| `Matrix.NameFreeAgain` | bench/src/matrix.rs:758-766 | A run leaves its name free if and only if its write failed, no temporary record is left, and its scratch directory, if any, was its own and is gone |
| `Matrix.LostRunIsRepeated` | bench/src/matrix.rs:915-928 | Such a run leaves the directory as it was: the search that chose its attempt number chooses exactly that number again, and its name is free for a second dispatch |
| `Matrix.DispatchOne` | bench/src/matrix.rs:738-774 | A run adds its record or nothing, holds at most its own name, and goes on only if stored, not cancelled and without survivors |
| `Matrix.DispatchPlan` | bench/src/matrix.rs:723-775 | One planned run: the round so far stays accounted for, and a run that is stored and undisturbed moves it on by one plan |
| `Matrix.DispatchRepetition` | bench/src/matrix.rs:723-775 | One repetition of every planned attempt, each under a name not held before |
| `Matrix.DispatchRound` | bench/src/matrix.rs:722-775 | A finished round runs repetitions 1 to n of every planned attempt in order |
| `Rounds.PlanRound` | bench/src/matrix.rs:674-718 | Every pending configuration with a budget is planned once, at its first unused number; running out of numbers costs its budget |
| `Rounds.SettleOne` | bench/src/matrix.rs:776-819 | One configuration: it leaves the pending list exactly when its attempt passes, else stays, charged if it ran; a configuration that ran always costs the total budget something |
| `Rounds.Settle` | bench/src/matrix.rs:776-819 | A pass leaves the pending list, a failure costs one attempt and one number, and the total budget strictly shrinks |
| `Session.StopCheck` | bench/src/matrix.rs:657-673 | Asked once per configuration and only at budget zero; a stop names an exhausted configuration |
| `Session.Deduplicate` | bench/src/matrix.rs:625-634 | Each configuration is kept once, with the first spec listed for it |
| `Session.OpenBooks` | bench/src/matrix.rs:635-648 | The budget given or the whole one, and the first number given or 1 |
| `Session.FinishedRound` | bench/src/matrix.rs:722-819 | A finished round completes exactly one attempt of every budgeted configuration and touches no other |
| `Session.RoundStaysWithin` | bench/src/matrix.rs:722-775 | However a round ends, no configuration exceeds its budget of complete attempts |
| `Session.RunRound` | bench/src/matrix.rs:655-819 | One turn of the loop: it ends the stage with its promises kept, or the books stand and the total budget has strictly shrunk |
| `Session.RunConfigs` | bench/src/matrix.rs:610-827 | From any first attempts and budgets: rounds end, passed and failed partition the configurations, nothing follows a stop, others are untouched, every run goes to an unused number and each name once. With budgets planned from the records: no budget is exceeded, what passed passes on disk, and every failed one is not sustained (or exhausted, without the stop rule) unless the last attempt number is taken |
| `Session.ReportFailed` | bench/src/matrix.rs:1150-1176 | Every failed configuration is published with a non-empty row list or, out of numbers and with nothing stopped, reported failed; never both |
| `Session.PlanSpecs` | bench/src/matrix.rs:1241-1250 | Exactly the configurations that have not passed are run, at the planned number; the others are the skipped ones |
| `Session.RunStage` | bench/src/matrix.rs:1028-1213 | One stage: plan, rounds and report; it touches only its own configurations, and its result sorts them and is confirmed by the records |
| `Session.ConfirmedOutlives` | bench/src/matrix.rs:1100-1180 | A result stays confirmed by the records while its own configurations are left alone |
| `Session.RunSession` | bench/src/matrix.rs:995-1218 | Every session that is not interrupted: up to the stage that stopped it, each stage sorts its configurations into passed, failed and not sustained, none twice and none left out; the records at the end of the session confirm every entry, whatever later stages ran; a stopped session names an exhausted configuration and ends there |
| `Session.RunCampaign` | bench/src/matrix.rs:995-1218 | Over any number of sessions, interrupted anywhere: complete attempts never exceed the budget; every run goes to the first number, above all stored attempts of its configuration, that no file holds; and a name is dispatched again only when the earlier run left no file |

## Left out

- The broker itself (`src/`): session loop, dispatcher, worker and packet codec are not part of this model.
- `bench/src/runner.rs` beyond record building: spawning, signals, fifos, perf and strace control, `/proc`.
- `bench/src/twin.rs`, `server.rs`, `sub.rs`, `main.rs`, `doc.rs`: runtime and command-line plumbing, rendering.
- Tokio timers and memory ordering: replaced by nondeterministic steps under the assumptions above.
- The progress watchdog, readers that do not stop in their grace period, and reader panics: each fails the run without a report.
- The QoS 0 throughput writer and the connections mode of the generator: their counters would only add easy members.
- The text grammar of `cpu_count`, of CPU pressure and of counter output: elements and parsers are parameters.
- HDR histogram internals beyond the bucket a value falls in; JSON; `worker_loads`; `check_resume` and the request checks.
- `f64` rounding: rates, percentile ranks, medians and spreads are exact.
- Spread of a metric that is not finite: the source panics on a comparison with not-a-number; the model refuses such an attempt. No profile divides by zero (`Judgement.NoProfileDividesByZero`).
- A process killed between creating its scratch directory and writing its record, and two processes sharing one directory.
- Recorder.ReportAccountsForEveryCall: assumes fewer than 2^64 calls, because past that the counters saturate; `Recorder.Recorder.Report` states the saturated values without that assumption.
- CleanRun.DeliverAndJudge: the verdict is read for fewer than 2^64 arrivals and a run with an origin, because past that the counters saturate or wrap, and a timing without origin is judged by the planned window instead.
- Session.RunConfigs: requires a repetition and an attempt per configuration, which every profile has; with no repetition its rounds would never end.
- Session.RunCampaign: leaves out the operator, who may delete files between sessions.
