# Daily recap cycle, modelled in Dafny

This project models the recap cycle of the daily Discord summarizer's
`DailyRecapService`. On every timer tick the service:

1. reads the **watermark**, the timestamp of the newest row in `daily_digests`;
2. loads the **pending set**: the summaries stamped at or after the watermark,
   in ascending timestamp order, or every summary when no digest exists yet;
3. stops quietly when nothing is pending;
4. otherwise joins the pending texts with single spaces and sends them to the
   summarizer, stopping on failure;
5. inserts a digest with the summarizer's text and the pending ids, stopping on
   failure;
6. posts `"Daily Digest: " + text` to the webhook named by `DISCORD_WEBHOOK`.
   This is best effort: no outcome of it changes the store or stops the loop.

The store is two sequences, `summaries` and `digests`. They are fields of the
class `DailyRecapService`. One cycle is the pure function `CycleStep`. The
class method `RunOnce` performs the cycle imperatively, with an early return
for each `continue` in the service, and is proved equal to `CycleStep`.
`Run` is the service loop over a bounded list of ticks.

Every external collaborator is a parameter, bundled per tick in `Externals`:

- a store read that fails;
- the summarizer's `Result`;
- whether the insert succeeds, and the timestamp the store gives the new row;
- the optional webhook URL;
- how the HTTP POST ends.

Modules:

- `Wrappers`: Option and Result.
- `Records`: summary and digest rows.
- `Window`: watermark and pending set.
- `Condense`: the space join and its inverse split.
- `Notifier`: webhook payload and outcome.
- `DailyRecap`: the cycle, its lemmas, the bounded run and the class.

Three modelling choices follow the code as written:

- Without a watermark the query has no `ORDER BY`. So the pending set is the
  summaries in stored order, not sorted by timestamp.
- Both store reads are unwrapped. A failed read therefore panics the recap task
  and ends the `run` loop (`Halted`, which stops `Run`); it does not skip the
  cycle. Whether the process as a whole exits then is not modelled.
- The code does not show how a digest's timestamp is assigned. So it is a
  free parameter and no monotonicity of digest timestamps is assumed. The
  coverage lemmas hold without it.

## Model

| member | source | states |
|---|---|---|
| `Records.Ids` | src/services/digests.rs:58 | one id per summary, the i-th being the i-th summary's id; `CycleHandOffs` states that the digest records exactly these ids |
| `Records.Texts` | src/services/digests.rs:60 | one text per summary, the i-th being the i-th summary's text; `CycleHandOffs` states that the summarizer gets these texts joined |
| `Window.LatestTimestamp` | src/services/digests.rs:31-37 | None exactly when no digest exists; otherwise the timestamp of some digest that no digest's timestamp exceeds |
| `Window.LatestAfterAppend` | src/services/digests.rs:31-37 | after a digest is appended the watermark is the later of the old watermark and the new digest's timestamp (the new one when it is the first) |
| `Window.AtOrAfter` | src/services/digests.rs:40-44 | keeps each summary stamped at or after the watermark with its multiplicity, drops every other; membership in both directions |
| `Window.InsertByTimestamp` | src/services/digests.rs:42 | inserting into an ascending sequence keeps it ascending and adds exactly the inserted summary |
| `Window.SortByTimestamp` | src/services/digests.rs:42 | the result is ascending by timestamp and a permutation of its input |
| `Window.Pending` | src/services/digests.rs:39-52 | with a watermark the result is ascending by timestamp; without one it is the stored sequence unchanged; its content in both cases is stated by `PendingIsWindow`, `PendingMembers` and `PendingEmpty` |
| `Window.PendingIsWindow` | src/services/digests.rs:39-52 | with a watermark the pending set is ascending and holds exactly the summaries at or after it, each as often as stored; without one it is the whole store |
| `Window.PendingMembers` | src/services/digests.rs:39-52 | a summary is pending iff it is stored and (no watermark or its timestamp is >= the watermark); equality with the watermark is included |
| `Window.PendingEmpty` | src/services/digests.rs:54-57 | the pending set is empty iff every stored summary is older than the watermark; without a watermark, iff the store is empty |
| `Condense.JoinWithSpace` | src/services/digests.rs:60-61 | the join of no texts is empty and a non-empty join starts with the first text; its separators, ends, length and inverse are stated by `JoinAppend`, `JoinEnds`, `JoinLength` and `SplitJoin` |
| `Condense.JoinAppend` | src/services/digests.rs:60-61 | joining two non-empty lists puts exactly one space between their joins |
| `Condense.JoinEnds` | src/services/digests.rs:60-61 | a non-empty join begins with the first text and ends with the last: no leading or trailing separator |
| `Condense.JoinLength` | src/services/digests.rs:60-61 | the join is as long as all texts plus one space per neighbouring pair |
| `Condense.SplitAfterWord` | src/services/digests.rs:60-61 | splitting a space-free word, a space and more text gives the word then the split of the rest |
| `Condense.SplitWord` | src/services/digests.rs:60-61 | a space-free text splits to itself |
| `Condense.SplitJoin` | src/services/digests.rs:60-61 | round trip: for space-free texts, splitting the join at spaces gives back the texts |
| `Notifier.Payload` | src/services/digests.rs:79-81 | the posted content is the heading "Daily Digest: " followed by the digest text unchanged |
| `Notifier.PayloadInjective` | src/services/digests.rs:79-81 | the posted content determines the digest text |
| `Notifier.Notify` | src/services/digests.rs:77-98 | posts iff the webhook variable is set, to that URL with the digest's payload; an answer is accepted iff its status is 2xx; a transport error is reported without an answer |
| `DailyRecap.CycleStep` | src/services/digests.rs:26-98 | a cycle leaves the digests unchanged unless it records, and then appends exactly the recorded digest; it halts iff a store read fails |
| `DailyRecap.CallOrder` | src/services/digests.rs:54-98 | no-op iff reads succeed and nothing is pending; summarizer called iff something is pending; insert iff the summarizer succeeded; recorded iff the insert succeeded; webhook iff recorded and the variable is set |
| `DailyRecap.CycleHandOffs` | src/services/digests.rs:58-81 | the summarizer gets the pending texts joined by spaces; the digest holds the summarizer's text, the store's timestamp and the pending ids in pending order; the webhook gets that text's payload |
| `DailyRecap.NotificationIsolated` | src/services/digests.rs:76-98 | ticks differing only in webhook variable and POST outcome leave the same digests and the same outcome apart from the notifier's report |
| `DailyRecap.FailedCycleRetried` | src/services/digests.rs:62-73 | after a summarizer or insert failure the digests are unchanged and the next readable cycle calls the summarizer with the same input |
| `DailyRecap.RecordedCoversPending` | src/services/digests.rs:58-73 | a recorded digest covers the id of every pending summary |
| `DailyRecap.RecordedCoversKnownIds` | src/services/digests.rs:58-73 | a recorded digest covers only ids of stored summaries |
| `DailyRecap.RecordedCoversAll` | src/services/digests.rs:31-73 | if every summary older than the watermark was covered, then after a recorded cycle every stored summary is covered by some digest |
| `DailyRecap.CyclePreservesInvariant` | src/services/digests.rs:26-98 | every cycle keeps the store invariant: digests cover only stored ids, and summaries older than the watermark are covered |
| `DailyRecap.LateSummaryMissed` | src/services/digests.rs:39-73 | a summary that is not covered and is written with a timestamp below the watermark is not pending, and the store invariant no longer holds: the coverage invariant depends on no such write |
| `DailyRecap.LateSummaryScenarioFirstCycle` | src/services/digests.rs:39-73 | summaries stamped 10 and 20 and no digest: the cycle stores one digest stamped 30 covering [1, 2] |
| `DailyRecap.LateSummaryScenarioNextCycle` | src/services/digests.rs:39-57 | a summary stamped 25 added after that digest is covered by no digest, and the next cycle finds nothing pending |
| `DailyRecap.IdleAfterCatchingUp` | src/services/digests.rs:39-57 | after recording a digest stamped later than every summary, the next readable cycle finds nothing pending |
| `DailyRecap.BoundaryReincluded` | src/services/digests.rs:42 | a pending summary stamped at or after the new digest's timestamp is covered by it and pending again next cycle, so two digests can cover it |
| `DailyRecap.FirstDigestScenario` | src/services/digests.rs:39-81 | summaries a, b, c and no digest: the summarizer gets "a b c", one digest covering [1, 2, 3] is stored and "Daily Digest: d1" is posted |
| `DailyRecap.InclusiveBoundaryScenario` | src/services/digests.rs:40-47 | after a digest stamped 20, summaries stamped 20 and 30 are pending: the boundary is inclusive |
| `DailyRecap.RunCycles` | src/services/digests.rs:25-99 | at most one outcome per tick; that the run stops only on a halt, halts exactly on read faults and keeps the store invariant is stated by `RunStopsOnlyOnHalt`, `RunHaltsOnReadFault` and `RunPreservesInvariant` |
| `DailyRecap.RunAdvances` | src/services/digests.rs:25-26 | each loop iteration adds its cycle's outcome and continues with the next tick unless the cycle halted |
| `DailyRecap.RunStopsOnlyOnHalt` | src/services/digests.rs:25-99 | a run has at most one outcome per tick; no halt comes before its last outcome, and it ends early only with a halt; summarizer, insert and webhook failures never stop it |
| `DailyRecap.RunHaltsOnReadFault` | src/services/digests.rs:31-51 | the i-th outcome of a run is a halt exactly when the i-th tick's store read fails (the unwrapped reads) |
| `DailyRecap.RunPreservesInvariant` | src/services/digests.rs:25-99 | a bounded run keeps the store invariant |
| `DailyRecap.DailyRecapService.constructor` | src/services/digests.rs:15-20 | the service starts over the given store contents |
| `DailyRecap.DailyRecapService.RunOnce` | src/services/digests.rs:26-98 | one loop iteration changes only the digests, exactly as `CycleStep` says, returns its outcome and keeps the store invariant |
| `DailyRecap.DailyRecapService.Run` | src/services/digests.rs:22-100 | the loop over a bounded list of ticks leaves the digests and outcomes that `RunCycles` gives and never changes the summaries |

## Left out

- The `tokio` interval timer, the tick period and the endless `loop` are not modelled. `Run` covers a finite list of ticks instead.
- SQLite, the connection pool and the `Arc` handle are not modelled. The two queries are functions over the stored sequences.
- Tie order: `ORDER BY timestamp ASC` does not fix the order of equal timestamps. The model keeps their stored order (a stable sort); any other tie order is not modelled.
- `db::insert_daily_digest` is not part of this model. The insert succeeds or fails as a whole, and the new row's timestamp is a parameter. The digest row id is not modelled.
- `gpt::summarize` is an external network call. Its answer is a free `Result` per tick and does not depend on the input in the model.
- The HTTP client and JSON encoding are reduced to an outcome: a status code or a transport error. Only the `content` string of the JSON body is modelled.
- `std::env::var`: an unset variable and a value that is not valid Unicode are both `None`.
- Logging (`info!`, `error!`) has no effect on state and is left out.
- Integer widths: the `i32` digest id read by the watermark query is discarded by the code. Summary ids (`i64`) and timestamps are unbounded integers.
- Summaries written by the upstream producer are not modelled: the stored summaries are fixed during a cycle and between cycles. The coverage invariant holds only while no summary stamped below the watermark is written during or between cycles. A summary written while `gpt::summarize` is awaited, and stamped below the timestamp of the digest that cycle then stores, is never selected again (`LateSummaryMissed`, `LateSummaryScenarioNextCycle`).
- Timestamps are integers. The store's date-time encoding, and its comparison with the `NaiveDateTime` bound as a query parameter, are assumed to agree with time order.
