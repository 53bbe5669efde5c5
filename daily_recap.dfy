/** One tick of the daily recap service and a bounded run of ticks.

    A cycle reads the watermark (the newest digest's timestamp), loads the
    pending summaries, and, when there are any, asks the summarizer to
    condense their joined texts, stores the result as a digest covering
    their ids, and announces it on the webhook. Each external collaborator
    is reduced to the outcome it reports for this tick (`Externals`). */
module DailyRecap {
  import opened Wrappers
  import opened Records
  import opened Window
  import opened Condense
  import opened Notifier

  /** A failed read of the store. The service unwraps both reads, so either
      failure panics the recap task and ends its loop rather than the cycle. */
  datatype ReadFault = NoReadFault | WatermarkReadFault | PendingReadFault

  /** What the outside world reports during one tick: whether a store read
      fails, the summarizer's answer, whether the insert succeeds and the
      timestamp the store gives the new row, the webhook variable, and how
      the POST ends. */
  datatype Externals = Externals(
    readFault: ReadFault,
    summarized: Result<string>,
    inserted: bool,
    now: int,
    webhook: Option<string>,
    send: SendOutcome)

  /** How a cycle ended, with what it handed to each collaborator it
      reached: the summarizer input, the digest text, the stored digest
      and the notifier's report. */
  datatype CycleOutcome =
    | Halted(fault: ReadFault)
    | NothingToRecap
    | SummarizeFailed(input: string)
    | InsertFailed(input: string, text: string)
    | Recorded(input: string, digest: Digest, notice: Notice)

  /** The digests table after a cycle, and how the cycle ended. */
  datatype Step = Step(digests: seq<Digest>, outcome: CycleOutcome)

  /** The summarizer was called in this cycle. */
  predicate SummarizerCalled(o: CycleOutcome)
  {
    o.SummarizeFailed? || o.InsertFailed? || o.Recorded?
  }

  /** A digest insert was attempted in this cycle. */
  predicate InsertAttempted(o: CycleOutcome)
  {
    o.InsertFailed? || o.Recorded?
  }

  /** A POST to the webhook was attempted in this cycle. */
  predicate NotificationAttempted(o: CycleOutcome)
  {
    o.Recorded? && !o.notice.WebhookUnset?
  }

  /** One cycle over the store: the summaries are only read; the digests
      table is either unchanged or grows by exactly the recorded digest. */
  function CycleStep(summaries: seq<Summary>, digests: seq<Digest>, x: Externals): (r: Step)
    ensures r.outcome.Recorded? ==> r.digests == digests + [r.outcome.digest]
    ensures !r.outcome.Recorded? ==> r.digests == digests
    ensures r.outcome.Halted? <==> x.readFault != NoReadFault
  {
    if x.readFault != NoReadFault then Step(digests, Halted(x.readFault))
    else
      var pending := Pending(summaries, LatestTimestamp(digests));
      if pending == [] then Step(digests, NothingToRecap)
      else
        var input := JoinWithSpace(Texts(pending));
        match x.summarized
        case Err(_) => Step(digests, SummarizeFailed(input))
        case Ok(text) =>
          if !x.inserted then Step(digests, InsertFailed(input, text))
          else
            var d := Digest(text, Ids(pending), x.now);
            Step(digests + [d], Recorded(input, d, Notify(x.webhook, x.send, text)))
  }

  /** The order in which failures cut a cycle short: the summarizer is
      called only when the reads succeed and something is pending, the
      insert only after the summarizer succeeds, the webhook only after the
      insert succeeds and only when its URL is set. */
  lemma CallOrder(summaries: seq<Summary>, digests: seq<Digest>, x: Externals)
    ensures var o := CycleStep(summaries, digests, x).outcome;
      var pending := Pending(summaries, LatestTimestamp(digests));
      && (o == NothingToRecap <==> x.readFault == NoReadFault && pending == [])
      && (SummarizerCalled(o) <==> x.readFault == NoReadFault && pending != [])
      && (InsertAttempted(o) <==> SummarizerCalled(o) && x.summarized.Ok?)
      && (o.Recorded? <==> InsertAttempted(o) && x.inserted)
      && (NotificationAttempted(o) <==> o.Recorded? && x.webhook.Some?)
  {
  }

  /** What the collaborators receive: the summarizer gets the pending
      texts joined by single spaces; a recorded digest holds the
      summarizer's text, the pending ids in pending order and the store's
      timestamp; the webhook gets the heading followed by that text. */
  lemma CycleHandOffs(summaries: seq<Summary>, digests: seq<Digest>, x: Externals)
    ensures var o := CycleStep(summaries, digests, x).outcome;
      var pending := Pending(summaries, LatestTimestamp(digests));
      && (SummarizerCalled(o) ==> o.input == JoinWithSpace(Texts(pending)))
      && (o.InsertFailed? ==> o.text == x.summarized.value)
      && (o.Recorded? ==>
            && o.digest.text == x.summarized.value
            && o.digest.timestamp == x.now
            && |o.digest.covered| == |pending|
            && (forall i :: 0 <= i < |pending| ==> o.digest.covered[i] == pending[i].id))
      && (NotificationAttempted(o) ==>
            o.notice.url == x.webhook.value && o.notice.content == Payload(x.summarized.value))
  {
    var pending := Pending(summaries, LatestTimestamp(digests));
    if x.readFault == NoReadFault && pending != [] && x.summarized.Ok? && x.inserted {
      var ids := Ids(pending);
      assert CycleStep(summaries, digests, x).outcome.digest ==
        Digest(x.summarized.value, ids, x.now);
    }
  }

  /** Notification never affects stored state: two ticks that differ only
      in the webhook variable and the POST outcome store the same digest
      and end the same way apart from the notifier's report. */
  lemma NotificationIsolated(summaries: seq<Summary>, digests: seq<Digest>, x: Externals, y: Externals)
    requires x.readFault == y.readFault && x.summarized == y.summarized
    requires x.inserted == y.inserted && x.now == y.now
    ensures var rx, ry := CycleStep(summaries, digests, x), CycleStep(summaries, digests, y);
      && rx.digests == ry.digests
      && (rx.outcome.Recorded? <==> ry.outcome.Recorded?)
      && (rx.outcome.Recorded? ==> rx.outcome.input == ry.outcome.input && rx.outcome.digest == ry.outcome.digest)
      && (!rx.outcome.Recorded? ==> rx.outcome == ry.outcome)
  {
  }

  /** A summarizer or insert failure leaves the digests table as it was,
      so the next cycle that reads successfully sees the same pending set
      and hands the summarizer the same input again. */
  lemma FailedCycleRetried(summaries: seq<Summary>, digests: seq<Digest>, x: Externals, y: Externals)
    requires CycleStep(summaries, digests, x).outcome.SummarizeFailed? ||
             CycleStep(summaries, digests, x).outcome.InsertFailed?
    requires y.readFault == NoReadFault
    ensures var r := CycleStep(summaries, digests, x);
      var next := CycleStep(summaries, r.digests, y).outcome;
      && r.digests == digests
      && SummarizerCalled(next)
      && next.input == r.outcome.input
  {
  }

  /** Every digest covers only ids of stored summaries. */
  ghost predicate CoversKnownIds(summaries: seq<Summary>, digests: seq<Digest>)
  {
    forall i :: 0 <= i < |digests| ==> forall id :: id in digests[i].covered ==> id in Ids(summaries)
  }

  /** Every summary older than the watermark is covered by some digest. */
  ghost predicate CoveredBelowWatermark(summaries: seq<Summary>, digests: seq<Digest>)
  {
    forall s :: s in summaries && digests != [] && s.timestamp < LatestTimestamp(digests).value ==>
      CoveredBy(s.id, digests)
  }

  /** The store invariant that recap cycles keep. */
  ghost predicate StoreInvariant(summaries: seq<Summary>, digests: seq<Digest>)
  {
    CoversKnownIds(summaries, digests) && CoveredBelowWatermark(summaries, digests)
  }

  /** A recorded digest covers every pending summary. */
  lemma {:induction false} RecordedCoversPending(summaries: seq<Summary>, digests: seq<Digest>, x: Externals, s: Summary)
    requires CycleStep(summaries, digests, x).outcome.Recorded?
    requires s in Pending(summaries, LatestTimestamp(digests))
    ensures s.id in CycleStep(summaries, digests, x).outcome.digest.covered
  {
    var pending := Pending(summaries, LatestTimestamp(digests));
    var k :| 0 <= k < |pending| && pending[k] == s;
    assert Ids(pending)[k] == s.id;
  }

  /** After a recorded cycle every stored summary is covered by some
      digest, provided the store invariant held before it: coverage catches
      up completely with each successful cycle. */
  lemma {:induction false} RecordedCoversAll(summaries: seq<Summary>, digests: seq<Digest>, x: Externals)
    requires StoreInvariant(summaries, digests)
    requires CycleStep(summaries, digests, x).outcome.Recorded?
    ensures forall s :: s in summaries ==> CoveredBy(s.id, CycleStep(summaries, digests, x).digests)
  {
    var r := CycleStep(summaries, digests, x);
    var watermark := LatestTimestamp(digests);
    forall s | s in summaries ensures CoveredBy(s.id, r.digests) {
      if digests != [] && s.timestamp < watermark.value {
        var i :| 0 <= i < |digests| && s.id in digests[i].covered;
        assert r.digests[i] == digests[i];
      } else {
        PendingMembers(summaries, watermark, s);
        RecordedCoversPending(summaries, digests, x, s);
        assert r.digests[|digests|] == r.outcome.digest;
      }
    }
  }

  /** A recorded digest covers only ids of stored summaries. */
  lemma RecordedCoversKnownIds(summaries: seq<Summary>, digests: seq<Digest>, x: Externals)
    requires CycleStep(summaries, digests, x).outcome.Recorded?
    ensures forall id :: id in CycleStep(summaries, digests, x).outcome.digest.covered ==> id in Ids(summaries)
  {
    var pending := Pending(summaries, LatestTimestamp(digests));
    var d := CycleStep(summaries, digests, x).outcome.digest;
    assert d.covered == Ids(pending);
    forall id | id in d.covered ensures id in Ids(summaries) {
      var k :| 0 <= k < |d.covered| && d.covered[k] == id;
      PendingMembers(summaries, LatestTimestamp(digests), pending[k]);
      var j :| 0 <= j < |summaries| && summaries[j] == pending[k];
      assert Ids(summaries)[j] == id;
    }
  }

  /** Every cycle keeps the store invariant, whatever the digest's
      timestamp and whatever happens to the notification. */
  lemma {:induction false} CyclePreservesInvariant(summaries: seq<Summary>, digests: seq<Digest>, x: Externals)
    requires StoreInvariant(summaries, digests)
    ensures StoreInvariant(summaries, CycleStep(summaries, digests, x).digests)
  {
    var r := CycleStep(summaries, digests, x);
    if r.outcome.Recorded? {
      var d := r.outcome.digest;
      RecordedCoversKnownIds(summaries, digests, x);
      forall i | 0 <= i < |r.digests|
        ensures forall id :: id in r.digests[i].covered ==> id in Ids(summaries)
      {
        if i < |digests| {
          assert r.digests[i] == digests[i];
        } else {
          assert r.digests[i] == d;
        }
      }
      RecordedCoversAll(summaries, digests, x);
    }
  }

  /** The coverage invariant depends on summaries being written in time
      order. A summary that is written late, stamped below the watermark
      and covered by no digest is never selected again. This can happen
      when it is written while the summarizer call is in flight and the
      digest recorded afterwards is stamped later. Such a summary is not
      pending, and the store invariant no longer holds once it is
      stored. */
  lemma LateSummaryMissed(summaries: seq<Summary>, digests: seq<Digest>, y: Summary)
    requires StoreInvariant(summaries, digests)
    requires digests != [] && y.timestamp < LatestTimestamp(digests).value
    requires !CoveredBy(y.id, digests)
    ensures y !in Pending(summaries + [y], LatestTimestamp(digests))
    ensures !StoreInvariant(summaries + [y], digests)
  {
    PendingMembers(summaries + [y], LatestTimestamp(digests), y);
    assert y in summaries + [y];
  }

  /** A late write, worked through. Summaries are stamped 10 and 20, and
      the first cycle records one digest stamped 30 covering ids 1 and 2. */
  lemma LateSummaryScenarioFirstCycle()
    ensures var summaries := [Summary(1, "a", 10), Summary(2, "b", 20)];
      var x := Externals(NoReadFault, Ok("d1"), true, 30, None, TransportError);
      CycleStep(summaries, [], x).digests == [Digest("d1", [1, 2], 30)]
  {
    var summaries := [Summary(1, "a", 10), Summary(2, "b", 20)];
    assert Ids(summaries) == [1, 2];
  }

  /** A summary stamped 25 is then written. No digest covers it, and the
      next cycle finds nothing pending, so it is never covered. */
  lemma LateSummaryScenarioNextCycle()
    ensures var summaries := [Summary(1, "a", 10), Summary(2, "b", 20), Summary(3, "c", 25)];
      var ds := [Digest("d1", [1, 2], 30)];
      var y := Externals(NoReadFault, Ok("d2"), true, 40, None, TransportError);
      && !CoveredBy(3, ds)
      && CycleStep(summaries, ds, y).outcome == NothingToRecap
  {
    var summaries := [Summary(1, "a", 10), Summary(2, "b", 20), Summary(3, "c", 25)];
    var ds := [Digest("d1", [1, 2], 30)];
    assert !CoveredBy(3, ds) by {
      forall i | 0 <= i < |ds| ensures 3 !in ds[i].covered {
        assert ds[i].covered == [1, 2];
      }
    }
    assert LatestTimestamp(ds) == Some(30);
    PendingEmpty(summaries, Some(30));
  }

  /** Idle once caught up: after a recorded digest stamped later than every
      stored summary, the next cycle that reads successfully finds nothing
      pending and calls nothing. */
  lemma {:induction false} IdleAfterCatchingUp(summaries: seq<Summary>, digests: seq<Digest>, x: Externals, y: Externals)
    requires CycleStep(summaries, digests, x).outcome.Recorded?
    requires forall s :: s in summaries ==> s.timestamp < x.now
    requires y.readFault == NoReadFault
    ensures CycleStep(summaries, CycleStep(summaries, digests, x).digests, y).outcome == NothingToRecap
  {
    var r := CycleStep(summaries, digests, x);
    var d := r.outcome.digest;
    assert d.timestamp == x.now;
    LatestAfterAppend(digests, d);
    var w := LatestTimestamp(r.digests);
    assert w.value >= x.now;
    forall i | 0 <= i < |summaries| ensures summaries[i].timestamp < w.value {
      assert summaries[i] in summaries;
    }
    PendingEmpty(summaries, w);
  }

  /** The inclusive boundary: a summary stamped exactly at the watermark is
      pending again. In particular a pending summary stamped at or after the
      new digest's timestamp is covered by that digest and still pending in
      the next cycle, so two digests may cover the same summary. */
  lemma {:induction false} BoundaryReincluded(summaries: seq<Summary>, digests: seq<Digest>, x: Externals, s: Summary)
    requires CycleStep(summaries, digests, x).outcome.Recorded?
    requires s in Pending(summaries, LatestTimestamp(digests))
    requires s.timestamp >= x.now
    ensures s.id in CycleStep(summaries, digests, x).outcome.digest.covered
    ensures s in Pending(summaries, LatestTimestamp(CycleStep(summaries, digests, x).digests))
  {
    var r := CycleStep(summaries, digests, x);
    RecordedCoversPending(summaries, digests, x, s);
    PendingMembers(summaries, LatestTimestamp(digests), s);
    LatestAfterAppend(digests, r.outcome.digest);
    PendingMembers(summaries, LatestTimestamp(r.digests), s);
  }

  /** The first-ever cycle over three summaries: the summarizer gets
      "a b c" and one digest covering ids 1, 2 and 3 is stored and
      announced. */
  lemma FirstDigestScenario()
    ensures var summaries := [Summary(1, "a", 10), Summary(2, "b", 20), Summary(3, "c", 30)];
      var x := Externals(NoReadFault, Ok("d1"), true, 40, Some("hook"), Responded(204));
      var d := Digest("d1", [1, 2, 3], 40);
      CycleStep(summaries, [], x) ==
        Step([d], Recorded("a b c", d, Answered("hook", "Daily Digest: d1", true)))
  {
    var summaries := [Summary(1, "a", 10), Summary(2, "b", 20), Summary(3, "c", 30)];
    assert Pending(summaries, LatestTimestamp([])) == summaries;
    assert Ids(summaries) == [1, 2, 3];
    assert Texts(summaries) == ["a", "b", "c"];
    assert JoinWithSpace(["a", "b", "c"]) == "a b c" by {
      assert ["a", "b", "c"][1..] == ["b", "c"];
      assert ["b", "c"][1..] == ["c"];
    }
    assert Notify(Some("hook"), Responded(204), "d1") == Answered("hook", "Daily Digest: d1", true);
  }

  /** After a digest stamped 20 covering ids 1 and 2, a new summary stamped
      30 arrives: the pending set is summaries 2 and 3, because the boundary
      is inclusive. */
  lemma InclusiveBoundaryScenario()
    ensures var summaries := [Summary(1, "a", 10), Summary(2, "b", 20), Summary(3, "c", 30)];
      Pending(summaries, LatestTimestamp([Digest("d1", [1, 2], 20)])) ==
        [Summary(2, "b", 20), Summary(3, "c", 30)]
  {
    var summaries := [Summary(1, "a", 10), Summary(2, "b", 20), Summary(3, "c", 30)];
    assert AtOrAfter(summaries, 20) == [Summary(2, "b", 20), Summary(3, "c", 30)] by {
      assert summaries[1..] == [Summary(2, "b", 20), Summary(3, "c", 30)];
      assert summaries[2..] == [Summary(3, "c", 30)];
    }
  }

  /** The digests table and the outcomes of a bounded run of ticks. */
  datatype Trace = Trace(digests: seq<Digest>, outcomes: seq<CycleOutcome>)

  /** Ticks run one after another until they are used up or a failed read
      panics the recap task; every other outcome moves on to the next tick. */
  function RunCycles(summaries: seq<Summary>, digests: seq<Digest>, ticks: seq<Externals>): (t: Trace)
    ensures |t.outcomes| <= |ticks|
    decreases |ticks|
  {
    if ticks == [] then Trace(digests, [])
    else
      var r := CycleStep(summaries, digests, ticks[0]);
      if r.outcome.Halted? then Trace(r.digests, [r.outcome])
      else
        var rest := RunCycles(summaries, r.digests, ticks[1..]);
        Trace(rest.digests, [r.outcome] + rest.outcomes)
  }

  /** A run whose outcomes so far are `prefix`, continued by `t`. */
  function Continue(prefix: seq<CycleOutcome>, t: Trace): (extended: Trace)
  {
    Trace(t.digests, prefix + t.outcomes)
  }

  /** Extending a run by one tick: the outcome joins the prefix, and the
      run either ends (on a halt) or continues from the next tick. */
  lemma RunAdvances(summaries: seq<Summary>, start: seq<Digest>, ticks: seq<Externals>, i: nat,
                    prefix: seq<CycleOutcome>, digests: seq<Digest>)
    requires i < |ticks|
    requires RunCycles(summaries, start, ticks) == Continue(prefix, RunCycles(summaries, digests, ticks[i..]))
    ensures var r := CycleStep(summaries, digests, ticks[i]);
      RunCycles(summaries, start, ticks) ==
        if r.outcome.Halted? then Trace(r.digests, prefix + [r.outcome])
        else Continue(prefix + [r.outcome], RunCycles(summaries, r.digests, ticks[i + 1..]))
  {
    var rest := ticks[i..];
    assert rest[0] == ticks[i] && rest[1..] == ticks[i + 1..];
    RunCyclesFirst(summaries, digests, rest);
    var r := CycleStep(summaries, digests, ticks[i]);
    if !r.outcome.Halted? {
      ContinueCons(prefix, r.outcome, RunCycles(summaries, r.digests, ticks[i + 1..]));
    }
  }

  /** Continuing a prefix by a run that starts with `o` is continuing the
      prefix extended by `o`. */
  lemma ContinueCons(prefix: seq<CycleOutcome>, o: CycleOutcome, t: Trace)
    ensures Continue(prefix, Trace(t.digests, [o] + t.outcomes)) == Continue(prefix + [o], t)
  {
    assert prefix + ([o] + t.outcomes) == (prefix + [o]) + t.outcomes;
  }

  /** The first tick of a non-empty run is one cycle, after which the run
      ends on a halt or goes on with the remaining ticks. */
  lemma RunCyclesFirst(summaries: seq<Summary>, digests: seq<Digest>, ticks: seq<Externals>)
    requires ticks != []
    ensures var r := CycleStep(summaries, digests, ticks[0]);
      RunCycles(summaries, digests, ticks) ==
        if r.outcome.Halted? then Trace(r.digests, [r.outcome])
        else Continue([r.outcome], RunCycles(summaries, r.digests, ticks[1..]))
  {
  }

  /** The outcomes of a run over `n` ticks: at most one per tick, no halt
      before the last one, and a halt last whenever ticks are left over. */
  ghost predicate StopsOnlyOnHalt(outcomes: seq<CycleOutcome>, n: nat)
  {
    && |outcomes| <= n
    && (forall i :: 0 <= i < |outcomes| - 1 ==> !outcomes[i].Halted?)
    && (|outcomes| < n ==> outcomes != [] && outcomes[|outcomes| - 1].Halted?)
  }

  /** A cycle that did not halt, followed by a run over the remaining
      ticks, is again a run that stops only on a halt. */
  lemma StopsOnlyOnHaltAfterCons(o: CycleOutcome, rest: seq<CycleOutcome>, n: nat)
    requires n > 0 && !o.Halted? && StopsOnlyOnHalt(rest, n - 1)
    ensures StopsOnlyOnHalt([o] + rest, n)
  {
    var outs := [o] + rest;
    forall i | 0 < i < |outs| ensures outs[i] == rest[i - 1] { }
  }

  /** Only a halt stops the run: every tick gets a cycle unless an earlier
      one halted, and no halt happens before the last outcome; failures of
      the summarizer, the insert or the webhook never stop it. */
  lemma {:induction false} RunStopsOnlyOnHalt(summaries: seq<Summary>, digests: seq<Digest>, ticks: seq<Externals>)
    ensures StopsOnlyOnHalt(RunCycles(summaries, digests, ticks).outcomes, |ticks|)
    decreases |ticks|
  {
    if ticks != [] {
      var st := CycleStep(summaries, digests, ticks[0]);
      if !st.outcome.Halted? {
        RunStopsOnlyOnHalt(summaries, st.digests, ticks[1..]);
        var rest := RunCycles(summaries, st.digests, ticks[1..]).outcomes;
        assert RunCycles(summaries, digests, ticks).outcomes == [st.outcome] + rest;
        StopsOnlyOnHaltAfterCons(st.outcome, rest, |ticks|);
      }
    }
  }

  /** Putting one more matching outcome in front keeps halts matched
      with read faults index by index. */
  lemma HaltsMatchAfterCons(o: CycleOutcome, rest: seq<CycleOutcome>, ticks: seq<Externals>)
    requires ticks != [] && (o.Halted? <==> ticks[0].readFault != NoReadFault)
    requires |rest| <= |ticks| - 1
    requires forall i :: 0 <= i < |rest| ==> (rest[i].Halted? <==> ticks[1..][i].readFault != NoReadFault)
    ensures forall i :: 0 <= i < |rest| + 1 ==> (([o] + rest)[i].Halted? <==> ticks[i].readFault != NoReadFault)
  {
    forall i | 0 < i < |rest| + 1 ensures ([o] + rest)[i] == rest[i - 1] && ticks[i] == ticks[1..][i - 1] { }
  }

  /** The i-th outcome of a run is a halt exactly when the i-th tick's
      store read fails. */
  lemma {:induction false} RunHaltsOnReadFault(summaries: seq<Summary>, digests: seq<Digest>, ticks: seq<Externals>)
    ensures var r := RunCycles(summaries, digests, ticks);
      |r.outcomes| <= |ticks| &&
      forall i :: 0 <= i < |r.outcomes| ==> (r.outcomes[i].Halted? <==> ticks[i].readFault != NoReadFault)
    decreases |ticks|
  {
    if ticks != [] {
      var st := CycleStep(summaries, digests, ticks[0]);
      if !st.outcome.Halted? {
        RunHaltsOnReadFault(summaries, st.digests, ticks[1..]);
        var rest := RunCycles(summaries, st.digests, ticks[1..]).outcomes;
        assert RunCycles(summaries, digests, ticks).outcomes == [st.outcome] + rest;
        HaltsMatchAfterCons(st.outcome, rest, ticks);
      }
    }
  }

  /** A bounded run keeps the store invariant. */
  lemma {:induction false} RunPreservesInvariant(summaries: seq<Summary>, digests: seq<Digest>, ticks: seq<Externals>)
    requires StoreInvariant(summaries, digests)
    ensures StoreInvariant(summaries, RunCycles(summaries, digests, ticks).digests)
    decreases |ticks|
  {
    if ticks != [] {
      var st := CycleStep(summaries, digests, ticks[0]);
      CyclePreservesInvariant(summaries, digests, ticks[0]);
      if !st.outcome.Halted? {
        RunPreservesInvariant(summaries, st.digests, ticks[1..]);
      }
    }
  }

  /** The service over its store: the `summaries` and `daily_digests`
      tables. Timer period, pool handle and logging are not modelled. */
  class DailyRecapService {
    var summaries: seq<Summary>
    var digests: seq<Digest>

    constructor (summaries: seq<Summary>, digests: seq<Digest>)
      ensures this.summaries == summaries && this.digests == digests
    {
      this.summaries := summaries;
      this.digests := digests;
    }

    /** The body of one loop iteration: each `continue` of the service is
        an early return here. */
    method RunOnce(x: Externals) returns (o: CycleOutcome)
      modifies this`digests
      ensures summaries == old(summaries)
      ensures digests == CycleStep(summaries, old(digests), x).digests
      ensures o == CycleStep(summaries, old(digests), x).outcome
      ensures old(StoreInvariant(summaries, digests)) ==> StoreInvariant(summaries, digests)
    {
      if StoreInvariant(summaries, digests) {
        CyclePreservesInvariant(summaries, digests, x);
      }
      if x.readFault == WatermarkReadFault {
        return Halted(WatermarkReadFault);
      }
      var watermark := LatestTimestamp(digests);
      if x.readFault == PendingReadFault {
        return Halted(PendingReadFault);
      }
      var pending := Pending(summaries, watermark);
      if pending == [] {
        return NothingToRecap;
      }
      var ids := Ids(pending);
      var input := JoinWithSpace(Texts(pending));
      if x.summarized.Err? {
        return SummarizeFailed(input);
      }
      var text := x.summarized.value;
      if !x.inserted {
        return InsertFailed(input, text);
      }
      var d := Digest(text, ids, x.now);
      digests := digests + [d];
      var notice := Notify(x.webhook, x.send, text);
      return Recorded(input, d, notice);
    }

    /** The service loop over a bounded list of ticks, stopping early only
        when a read failure panics the recap task. */
    method Run(ticks: seq<Externals>) returns (outcomes: seq<CycleOutcome>)
      modifies this`digests
      ensures summaries == old(summaries)
      ensures digests == RunCycles(summaries, old(digests), ticks).digests
      ensures outcomes == RunCycles(summaries, old(digests), ticks).outcomes
    {
      outcomes := [];
      var i := 0;
      while i < |ticks|
        invariant 0 <= i <= |ticks|
        invariant summaries == old(summaries)
        invariant RunCycles(summaries, old(digests), ticks) ==
          Continue(outcomes, RunCycles(summaries, digests, ticks[i..]))
        decreases |ticks| - i
      {
        RunAdvances(summaries, old(digests), ticks, i, outcomes, digests);
        var o := RunOnce(ticks[i]);
        outcomes := outcomes + [o];
        i := i + 1;
        if o.Halted? {
          return;
        }
      }
      assert ticks[i..] == [];
    }
  }
}
