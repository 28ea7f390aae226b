/** What makes chat runs end, and how: read off the steps alone, over every run of the server. */
module RunCauses {
  import opened Options
  import opened RunHistory
  import opened ChatRuns

  // ---- What a step means to a running run ----

  /** The producer finished with one of the four good reasons. */
  predicate Completes(step: Step, id: string) {
    && step.InnerEnd? && step.id == id && step.outcome.StreamCompleted?
    && step.reason in {Some("stop"), Some("length"), Some("content-filter"), Some("tool-calls")}
  }

  /** Somebody cancelled it, or its clock did. */
  predicate Cancels(step: Step, id: string) {
    || (step.AbortHandler? && step.id == id)
    || (step.CancelRequest? && step.id == id)
    || (step.InnerEnd? && step.id == id && step.outcome.StreamAborted? && step.reason != Some("error"))
  }

  /** It broke; a cancelled stream whose client had left does not count. */
  predicate Breaks(step: Step, id: string, clientLeft: bool) {
    || (step.ResponseFailure? && step.id == id)
    || (step.SetupFailure? && step.id == id)
    || (step.ComposedError? && step.id == id && !(clientLeft && step.isCancellation))
    || (step.InnerEnd? && step.id == id && !Completes(step, id) && !Cancels(step, id))
  }

  /** The status a step ends a running run with, if it ends it. */
  function EndBy(step: Step, id: string, timedOut: bool, clientLeft: bool): Option<Status> {
    if Completes(step, id) then Some(Completed)
    else if Cancels(step, id) then Some(if timedOut then Failed else Cancelled)
    else if Breaks(step, id, clientLeft) then Some(Failed)
    else None
  }

  /** What settling a run and the writes that go with it do to the exits. */
  lemma SettlingEnds(w: World, run: string, status: Status, now: int, id: string)
    ensures ExitOf(Settle(w, run, status, now).history, id)
         == if run == id && IsRunning(w.records, id)
            then Some(if status.Cancelled? && w.records[id].timedOut then Failed else status)
            else ExitOf(w.history, id)
  {}

  lemma WritingEndsNothing(w: World, noted: bool, e: Event, id: string)
    requires IsWrite(e)
    ensures ExitOf(Noting(w, noted, e).history, id) == ExitOf(w.history, id)
  {}

  lemma ProducerEnds(w: World, run: string, outcome: Outcome, reason: Option<string>, capture: Capture, now: int,
                     id: string)
    ensures ExitOf(Ended(w, run, outcome, reason, capture, now).history, id)
         == ExitOf(Settle(w, run, SettlementOf(outcome, reason), now).history, id)
  {
    var wins := IsRunning(w.records, run) && SettlementOf(outcome, reason).Completed?;
    var after := Settle(w, run, SettlementOf(outcome, reason), now);
    var kept := Noting(after, wins && capture.Captured?, FinalMessage(run));
    WritingEndsNothing(after, wins && capture.Captured?, FinalMessage(run), id);
    WritingEndsNothing(kept, wins && !capture.CaptureFails? && IsDetached(w.records, run), Finalized(run), id);
  }

  lemma ProducerEndsBy(w: World, step: Step, id: string)
    requires step.InnerEnd? && IsRunning(w.records, id) && ExitOf(w.history, id).None?
    ensures ExitOf(Apply(w, step).history, id) == EndBy(step, id, w.records[id].timedOut, id in w.disconnected)
  {
    var status := SettlementOf(step.outcome, step.reason);
    ProducerEnds(w, step.id, step.outcome, step.reason, step.capture, step.now, id);
    SettlementExactlyWhen(step.outcome, step.reason);
    SettlingEnds(w, step.id, status, step.now, id);
  }

  lemma CancellingEndsBy(w: World, step: Step, y: Limits, id: string)
    requires step.CancelRequest? && IsRunning(w.records, id) && ExitOf(w.history, id).None? && Possible(w, step, y)
    ensures ExitOf(Apply(w, step).history, id) == EndBy(step, id, w.records[id].timedOut, id in w.disconnected)
  {
    if step.id in w.records {
      SweepsOnlyTerminal(w.records, step.swept, step.now, y);
      SettlingEnds(Swept(w, step.swept), step.id, Cancelled, step.now, id);
    }
  }

  /** Whether and how one step ends a running run. */
  lemma RunningRunEnds(w: World, step: Step, y: Limits, id: string)
    requires IsRunning(w.records, id) && ExitOf(w.history, id).None? && Possible(w, step, y)
    ensures ExitOf(Apply(w, step).history, id) == EndBy(step, id, w.records[id].timedOut, id in w.disconnected)
  {
    match step
    case InnerEnd(run, outcome, reason, capture, now) => ProducerEndsBy(w, step, id);
    case CancelRequest(run, now, swept) => CancellingEndsBy(w, step, y, id);
    case _ =>
  }

  /** A run that is not running is not ended again. */
  lemma EndedRunStays(w: World, step: Step, id: string)
    requires !IsRunning(w.records, id)
    ensures ExitOf(Apply(w, step).history, id) == ExitOf(w.history, id)
  {
    match step
    case InnerEnd(run, outcome, reason, capture, now) => ProducerEnds(w, run, outcome, reason, capture, now, id);
    case _ =>
  }

  // ---- Over whole runs ----

  /** What step `k` of a server's life does to a run that is running then. */
  function CauseAt(steps: seq<Step>, id: string, k: nat): Option<Status>
    requires k < |steps|
  {
    var w := After(steps, k);
    if IsRunning(w.records, id) then EndBy(steps[k], id, w.records[id].timedOut, id in w.disconnected) else None
  }

  function ExitAfter(steps: seq<Step>, id: string, n: nat): Option<Status>
    requires n <= |steps|
  {
    ExitOf(After(steps, n).history, id)
  }

  lemma NothingEnded(steps: seq<Step>, id: string)
    ensures ExitAfter(steps, id, 0) == None
  {}

  lemma OneStepEnds(steps: seq<Step>, y: Limits, id: string, k: nat)
    requires IsRun(steps, y) && k < |steps|
    ensures ExitAfter(steps, id, k + 1)
         == if CauseAt(steps, id, k).Some? then CauseAt(steps, id, k) else ExitAfter(steps, id, k)
    ensures CauseAt(steps, id, k).Some? ==> ExitAfter(steps, id, k).None?
  {
    var w := After(steps, k);
    EveryRunIsInOrder(steps, y, k);
    assert IsPossibleAt(steps, y, k);
    if IsRunning(w.records, id) {
      assert IsLive(w.history, id);
      RunningRunEnds(w, steps[k], y, id);
    } else {
      EndedRunStays(w, steps[k], id);
    }
  }

  /** A run has ended with a status exactly when a step of its life ended it so. */
  lemma {:induction false} EndsExactlyWhen(steps: seq<Step>, y: Limits, id: string, n: nat, status: Status)
    requires IsRun(steps, y) && n <= |steps|
    ensures ExitAfter(steps, id, n) == Some(status) <==>
              exists k :: 0 <= k < n && CauseAt(steps, id, k) == Some(status)
  {
    if n == 0 {
      NothingEnded(steps, id);
    } else {
      EndsExactlyWhen(steps, y, id, n - 1, status);
      OneStepEnds(steps, y, id, n - 1);
    }
  }

  /** A run ends completed only by its producer completing with a good reason; cancelled only
      by an abort, a cancel request or an aborted stream. */
  lemma CausesOfEnds(steps: seq<Step>, y: Limits, id: string, n: nat)
    requires IsRun(steps, y) && n <= |steps|
    ensures ExitOf(After(steps, n).history, id) == Some(Completed) ==>
              exists k :: 0 <= k < n && Completes(steps[k], id)
    ensures ExitOf(After(steps, n).history, id) == Some(Cancelled) ==>
              exists k :: 0 <= k < n && Cancels(steps[k], id)
    ensures ExitOf(After(steps, n).history, id) == Some(Failed) ==>
              exists k :: 0 <= k < n && (Cancels(steps[k], id) || Breaks(steps[k], id, false))
  {
    EndsExactlyWhen(steps, y, id, n, Completed);
    EndsExactlyWhen(steps, y, id, n, Cancelled);
    EndsExactlyWhen(steps, y, id, n, Failed);
  }

  // ---- Who has left, who has been refused ----

  /** The client of a run has left exactly when its connection has dropped. */
  lemma {:induction false} LeftExactlyWhen(steps: seq<Step>, id: string, n: nat)
    requires n <= |steps|
    ensures id in After(steps, n).disconnected <==> exists k :: 0 <= k < n && steps[k].Disconnect? && steps[k].id == id
  {
    if n > 0 {
      LeftExactlyWhen(steps, id, n - 1);
    }
  }

  ghost predicate ShutDownBefore(steps: seq<Step>, n: nat)
    requires n <= |steps|
  {
    exists k :: 0 <= k < n && steps[k].AbortAll?
  }

  lemma {:induction false} ShuttingDownExactlyWhen(steps: seq<Step>, n: nat)
    requires n <= |steps|
    ensures After(steps, n).shuttingDown <==> ShutDownBefore(steps, n)
  {
    if n > 0 {
      ShuttingDownExactlyWhen(steps, n - 1);
    }
  }

  predicate Opens(step: Step, id: string, shuttingDown: bool) {
    step.Create? && step.id == id && !shuttingDown
  }

  lemma WritingOpensNothing(w: World, noted: bool, e: Event, id: string)
    requires IsWrite(e)
    ensures Has(Noting(w, noted, e).history, Opened(id)) == Has(w.history, Opened(id))
  {}

  lemma StepOpens(w: World, step: Step, id: string)
    ensures Has(Apply(w, step).history, Opened(id)) == (Has(w.history, Opened(id)) || Opens(step, id, w.shuttingDown))
  {
    match step
    case InnerEnd(run, outcome, reason, capture, now) =>
      var wins := IsRunning(w.records, run) && SettlementOf(outcome, reason).Completed?;
      var after := Settle(w, run, SettlementOf(outcome, reason), now);
      var kept := Noting(after, wins && capture.Captured?, FinalMessage(run));
      WritingOpensNothing(after, wins && capture.Captured?, FinalMessage(run), id);
      WritingOpensNothing(kept, wins && !capture.CaptureFails? && IsDetached(w.records, run), Finalized(run), id);
    case _ =>
  }

  /** A run is opened by being created before shutdown. */
  lemma {:induction false} OpenedExactlyWhen(steps: seq<Step>, id: string, n: nat)
    requires n <= |steps|
    ensures Has(After(steps, n).history, Opened(id)) <==> exists k :: 0 <= k < n && OpensAt(steps, id, k)
  {
    if n > 0 {
      OpenedExactlyWhen(steps, id, n - 1);
      ShuttingDownExactlyWhen(steps, n - 1);
      StepOpens(After(steps, n - 1), steps[n - 1], id);
      assert OpensAt(steps, id, n - 1) == Opens(steps[n - 1], id, After(steps, n - 1).shuttingDown);
    }
  }

  ghost predicate OpensAt(steps: seq<Step>, id: string, k: nat)
    requires k < |steps|
  {
    steps[k].Create? && steps[k].id == id && !ShutDownBefore(steps, k)
  }

  // ---- The wall clock ----

  ghost predicate RangBetween(steps: seq<Step>, id: string, c: nat, n: nat)
    requires n <= |steps|
  {
    exists k :: c < k < n && steps[k].WallClock? && steps[k].id == id
  }

  ghost predicate ShutDownBetween(steps: seq<Step>, c: nat, n: nat)
    requires n <= |steps|
  {
    exists k :: c < k < n && steps[k].AbortAll?
  }

  predicate Rings(step: Step, id: string) {
    step.WallClock? && step.id == id
  }

  /** How one step moves the clock of a run that it leaves running. */
  lemma ClockMoves(w: World, step: Step, y: Limits, id: string)
    requires IsRunning(w.records, id) && IsRunning(Apply(w, step).records, id) && Possible(w, step, y)
    ensures var r, after := w.records[id], Apply(w, step).records[id];
            && after.armed == (r.armed && !step.AbortAll? && !Rings(step, id))
            && after.timedOut == (!step.AbortAll? && (r.timedOut || (r.armed && Rings(step, id))))
  {
    match step
    case InnerEnd(run, outcome, reason, capture, now) =>
      ProducerChanges(w, step);
      SettlementExactlyWhen(outcome, reason);
    case _ =>
  }

  /** The durable writes about a run leave its record alone. */
  lemma ProducerChanges(w: World, step: Step)
    requires step.InnerEnd?
    ensures Apply(w, step).records == Settle(w, step.id, SettlementOf(step.outcome, step.reason), step.now).records
  {}

  /** The clock of a run that was created by step `c`, as it stands after `n` steps. */
  ghost predicate ClockIs(steps: seq<Step>, id: string, c: nat, n: nat, r: Record)
    requires n <= |steps|
  {
    && (r.timedOut <==> RangBetween(steps, id, c, n) && !ShutDownBetween(steps, c, n))
    && (r.armed <==> !RangBetween(steps, id, c, n) && !ShutDownBetween(steps, c, n))
  }

  lemma ClockStepsOn(steps: seq<Step>, id: string, c: nat, n: nat, before: Record, r: Record)
    requires c < n < |steps| && ClockIs(steps, id, c, n, before)
    requires r.armed == (before.armed && !steps[n].AbortAll? && !Rings(steps[n], id))
    requires r.timedOut == (!steps[n].AbortAll? && (before.timedOut || (before.armed && Rings(steps[n], id))))
    ensures ClockIs(steps, id, c, n + 1, r)
  {
    assert RangBetween(steps, id, c, n + 1) <==> RangBetween(steps, id, c, n) || Rings(steps[n], id);
    assert ShutDownBetween(steps, c, n + 1) <==> ShutDownBetween(steps, c, n) || steps[n].AbortAll?;
  }

  lemma ClockMovesOn(steps: seq<Step>, y: Limits, id: string, c: nat, n: nat)
    requires IsRun(steps, y) && c < n < |steps|
    requires IsRunning(After(steps, n).records, id) && ClockIs(steps, id, c, n, After(steps, n).records[id])
    requires IsRunning(After(steps, n + 1).records, id)
    ensures ClockIs(steps, id, c, n + 1, After(steps, n + 1).records[id])
  {
    assert IsPossibleAt(steps, y, n);
    ClockMoves(After(steps, n), steps[n], y, id);
    ClockStepsOn(steps, id, c, n, After(steps, n).records[id], After(steps, n + 1).records[id]);
  }

  lemma ClockStarts(steps: seq<Step>, id: string, c: nat)
    requires c < |steps| && !IsRunning(After(steps, c).records, id) && IsRunning(After(steps, c + 1).records, id)
    ensures steps[c].Create? && steps[c].id == id && !ShutDownBefore(steps, c)
    ensures ClockIs(steps, id, c, c + 1, After(steps, c + 1).records[id])
  {
    StartsByCreation(After(steps, c), steps[c], id);
    ShuttingDownExactlyWhen(steps, c);
  }

  /** A running run is marked timed out exactly when its clock has rung since it was created
      and no shutdown came since; its clock ticks while neither happened. */
  lemma {:induction false} ClockExactlyWhen(steps: seq<Step>, y: Limits, id: string, n: nat) returns (c: nat)
    requires IsRun(steps, y) && n <= |steps| && IsRunning(After(steps, n).records, id)
    ensures c < n && steps[c].Create? && steps[c].id == id && !ShutDownBefore(steps, c)
    ensures ClockIs(steps, id, c, n, After(steps, n).records[id])
  {
    if IsRunning(After(steps, n - 1).records, id) {
      c := ClockExactlyWhen(steps, y, id, n - 1);
      ClockMovesOn(steps, y, id, c, n - 1);
    } else {
      c := n - 1;
      ClockStarts(steps, id, c);
    }
  }

  lemma StartsByCreation(w: World, step: Step, id: string)
    requires !IsRunning(w.records, id) && IsRunning(Apply(w, step).records, id)
    ensures step.Create? && step.id == id && !w.shuttingDown
    ensures Apply(w, step).records[id].armed && !Apply(w, step).records[id].timedOut
  {}

  lemma StepStopsClocks(w: World, step: Step)
    requires forall id :: id in w.records && w.records[id].armed ==> w.records[id].status.Running?
    ensures forall id :: id in Apply(w, step).records && Apply(w, step).records[id].armed ==>
              Apply(w, step).records[id].status.Running?
  {
    if step.InnerEnd? {
      ProducerChanges(w, step);
    }
  }

  /** No clock ticks for a run that has ended. */
  lemma {:induction false} EndedRunsHaveNoClock(steps: seq<Step>, n: nat)
    requires n <= |steps|
    ensures forall id :: id in After(steps, n).records && After(steps, n).records[id].armed ==>
              After(steps, n).records[id].status.Running?
  {
    if n > 0 {
      EndedRunsHaveNoClock(steps, n - 1);
      StepStopsClocks(After(steps, n - 1), steps[n - 1]);
    }
  }

  /** A record comes into being only by creating its run: running, with its clock ticking and
      watched, or during shutdown cancelled without a clock. */
  lemma NewRecordIs(w: World, step: Step, id: string)
    requires id !in w.records && id in Apply(w, step).records
    ensures step.Create? && step.id == id
    ensures var status := if w.shuttingDown then Cancelled else Running;
            Apply(w, step).records[id] == Record(status, false, !w.shuttingDown, None, step.now, w.created)
  {}

  // ---- Who watches ----

  /** Nobody watches a run after its connection was lost while it ran, until somebody resumes it. */
  lemma WatchMoves(w: World, step: Step, y: Limits, id: string)
    requires id in w.records && id in Apply(w, step).records && Possible(w, step, y)
    ensures IsDetached(Apply(w, step).records, id) <==>
              if (step.Disconnect? || step.ReadError?) && step.id == id
              then IsDetached(w.records, id) || IsRunning(w.records, id)
              else IsDetached(w.records, id) && !(step.Resume? && step.id == id)
  {
    if step.InnerEnd? {
      ProducerChanges(w, step);
    }
  }

  /** Whatever changes a record stamps it with the time of the step. */
  lemma ChangesAreStamped(w: World, step: Step, y: Limits, id: string)
    requires id in w.records && id in Apply(w, step).records && Possible(w, step, y)
    ensures Apply(w, step).records[id] == w.records[id] || Apply(w, step).records[id].updatedAt == step.now
    ensures Apply(w, step).records[id].detachedAt in {None, Some(step.now), w.records[id].detachedAt}
  {
    if step.InnerEnd? {
      ProducerChanges(w, step);
    }
  }

  // ---- What is written about a completed run ----

  predicate Captures(step: Step, id: string) {
    Completes(step, id) && step.capture.Captured?
  }

  predicate Finalizes(step: Step, id: string, detached: bool) {
    Completes(step, id) && detached && !step.capture.CaptureFails?
  }

  lemma NotingHas(w: World, noted: bool, e: Event, wanted: Event)
    ensures Has(Noting(w, noted, e).history, wanted) == (Has(w.history, wanted) || (noted && e == wanted))
  {}

  lemma SettlingHas(w: World, run: string, status: Status, now: int, wanted: Event)
    requires wanted.FinalMessage? || wanted.Finalized?
    ensures Has(Settle(w, run, status, now).history, wanted) == Has(w.history, wanted)
  {}

  /** What one step writes about the reply of a run. */
  lemma StepWrites(w: World, step: Step, id: string)
    ensures Has(Apply(w, step).history, FinalMessage(id))
         == (Has(w.history, FinalMessage(id)) || (IsRunning(w.records, id) && Captures(step, id)))
    ensures Has(Apply(w, step).history, Finalized(id))
         == (Has(w.history, Finalized(id)) ||
             (IsRunning(w.records, id) && Finalizes(step, id, IsDetached(w.records, id))))
  {
    match step
    case InnerEnd(run, outcome, reason, capture, now) => ProducerWrites(w, step, id);
    case _ =>
  }

  lemma ProducerWrites(w: World, step: Step, id: string)
    requires step.InnerEnd?
    ensures Has(Apply(w, step).history, FinalMessage(id))
         == (Has(w.history, FinalMessage(id)) || (IsRunning(w.records, id) && Captures(step, id)))
    ensures Has(Apply(w, step).history, Finalized(id))
         == (Has(w.history, Finalized(id)) ||
             (IsRunning(w.records, id) && Finalizes(step, id, IsDetached(w.records, id))))
  {
    var run, status := step.id, SettlementOf(step.outcome, step.reason);
    var wins := IsRunning(w.records, run) && status.Completed?;
    var captured := wins && step.capture.Captured?;
    var finalized := wins && !step.capture.CaptureFails? && IsDetached(w.records, run);
    var after := Settle(w, run, status, step.now);
    var kept := Noting(after, captured, FinalMessage(run));
    SettlementExactlyWhen(step.outcome, step.reason);
    forall wanted | wanted in {FinalMessage(id), Finalized(id)}
      ensures Has(Noting(kept, finalized, Finalized(run)).history, wanted)
           == (Has(w.history, wanted) || (captured && FinalMessage(run) == wanted)
               || (finalized && Finalized(run) == wanted))
    {
      SettlingHas(w, run, status, step.now, wanted);
      NotingHas(after, captured, FinalMessage(run), wanted);
      NotingHas(kept, finalized, Finalized(run), wanted);
    }
  }

  predicate CapturesAt(steps: seq<Step>, id: string, k: nat)
    requires k < |steps|
  {
    IsRunning(After(steps, k).records, id) && Captures(steps[k], id)
  }

  predicate FinalizesAt(steps: seq<Step>, id: string, k: nat)
    requires k < |steps|
  {
    && IsRunning(After(steps, k).records, id)
    && Finalizes(steps[k], id, IsDetached(After(steps, k).records, id))
  }

  /** A reply is captured exactly when the run's own completion captured it. */
  lemma {:induction false} CapturedExactlyWhen(steps: seq<Step>, id: string, n: nat)
    requires n <= |steps|
    ensures Has(After(steps, n).history, FinalMessage(id)) <==> exists k :: 0 <= k < n && CapturesAt(steps, id, k)
  {
    if n > 0 {
      CapturedExactlyWhen(steps, id, n - 1);
      StepWrites(After(steps, n - 1), steps[n - 1], id);
      assert CapturesAt(steps, id, n - 1) ==
             (IsRunning(After(steps, n - 1).records, id) && Captures(steps[n - 1], id));
    }
  }

  /** The history is finalized exactly when nobody watched the run complete and the capture
      did not fail. */
  lemma {:induction false} FinalizedExactlyWhen(steps: seq<Step>, id: string, n: nat)
    requires n <= |steps|
    ensures Has(After(steps, n).history, Finalized(id)) <==> exists k :: 0 <= k < n && FinalizesAt(steps, id, k)
  {
    if n > 0 {
      FinalizedExactlyWhen(steps, id, n - 1);
      StepWrites(After(steps, n - 1), steps[n - 1], id);
      assert FinalizesAt(steps, id, n - 1) ==
             (&& IsRunning(After(steps, n - 1).records, id)
              && Finalizes(steps[n - 1], id, IsDetached(After(steps, n - 1).records, id)));
    }
  }

  // ---- What a sweep removes, and when ----

  /** Creating a run, cancelling one that is known and resuming one sweep the registry. */
  predicate SweepsNow(step: Step, known: bool) {
    step.Create? || step.Resume? || (step.CancelRequest? && known)
  }

  /** Records are forgotten by these sweeps and in no other way. */
  lemma ForgottenExactlyWhen(w: World, step: Step, y: Limits, id: string)
    requires id in w.records && Possible(w, step, y)
    ensures id !in Apply(w, step).records <==>
              SweepsNow(step, step.CancelRequest? && step.id in w.records) && id in step.swept
  {
    if step.InnerEnd? {
      ProducerChanges(w, step);
    }
  }

  /** A registry within its cap loses exactly what ended too long ago. Above it, only the
      longest untouched of what has ended goes too, and no more than needed. */
  lemma SweepExactlyWhen(records: map<string, Record>, swept: set<string>, now: int, y: Limits)
    requires Sweeps(records, swept, now, y)
    ensures forall id :: id in swept ==> id in records && !records[id].status.Running?
    ensures forall id ::
              id in records && !records[id].status.Running? && now - records[id].updatedAt > y.ttl ==> id in swept
    ensures |records| <= y.maxRecords ==> forall id :: id in swept ==> now - records[id].updatedAt > y.ttl
  {
    var expired := Expired(records, now, y.ttl);
    SweepsOnlyTerminal(records, swept, now, y);
    RemovalSize(records, expired);
  }

  lemma OldestGoFirst(records: map<string, Record>, swept: set<string>, now: int, y: Limits, v: string, t: string)
    requires Sweeps(records, swept, now, y)
    requires v in swept && v in records && now - records[v].updatedAt <= y.ttl
    requires t in records && t !in swept && !records[t].status.Running?
    ensures records[v].updatedAt <= records[t].updatedAt && |records - swept| == y.maxRecords
    ensures records[v].updatedAt == records[t].updatedAt ==> records[v].order <= records[t].order
  {
    var expired := Expired(records, now, y.ttl);
    var left := records - expired;
    SweepsOnlyTerminal(records, swept, now, y);
    assert v in swept - expired && t in Terminal(left) - (swept - expired);
    RemovalSize(left, swept - expired);
    assert left - (swept - expired) == records - swept;
  }
}
