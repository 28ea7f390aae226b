/** Chat runs: the registry, and the steps by which its many actors race to end a run. */
module ChatRuns {
  import opened Options
  import opened RunHistory

  /** A registry record. `armed` says that its wall clock is still ticking, `order` is its
      place in the order of insertion. */
  datatype Record =
    Record(status: Status, timedOut: bool, armed: bool, detachedAt: Option<int>, updatedAt: int, order: nat)

  datatype World = World(
    records: map<string, Record>, created: nat, shuttingDown: bool, disconnected: set<string>, history: History)

  datatype Limits = Limits(ttl: int, maxRecords: nat)

  predicate IsRunning(records: map<string, Record>, id: string) {
    id in records && records[id].status.Running?
  }

  /** Registry and history tell the same story: exactly the live runs are running, their
      timeout marks are right, and terminal records show the exit (runs refused during
      shutdown never lived). */
  ghost predicate Agrees(records: map<string, Record>, h: History) {
    && (forall id :: IsRunning(records, id) <==> IsLive(h, id))
    && (forall id :: IsRunning(records, id) ==> (records[id].timedOut <==> TimeoutPending(h, id)))
    && (forall id :: id in records && !IsRunning(records, id) ==>
          ExitOf(h, id) == Some(records[id].status) || (!Has(h, Opened(id)) && records[id].status.Cancelled?))
  }

  /** Every record has its own place in the order of insertion. */
  ghost predicate Ordered(records: map<string, Record>, created: nat) {
    && (forall id :: id in records ==> records[id].order < created)
    && (forall a, b :: a in records && b in records && a != b ==> records[a].order != records[b].order)
  }

  ghost predicate Valid(w: World) {
    InOrder(w.history) && Agrees(w.records, w.history)
  }

  // ---- Steps of the registry ----

  function Settled(records: map<string, Record>, id: string, status: Status, now: int): map<string, Record>
    requires id in records
  {
    records[id := records[id].(status := status, armed := false, updatedAt := now)]
  }

  /** The one way out of `Running`. A cancellation of a timed-out run counts as a failure. */
  function Effective(records: map<string, Record>, id: string, status: Status): Status {
    if status.Cancelled? && id in records && records[id].timedOut then Failed else status
  }

  lemma ExitingAgrees(records: map<string, Record>, h: History, id: string, status: Status, now: int)
    requires InOrder(h) && Agrees(records, h) && IsRunning(records, id) && !status.Running?
    requires status.Cancelled? ==> !records[id].timedOut
    ensures InOrder(Then(h, Exit(id, status))) && Agrees(Settled(records, id, status, now), Then(h, Exit(id, status)))
  {
    var next, after := Then(h, Exit(id, status)), Settled(records, id, status, now);
    assert IsLive(h, id);
    forall other
      ensures IsRunning(after, other) <==> IsLive(next, other)
      ensures IsRunning(after, other) ==> (after[other].timedOut <==> TimeoutPending(next, other))
    {
      assert IsRunning(records, other) <==> IsLive(h, other);
    }
  }

  lemma SweepingAgrees(records: map<string, Record>, h: History, swept: set<string>)
    requires Agrees(records, h) && forall id :: id in swept ==> !IsRunning(records, id)
    ensures Agrees(records - swept, h)
  {
    forall id ensures IsRunning(records - swept, id) <==> IsRunning(records, id) {}
  }

  /** An event that neither opens nor ends a run and times none out. */
  predicate IsWrite(e: Event) {
    e.Verdict? || e.FinalMessage? || e.Finalized?
  }

  lemma WritingAgrees(records: map<string, Record>, h: History, e: Event)
    requires Agrees(records, h) && IsWrite(e)
    ensures Agrees(records, Then(h, e))
  {
    forall id ensures IsLive(Then(h, e), id) <==> IsLive(h, id) {}
  }

  /** Changing when a run was touched or who watches it. */
  lemma TouchingAgrees(records: map<string, Record>, h: History, id: string, r: Record)
    requires Agrees(records, h) && id in records
    requires r.status == records[id].status && r.timedOut == records[id].timedOut
    ensures Agrees(records[id := r], h)
  {
    forall other ensures IsRunning(records[id := r], other) <==> IsRunning(records, other) {}
  }

  /** The wall clock only marks; ending the run is left to the abort it triggers. */
  function TimedOutAt(records: map<string, Record>, id: string, now: int): map<string, Record>
    requires id in records
  {
    records[id := records[id].(timedOut := true, armed := false, updatedAt := now)]
  }

  lemma TimingOutAgrees(records: map<string, Record>, h: History, id: string, now: int)
    requires InOrder(h) && Agrees(records, h) && IsRunning(records, id)
    ensures InOrder(Then(h, TimedOut(id))) && Agrees(TimedOutAt(records, id, now), Then(h, TimedOut(id)))
  {
    var next, after := Then(h, TimedOut(id)), TimedOutAt(records, id, now);
    assert IsLive(h, id);
    forall other
      ensures IsRunning(after, other) <==> IsLive(next, other)
      ensures IsRunning(after, other) ==> (after[other].timedOut <==> TimeoutPending(next, other))
    {
      assert IsRunning(records, other) <==> IsLive(h, other);
    }
  }

  function Fresh(status: Status, now: int, order: nat): Record {
    Record(status, false, status.Running?, None, now, order)
  }

  lemma OpeningAgrees(records: map<string, Record>, h: History, id: string, now: int, order: nat)
    requires InOrder(h) && Agrees(records, h) && id !in records && !Has(h, Opened(id)) && ExitOf(h, id).None?
    requires !TimeoutPending(h, id)
    ensures InOrder(Then(h, Opened(id))) && Agrees(records[id := Fresh(Running, now, order)], Then(h, Opened(id)))
  {
    var next, after := Then(h, Opened(id)), records[id := Fresh(Running, now, order)];
    forall other
      ensures IsRunning(after, other) <==> IsLive(next, other)
      ensures IsRunning(after, other) ==> (after[other].timedOut <==> TimeoutPending(next, other))
    {
      assert IsRunning(records, other) <==> IsLive(h, other);
    }
  }

  lemma RefusingAgrees(records: map<string, Record>, h: History, id: string, r: Record)
    requires Agrees(records, h) && id !in records && !Has(h, Opened(id)) && r.status.Cancelled?
    ensures Agrees(records[id := r], h)
  {
    forall other ensures IsRunning(records[id := r], other) <==> IsRunning(records, other) {}
  }

  /** Shutdown clears the timeout marks of the running runs and stops their clocks. */
  function Aborted(r: Record, now: int): Record {
    if r.status.Running? then r.(timedOut := false, armed := false, updatedAt := now) else r
  }

  lemma AbortingAgrees(records: map<string, Record>, h: History, now: int)
    requires Agrees(records, h)
    ensures Agrees(map id | id in records :: Aborted(records[id], now), Then(h, AbortedAll))
  {
    var after := map id | id in records :: Aborted(records[id], now);
    forall other ensures IsRunning(after, other) <==> IsLive(Then(h, AbortedAll), other) {
      assert IsRunning(records, other) <==> IsLive(h, other);
    }
  }

  /** An id is used once: whoever was never opened left no trace. */
  lemma {:induction false} UnopenedHasNoTrace(h: History, id: string)
    requires InOrder(h) && !Has(h, Opened(id))
    ensures ExitOf(h, id).None? && !TimeoutPending(h, id)
  {
    if h.Then? {
      UnopenedHasNoTrace(h.before, id);
    }
  }

  // ---- What a sweep may remove ----

  function RunningOf(records: map<string, Record>, among: set<string>): set<string>
    requires among <= records.Keys
  {
    set id | id in among && records[id].status.Running?
  }

  function Terminal(records: map<string, Record>): set<string> {
    set id | id in records && !records[id].status.Running?
  }

  function Expired(records: map<string, Record>, now: int, ttl: int): set<string> {
    set id | id in records && !records[id].status.Running? && now - records[id].updatedAt > ttl
  }

  /** The order of dropping: longest untouched first, then in order of insertion. */
  predicate NotYounger(a: Record, b: Record) {
    a.updatedAt < b.updatedAt || (a.updatedAt == b.updatedAt && a.order <= b.order)
  }

  /** `dropped` brings the registry back to its cap, oldest terminal records first, or as
      near as the running records allow. */
  ghost predicate DropsToCap(records: map<string, Record>, dropped: set<string>, cap: nat) {
    && dropped <= Terminal(records)
    && (forall v, t :: v in dropped && t in Terminal(records) - dropped ==> NotYounger(records[v], records[t]))
    && (if |records| <= cap then dropped == {}
        else if |Terminal(records)| < |records| - cap then dropped == Terminal(records)
        else |dropped| == |records| - cap)
  }

  ghost predicate Sweeps(records: map<string, Record>, swept: set<string>, now: int, y: Limits) {
    var expired := Expired(records, now, y.ttl);
    expired <= swept && DropsToCap(records - expired, swept - expired, y.maxRecords)
  }

  lemma SweepsOnlyTerminal(records: map<string, Record>, swept: set<string>, now: int, y: Limits)
    requires Sweeps(records, swept, now, y)
    ensures swept <= Terminal(records)
  {
    var expired := Expired(records, now, y.ttl);
    forall id | id in swept ensures id in Terminal(records) {
      if id !in expired {
        assert id in swept - expired && id in Terminal(records - expired);
      }
    }
  }

  lemma RemovalSize<K, V>(m: map<K, V>, gone: set<K>)
    requires gone <= m.Keys
    ensures |m - gone| == |m| - |gone|
  {
    assert (m - gone).Keys == m.Keys - gone;
  }

  /** One more record has been looked at by a loop that removes the records in `gone`. */
  lemma OneMoreChecked<K, V>(m: map<K, V>, gone: set<K>, todo: set<K>, k: K)
    requires k in todo
    ensures m - (gone - (todo - {k})) == if k in gone then m - (gone - todo) - {k} else m - (gone - todo)
    ensures |gone - (todo - {k})| == |gone - todo| + (if k in gone then 1 else 0)
  {
    assert gone - (todo - {k}) == if k in gone then (gone - todo) + {k} else gone - todo;
  }

  lemma DroppingReachesCap(records: map<string, Record>, dropped: set<string>, cap: nat)
    requires DropsToCap(records, dropped, cap)
    ensures |records - dropped| <= cap || Terminal(records - dropped) == {}
  {
    RemovalSize(records, dropped);
    if dropped == Terminal(records) {
      assert Terminal(records - dropped) == {};
    }
  }

  /** After a sweep the registry is within its cap, or only running records are left, and
      no running record is lost. */
  lemma SweptRegistryIsBounded(records: map<string, Record>, swept: set<string>, now: int, y: Limits)
    requires Sweeps(records, swept, now, y)
    ensures |records - swept| <= y.maxRecords || Terminal(records - swept) == {}
    ensures forall id :: IsRunning(records, id) ==> IsRunning(records - swept, id)
  {
    var expired := Expired(records, now, y.ttl);
    DroppingReachesCap(records - expired, swept - expired, y.maxRecords);
    assert records - expired - (swept - expired) == records - swept;
    SweepsOnlyTerminal(records, swept, now, y);
  }

  lemma SameSizeDiffersBothWays<K>(a: set<K>, b: set<K>)
    requires |a| == |b|
    ensures a == b || (a - b != {} && b - a != {})
  {
    assert a == (a * b) + (a - b) && b == (a * b) + (b - a);
  }

  lemma OrderIsStrict(records: map<string, Record>, created: nat, u: string, v: string)
    requires Ordered(records, created) && u in records && v in records && u != v
    ensures !(NotYounger(records[u], records[v]) && NotYounger(records[v], records[u]))
  {}

  lemma DropsDoNotCross(records: map<string, Record>, created: nat, a: set<string>, b: set<string>, cap: nat,
                        u: string, v: string)
    requires Ordered(records, created) && DropsToCap(records, a, cap) && DropsToCap(records, b, cap)
    ensures !(u in a - b && v in b - a)
  {
    if u in records && v in records && u != v {
      OrderIsStrict(records, created, u, v);
    }
  }

  /** The rules leave no choice: what a sweep removes is determined. */
  lemma DroppingIsDetermined(records: map<string, Record>, created: nat, a: set<string>, b: set<string>, cap: nat)
    requires Ordered(records, created) && DropsToCap(records, a, cap) && DropsToCap(records, b, cap)
    ensures a == b
  {
    assert |a| == |b|;
    SameSizeDiffersBothWays(a, b);
    forall u, v ensures !(u in a - b && v in b - a) {
      DropsDoNotCross(records, created, a, b, cap, u, v);
    }
  }

  lemma SweepIsDetermined(records: map<string, Record>, created: nat, a: set<string>, b: set<string>, now: int,
                          y: Limits)
    requires Ordered(records, created) && Sweeps(records, a, now, y) && Sweeps(records, b, now, y)
    ensures a == b
  {
    var expired := Expired(records, now, y.ttl);
    DroppingIsDetermined(records - expired, created, a - expired, b - expired, y.maxRecords);
    assert a == expired + (a - expired) && b == expired + (b - expired);
  }

  // ---- The steps of all actors ----

  /** How the converted stream ended. */
  datatype Outcome = StreamCompleted | StreamFailed | StreamAborted | StreamUnknown

  predicate IsSuccess(reason: Option<string>) {
    reason.Some? && reason.value in {"stop", "length", "content-filter", "tool-calls"}
  }

  function SettlementOf(outcome: Outcome, reason: Option<string>): Status {
    if reason == Some("error") || !IsSuccess(reason) then
      if outcome.StreamAborted? && reason != Some("error") then Cancelled else Failed
    else if outcome.StreamCompleted? then Completed
    else if outcome.StreamAborted? then Cancelled
    else Failed
  }

  /** Completed needs both a good finish reason and a completed stream; an abort counts
      unless the reason is an error; everything else failed. */
  lemma SettlementExactlyWhen(outcome: Outcome, reason: Option<string>)
    ensures SettlementOf(outcome, reason) == Completed <==> outcome.StreamCompleted? && IsSuccess(reason)
    ensures SettlementOf(outcome, reason) == Cancelled <==> outcome.StreamAborted? && reason != Some("error")
    ensures SettlementOf(outcome, reason) != Running
  {}

  /** What became of capturing a completed run's reply: it cannot be persisted, it was, or
      the write failed. */
  datatype Capture = Unusable | Captured | CaptureFails

  datatype Step =
    | Create(id: string, now: int, swept: set<string>)
    | WallClock(id: string, now: int)
    | AbortHandler(id: string, now: int)
    | InnerEnd(id: string, outcome: Outcome, reason: Option<string>, capture: Capture, now: int)
    | ComposedError(id: string, isCancellation: bool, now: int)
    | ResponseFailure(id: string, now: int)
    | SetupFailure(id: string, now: int)
    | CancelRequest(id: string, now: int, swept: set<string>)
    | Disconnect(id: string, now: int)
    | ReadError(id: string, now: int)
    | Resume(id: string, now: int, swept: set<string>)
    | AbortAll(now: int)

  /** Ends a run that is still running and writes its verdict; otherwise does nothing. */
  function Settle(w: World, id: string, status: Status, now: int): World {
    if IsRunning(w.records, id) then
      var s := Effective(w.records, id, status);
      w.(records := Settled(w.records, id, s, now), history := Then(Then(w.history, Exit(id, s)), Verdict(id, s)))
    else w
  }

  function Noting(w: World, noted: bool, e: Event): World {
    if noted then w.(history := Then(w.history, e)) else w
  }

  predicate IsDetached(records: map<string, Record>, id: string) {
    id in records && records[id].detachedAt.Some?
  }

  /** The producer ended. A completed run has its reply captured, and its history written
      for it when nobody was attached to do so; a failing capture prevents the latter. */
  function Ended(w: World, id: string, outcome: Outcome, reason: Option<string>, capture: Capture, now: int): World {
    var wins := IsRunning(w.records, id) && SettlementOf(outcome, reason).Completed?;
    var after := Settle(w, id, SettlementOf(outcome, reason), now);
    var kept := Noting(after, wins && capture.Captured?, FinalMessage(id));
    Noting(kept, wins && !capture.CaptureFails? && IsDetached(w.records, id), Finalized(id))
  }

  function Detached(w: World, id: string, now: int): World {
    if IsRunning(w.records, id) && !IsDetached(w.records, id) then
      w.(records := w.records[id := w.records[id].(detachedAt := Some(now), updatedAt := now)])
    else w
  }

  function Attached(w: World, id: string, now: int): World {
    if IsDetached(w.records, id) then
      w.(records := w.records[id := w.records[id].(detachedAt := None, updatedAt := now)])
    else w
  }

  function Swept(w: World, swept: set<string>): World {
    w.(records := w.records - swept)
  }

  function Created(w: World, id: string, now: int): World {
    if w.shuttingDown then w.(records := w.records[id := Fresh(Cancelled, now, w.created)], created := w.created + 1)
    else w.(records := w.records[id := Fresh(Running, now, w.created)], created := w.created + 1,
            history := Then(w.history, Opened(id)))
  }

  function TimerFired(w: World, id: string, now: int): World {
    if IsRunning(w.records, id) && w.records[id].armed then
      w.(records := TimedOutAt(w.records, id, now), history := Then(w.history, TimedOut(id)))
    else w
  }

  function SetupFailed(w: World, id: string, now: int): World {
    if IsRunning(w.records, id) then
      w.(records := Settled(w.records, id, Failed, now), history := Then(w.history, Exit(id, Failed)))
    else w
  }

  function AllAborted(w: World, now: int): World {
    w.(records := map id | id in w.records :: Aborted(w.records[id], now), shuttingDown := true,
       history := Then(w.history, AbortedAll))
  }

  /** Shutdown half done. */
  function AbortedAmong(records: map<string, Record>, done: set<string>, now: int): map<string, Record> {
    map id | id in records :: if id in done then Aborted(records[id], now) else records[id]
  }

  lemma OneMoreAborted(records: map<string, Record>, done: set<string>, id: string, now: int)
    requires done <= records.Keys && id in records && id !in done
    ensures AbortedAmong(records, done + {id}, now) == AbortedAmong(records, done, now)[id := Aborted(records[id], now)]
    ensures |RunningOf(records, done + {id})| ==
            |RunningOf(records, done)| + (if records[id].status.Running? then 1 else 0)
  {
    assert RunningOf(records, done + {id}) ==
           if records[id].status.Running? then RunningOf(records, done) + {id} else RunningOf(records, done);
  }

  lemma AbortingDone(w: World, now: int)
    ensures AbortedAmong(w.records, w.records.Keys, now) == AllAborted(w, now).records
    ensures AbortedAmong(w.records, {}, now) == w.records
  {}

  function Apply(w: World, step: Step): World {
    match step
    case Create(id, now, swept) => Created(Swept(w, swept), id, now)
    case WallClock(id, now) => TimerFired(w, id, now)
    case AbortHandler(id, now) => Settle(w, id, Cancelled, now)
    case InnerEnd(id, outcome, reason, capture, now) => Ended(w, id, outcome, reason, capture, now)
    case ComposedError(id, isCancellation, now) =>
      if id in w.disconnected && isCancellation then w else Settle(w, id, Failed, now)
    case ResponseFailure(id, now) => Settle(w, id, Failed, now)
    case SetupFailure(id, now) => SetupFailed(w, id, now)
    case CancelRequest(id, now, swept) => if id !in w.records then w else Settle(Swept(w, swept), id, Cancelled, now)
    case Disconnect(id, now) => Detached(w.(disconnected := w.disconnected + {id}), id, now)
    case ReadError(id, now) => Detached(w, id, now)
    case Resume(id, now, swept) => Swept(Attached(w, id, now), swept)
    case AbortAll(now) => AllAborted(w, now)
  }

  /** Ids are never reused, and sweeps remove what the registry's rules say. */
  ghost predicate Possible(w: World, step: Step, y: Limits) {
    match step
    case Create(id, now, swept) =>
      id !in w.records && !Has(w.history, Opened(id)) && Sweeps(w.records, swept, now, y)
    case CancelRequest(id, now, swept) => id in w.records ==> Sweeps(w.records, swept, now, y)
    case Resume(id, now, swept) => Sweeps(Attached(w, id, now).records, swept, now, y)
    case _ => true
  }

  // ---- Every step keeps the invariant ----

  lemma SettlingKeeps(w: World, id: string, status: Status, now: int)
    requires Valid(w) && !status.Running?
    ensures Valid(Settle(w, id, status, now))
  {
    if IsRunning(w.records, id) {
      var s := Effective(w.records, id, status);
      ExitingAgrees(w.records, w.history, id, s, now);
      WritingAgrees(Settled(w.records, id, s, now), Then(w.history, Exit(id, s)), Verdict(id, s));
    }
  }

  lemma NotingKeeps(w: World, noted: bool, e: Event)
    requires Valid(w) && IsWrite(e) && (noted ==> MayFollow(w.history, e))
    ensures Valid(Noting(w, noted, e))
  {
    WritingAgrees(w.records, w.history, e);
  }

  lemma EndingKeeps(w: World, id: string, outcome: Outcome, reason: Option<string>, capture: Capture, now: int)
    requires Valid(w)
    ensures Valid(Ended(w, id, outcome, reason, capture, now))
  {
    var wins := IsRunning(w.records, id) && SettlementOf(outcome, reason).Completed?;
    var after := Settle(w, id, SettlementOf(outcome, reason), now);
    SettlingKeeps(w, id, SettlementOf(outcome, reason), now);
    var kept := Noting(after, wins && capture.Captured?, FinalMessage(id));
    NotingKeeps(after, wins && capture.Captured?, FinalMessage(id));
    NotingKeeps(kept, wins && !capture.CaptureFails? && IsDetached(w.records, id), Finalized(id));
  }

  lemma SweepingKeeps(w: World, swept: set<string>, now: int, y: Limits)
    requires Valid(w) && Sweeps(w.records, swept, now, y)
    ensures Valid(Swept(w, swept))
  {
    SweepsOnlyTerminal(w.records, swept, now, y);
    SweepingAgrees(w.records, w.history, swept);
  }

  lemma CreatingKeeps(w: World, id: string, now: int)
    requires Valid(w) && id !in w.records && !Has(w.history, Opened(id))
    ensures Valid(Created(w, id, now))
  {
    UnopenedHasNoTrace(w.history, id);
    if w.shuttingDown {
      RefusingAgrees(w.records, w.history, id, Fresh(Cancelled, now, w.created));
    } else {
      OpeningAgrees(w.records, w.history, id, now, w.created);
    }
  }

  lemma WatchingKeeps(w: World, id: string, now: int)
    requires Valid(w)
    ensures Valid(Attached(w, id, now)) && Valid(Detached(w, id, now))
  {
    if id in w.records {
      TouchingAgrees(w.records, w.history, id, w.records[id].(detachedAt := None, updatedAt := now));
      TouchingAgrees(w.records, w.history, id, w.records[id].(detachedAt := Some(now), updatedAt := now));
    }
  }

  lemma StepKeeps(w: World, step: Step, y: Limits)
    requires Valid(w) && Possible(w, step, y)
    ensures Valid(Apply(w, step))
  {
    match step
    case Create(id, now, swept) =>
      SweepingKeeps(w, swept, now, y);
      CreatingKeeps(Swept(w, swept), id, now);
    case WallClock(id, now) =>
      if IsRunning(w.records, id) && w.records[id].armed {
        TimingOutAgrees(w.records, w.history, id, now);
      }
    case AbortHandler(id, now) => SettlingKeeps(w, id, Cancelled, now);
    case InnerEnd(id, outcome, reason, capture, now) => EndingKeeps(w, id, outcome, reason, capture, now);
    case ComposedError(id, isCancellation, now) => SettlingKeeps(w, id, Failed, now);
    case ResponseFailure(id, now) => SettlingKeeps(w, id, Failed, now);
    case SetupFailure(id, now) =>
      if IsRunning(w.records, id) {
        ExitingAgrees(w.records, w.history, id, Failed, now);
      }
    case CancelRequest(id, now, swept) =>
      if id in w.records {
        SweepingKeeps(w, swept, now, y);
        SettlingKeeps(Swept(w, swept), id, Cancelled, now);
      }
    case Disconnect(id, now) => WatchingKeeps(w.(disconnected := w.disconnected + {id}), id, now);
    case ReadError(id, now) => WatchingKeeps(w, id, now);
    case Resume(id, now, swept) =>
      WatchingKeeps(w, id, now);
      SweepingKeeps(Attached(w, id, now), swept, now, y);
    case AbortAll(now) => AbortingAgrees(w.records, w.history, now);
  }

  // ---- Places in the order of insertion ----

  /** No record is new, and those that are left kept their places. */
  ghost predicate KeepsPlaces(before: map<string, Record>, after: map<string, Record>) {
    after.Keys <= before.Keys && forall id :: id in after ==> after[id].order == before[id].order
  }

  lemma PlacesKept(before: map<string, Record>, after: map<string, Record>, created: nat)
    requires Ordered(before, created) && KeepsPlaces(before, after)
    ensures Ordered(after, created)
  {
    assert forall id :: id in after ==> id in before;
  }

  lemma PlaceAdded(records: map<string, Record>, created: nat, id: string, r: Record)
    requires Ordered(records, created) && id !in records && r.order == created
    ensures Ordered(records[id := r], created + 1)
  {}

  lemma StepKeepsPlaces(w: World, step: Step, y: Limits)
    requires Ordered(w.records, w.created) && Possible(w, step, y)
    ensures Ordered(Apply(w, step).records, Apply(w, step).created)
  {
    match step
    case Create(id, now, swept) =>
      var left := Swept(w, swept);
      PlacesKept(w.records, left.records, w.created);
      PlaceAdded(left.records, w.created, id, Created(left, id, now).records[id]);
    case _ =>
      OtherStepsAddNothing(w, step);
      PlacesKept(w.records, Apply(w, step).records, w.created);
  }

  lemma OtherStepsAddNothing(w: World, step: Step)
    requires !step.Create?
    ensures KeepsPlaces(w.records, Apply(w, step).records) && Apply(w, step).created == w.created
  {}

  const EMPTY := World(map[], 0, false, {}, Start)

  /** The world after the first `n` steps of a run of the server. */
  function After(steps: seq<Step>, n: nat): World
    requires n <= |steps|
  {
    if n == 0 then EMPTY else Apply(After(steps, n - 1), steps[n - 1])
  }

  ghost predicate IsPossibleAt(steps: seq<Step>, y: Limits, n: nat)
    requires n < |steps|
  {
    Possible(After(steps, n), steps[n], y)
  }

  ghost predicate IsRun(steps: seq<Step>, y: Limits) {
    forall n :: 0 <= n < |steps| ==> IsPossibleAt(steps, y, n)
  }

  lemma {:induction false} EveryRunIsInOrder(steps: seq<Step>, y: Limits, n: nat)
    requires IsRun(steps, y) && n <= |steps|
    ensures Valid(After(steps, n))
  {
    if n > 0 {
      EveryRunIsInOrder(steps, y, n - 1);
      assert IsPossibleAt(steps, y, n - 1);
      StepKeeps(After(steps, n - 1), steps[n - 1], y);
    }
  }

  lemma {:induction false} EveryRunKeepsPlaces(steps: seq<Step>, y: Limits, n: nat)
    requires IsRun(steps, y) && n <= |steps|
    ensures Ordered(After(steps, n).records, After(steps, n).created)
  {
    if n > 0 {
      EveryRunKeepsPlaces(steps, y, n - 1);
      assert IsPossibleAt(steps, y, n - 1);
      StepKeepsPlaces(After(steps, n - 1), steps[n - 1], y);
    }
  }

  /** At every point of every run there is exactly one way to sweep. */
  lemma SweepsAreDetermined(steps: seq<Step>, y: Limits, n: nat, a: set<string>, b: set<string>, now: int)
    requires IsRun(steps, y) && n <= |steps|
    requires Sweeps(After(steps, n).records, a, now, y) && Sweeps(After(steps, n).records, b, now, y)
    ensures a == b
  {
    EveryRunKeepsPlaces(steps, y, n);
    SweepIsDetermined(After(steps, n).records, After(steps, n).created, a, b, now, y);
  }

  /** Over every interleaving a run ends at most once, and what is written durably about it
      is written at most once. */
  lemma RunsSettleOnce(steps: seq<Step>, y: Limits, id: string)
    requires IsRun(steps, y)
    ensures var h := After(steps, |steps|).history;
            && Exits(h, id) <= 1 && Verdicts(h, id) <= 1 && FinalMessages(h, id) <= 1 && Finalizations(h, id) <= 1
  {
    var w := After(steps, |steps|);
    EveryRunIsInOrder(steps, y, |steps|);
    ExitsAtMostOnce(w.history, id);
    WritesFollowTheExit(w.history, id);
  }

  /** The registry never forgets a live run, and never calls one running that has ended. */
  lemma LiveRunsAreRegistered(steps: seq<Step>, y: Limits, id: string)
    requires IsRun(steps, y)
    ensures IsLive(After(steps, |steps|).history, id) <==> IsRunning(After(steps, |steps|).records, id)
  {
    EveryRunIsInOrder(steps, y, |steps|);
  }

  /** A durable verdict equals the status in the registry for as long as the record exists,
      and a captured reply means completed. */
  lemma VerdictsMatchTheRegistry(steps: seq<Step>, y: Limits, id: string, s: Status)
    requires IsRun(steps, y) && id in After(steps, |steps|).records
    ensures Has(After(steps, |steps|).history, Verdict(id, s)) ==> After(steps, |steps|).records[id].status == s
    ensures Has(After(steps, |steps|).history, FinalMessage(id)) ==>
            After(steps, |steps|).records[id].status == Completed
  {
    var w := After(steps, |steps|);
    EveryRunIsInOrder(steps, y, |steps|);
    if Has(w.history, Verdict(id, s)) {
      VerdictIsTheExit(w.history, id, s);
      ExitWasOpened(w.history, id);
    }
    if Has(w.history, FinalMessage(id)) {
      RepliesAreCompleted(w.history, id);
      ExitWasOpened(w.history, id);
    }
  }

  /** A timeout is reported as a cancellation only if a shutdown came between the two. */
  lemma TimeoutsAreNotCancellations(steps: seq<Step>, y: Limits, id: string)
    requires IsRun(steps, y) && Has(After(steps, |steps|).history, TimedOut(id))
    requires ExitOf(After(steps, |steps|).history, id) == Some(Cancelled)
    ensures AbortedSince(BeforeExit(After(steps, |steps|).history, id), id)
  {
    EveryRunIsInOrder(steps, y, |steps|);
    TimedOutIsNotCancelled(After(steps, |steps|).history, id);
  }

  // ---- Which ends have a verdict ----

  predicate FailsInSetup(w: World, step: Step, id: string) {
    step.SetupFailure? && step.id == id && IsRunning(w.records, id)
  }

  /** Setup failures among the first `n` steps that ended the run. */
  function FailedInSetup(steps: seq<Step>, id: string, n: nat): nat
    requires n <= |steps|
  {
    if n == 0 then 0
    else
      FailedInSetup(steps, id, n - 1) +
      (if FailsInSetup(After(steps, n - 1), steps[n - 1], id) then 1 else 0)
  }

  /** What one step adds to the exits and verdicts of a run. */
  lemma OneStepSettles(w: World, step: Step, id: string)
    ensures Exits(Apply(w, step).history, id) - Exits(w.history, id) ==
            Verdicts(Apply(w, step).history, id) - Verdicts(w.history, id) +
            (if FailsInSetup(w, step, id) then 1 else 0)
  {
    match step
    case InnerEnd(run, outcome, reason, capture, now) =>
      var after := Settle(w, run, SettlementOf(outcome, reason), now);
      assert Exits(Apply(w, step).history, id) == Exits(after.history, id);
      assert Verdicts(Apply(w, step).history, id) == Verdicts(after.history, id);
    case _ =>
  }

  /** Exits that neither a verdict nor a setup failure accounts for. */
  function Unpaired(steps: seq<Step>, id: string, n: nat): int
    requires n <= |steps|
  {
    Exits(After(steps, n).history, id) - Verdicts(After(steps, n).history, id) - FailedInSetup(steps, id, n)
  }

  lemma NothingToPair(steps: seq<Step>, id: string)
    ensures Unpaired(steps, id, 0) == 0
  {}

  lemma OneMoreStepPairs(steps: seq<Step>, id: string, n: nat)
    requires 0 < n <= |steps|
    ensures Unpaired(steps, id, n) == Unpaired(steps, id, n - 1)
  {
    OneStepSettles(After(steps, n - 1), steps[n - 1], id);
  }

  lemma {:induction false} AllPaired(steps: seq<Step>, id: string, n: nat)
    requires n <= |steps|
    ensures Unpaired(steps, id, n) == 0
  {
    if n == 0 {
      NothingToPair(steps, id);
    } else {
      AllPaired(steps, id, n - 1);
      OneMoreStepPairs(steps, id, n);
    }
  }

  /** Every exit has its verdict, but for those by a setup failure. */
  lemma ExitsAreVerdictsOrSetupFailures(steps: seq<Step>, id: string, n: nat)
    requires n <= |steps|
    ensures Exits(After(steps, n).history, id) ==
            Verdicts(After(steps, n).history, id) + FailedInSetup(steps, id, n)
  {
    AllPaired(steps, id, n);
  }

  /** Every run of every server life has one verdict if it has ended otherwise than by a
      setup failure, and none in all other cases. */
  lemma VerdictExactlyWhen(steps: seq<Step>, y: Limits, id: string)
    requires IsRun(steps, y)
    ensures Verdicts(After(steps, |steps|).history, id) ==
            (if ExitOf(After(steps, |steps|).history, id).Some? && FailedInSetup(steps, id, |steps|) == 0 then 1 else 0)
  {
    EveryRunIsInOrder(steps, y, |steps|);
    ExitsAtMostOnce(After(steps, |steps|).history, id);
    ExitsAreVerdictsOrSetupFailures(steps, id, |steps|);
  }

  /** A terminal record lacks a verdict exactly when a setup failure ended its run, or the
      run was refused during shutdown and so never opened. */
  lemma TerminalWithoutVerdictExactlyWhen(steps: seq<Step>, y: Limits, id: string)
    requires IsRun(steps, y) && id in After(steps, |steps|).records && !IsRunning(After(steps, |steps|).records, id)
    ensures var h := After(steps, |steps|).history;
            Verdicts(h, id) == (if FailedInSetup(steps, id, |steps|) > 0 || !Has(h, Opened(id)) then 0 else 1)
  {
    var h := After(steps, |steps|).history;
    EveryRunIsInOrder(steps, y, |steps|);
    VerdictExactlyWhen(steps, y, id);
    if ExitOf(h, id).Some? {
      ExitWasOpened(h, id);
    }
    ExitsAtMostOnce(h, id);
    ExitsAreVerdictsOrSetupFailures(steps, id, |steps|);
  }

  lemma TwoSteps(a: Step, b: Step, y: Limits)
    ensures After([a, b], 1) == Apply(EMPTY, a) && After([a, b], 2) == Apply(Apply(EMPTY, a), b)
    ensures IsRun([a, b], y) <==> Possible(EMPTY, a, y) && Possible(Apply(EMPTY, a), b, y)
  {
    var steps := [a, b];
    assert After(steps, 0) == EMPTY;
    assert After(steps, 1) == Apply(EMPTY, a) && steps[0] == a && steps[1] == b;
    assert IsPossibleAt(steps, y, 0) == Possible(EMPTY, a, y);
    assert IsPossibleAt(steps, y, 1) == Possible(Apply(EMPTY, a), b, y);
  }

  lemma NothingToSweep(now: int, y: Limits)
    ensures Sweeps(map[], {}, now, y)
  {
    assert Expired(map[], now, y.ttl) == {} && Terminal(map[]) == {};
  }

  lemma ShutdownOfEmptyServer(now: int)
    ensures Apply(EMPTY, AbortAll(now)) == World(map[], 0, true, {}, Then(Start, AbortedAll))
  {
    assert AllAborted(EMPTY, now).records == map[];
  }

  /** A run that is created after shutdown began is cancelled from birth, without a verdict
      and without a setup failure. */
  lemma RefusedRunHasNoVerdict(id: string, y: Limits)
    ensures var steps := [AbortAll(0), Create(id, 1, {})];
            && IsRun(steps, y)
            && id in After(steps, 2).records && After(steps, 2).records[id].status == Cancelled
            && Verdicts(After(steps, 2).history, id) == 0 && FailedInSetup(steps, id, 2) == 0
  {
    var steps := [AbortAll(0), Create(id, 1, {})];
    TwoSteps(AbortAll(0), Create(id, 1, {}), y);
    ShutdownOfEmptyServer(0);
    NothingToSweep(1, y);
    var one := World(map[], 0, true, {}, Then(Start, AbortedAll));
    assert !Has(one.history, Opened(id));
    assert Possible(one, Create(id, 1, {}), y);
    assert FailedInSetup(steps, id, 1) == 0;
    assert Verdicts(one.history, id) == 0;
  }

  /** A run that is created and fails in setup has ended without any verdict. */
  lemma SetupFailureLeavesNoVerdict(id: string, y: Limits)
    ensures var steps := [Create(id, 0, {}), SetupFailure(id, 1)];
            && IsRun(steps, y)
            && ExitOf(After(steps, 2).history, id) == Some(Failed) && Verdicts(After(steps, 2).history, id) == 0
  {
    TwoSteps(Create(id, 0, {}), SetupFailure(id, 1), y);
    NothingToSweep(0, y);
    var one := Apply(EMPTY, Create(id, 0, {}));
    assert one.history == Then(Start, Opened(id)) && IsRunning(one.records, id);
    assert Apply(one, SetupFailure(id, 1)).history == Then(one.history, Exit(id, Failed));
    assert Verdicts(one.history, id) == 0;
  }
}
