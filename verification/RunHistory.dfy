/** What the outside can observe about chat runs, and when such a record is in order. */
module RunHistory {
  import opened Options

  datatype Status = Running | Completed | Failed | Cancelled

  /** `Exit` is a run leaving `Running`; `Verdict`, `FinalMessage` and `Finalized` are the
      durable writes about it. */
  datatype Event =
    | Opened(id: string)
    | Exit(id: string, status: Status)
    | Verdict(id: string, status: Status)
    | FinalMessage(id: string)
    | Finalized(id: string)
    | TimedOut(id: string)
    | AbortedAll

  datatype History = Start | Then(before: History, last: Event)

  predicate Has(h: History, e: Event) {
    h.Then? && (h.last == e || Has(h.before, e))
  }

  /** How a run left `Running`, if it did. */
  function ExitOf(h: History, id: string): Option<Status> {
    match h
    case Start => None
    case Then(b, e) => if e.Exit? && e.id == id then Some(e.status) else ExitOf(b, id)
  }

  predicate IsLive(h: History, id: string) {
    Has(h, Opened(id)) && ExitOf(h, id).None?
  }

  /** The run was marked timed out, and no shutdown has cleared that mark. */
  predicate TimeoutPending(h: History, id: string) {
    h.Then? && (h.last == TimedOut(id) || (h.last != AbortedAll && TimeoutPending(h.before, id)))
  }

  predicate LastIs(h: History, e: Event) {
    h.Then? && h.last == e
  }

  /** Whether `e` may come next. */
  predicate MayFollow(h: History, e: Event) {
    match e
    case Opened(id) => !Has(h, Opened(id)) && ExitOf(h, id).None?
    case Exit(id, s) => IsLive(h, id) && !s.Running? && (s.Cancelled? ==> !TimeoutPending(h, id))
    case Verdict(id, s) => LastIs(h, Exit(id, s))
    case FinalMessage(id) => LastIs(h, Verdict(id, Completed))
    case Finalized(id) => LastIs(h, Verdict(id, Completed)) || LastIs(h, FinalMessage(id))
    case TimedOut(id) => IsLive(h, id)
    case AbortedAll => true
  }

  predicate InOrder(h: History) {
    h.Then? ==> InOrder(h.before) && MayFollow(h.before, h.last)
  }

  // ---- Consequences for every history in order ----

  function Exits(h: History, id: string): nat {
    if h.Start? then 0 else Exits(h.before, id) + (if h.last.Exit? && h.last.id == id then 1 else 0)
  }

  function Verdicts(h: History, id: string): nat {
    if h.Start? then 0 else Verdicts(h.before, id) + (if h.last.Verdict? && h.last.id == id then 1 else 0)
  }

  function FinalMessages(h: History, id: string): nat {
    if h.Start? then 0 else FinalMessages(h.before, id) + (if h.last.FinalMessage? && h.last.id == id then 1 else 0)
  }

  function Finalizations(h: History, id: string): nat {
    if h.Start? then 0 else Finalizations(h.before, id) + (if h.last.Finalized? && h.last.id == id then 1 else 0)
  }

  predicate LastConcerns(h: History, id: string) {
    h.Then? && !h.last.AbortedAll? && h.last.id == id
  }

  lemma {:induction false} ExitsAtMostOnce(h: History, id: string)
    requires InOrder(h)
    ensures Exits(h, id) == if ExitOf(h, id).Some? then 1 else 0
  {
    if h.Then? {
      ExitsAtMostOnce(h.before, id);
    }
  }

  /** Every durable write about a run happens at most once, and only after its exit. */
  lemma {:induction false} WritesFollowTheExit(h: History, id: string)
    requires InOrder(h)
    ensures Verdicts(h, id) + (if LastConcerns(h, id) && h.last.Exit? then 1 else 0) <= Exits(h, id)
    ensures FinalMessages(h, id) + (if LastConcerns(h, id) && h.last.Verdict? then 1 else 0) <= Verdicts(h, id)
    ensures Finalizations(h, id) + (if LastConcerns(h, id) && (h.last.Verdict? || h.last.FinalMessage?) then 1 else 0)
            <= Verdicts(h, id)
  {
    if h.Then? {
      WritesFollowTheExit(h.before, id);
    }
  }

  /** The verdict that is written is the status the run left with. */
  lemma {:induction false} VerdictIsTheExit(h: History, id: string, s: Status)
    requires InOrder(h) && Has(h, Verdict(id, s))
    ensures ExitOf(h, id) == Some(s)
  {
    ExitStands(h.before, h.last, id);
    if h.last != Verdict(id, s) {
      VerdictIsTheExit(h.before, id, s);
    }
  }

  /** A reply is captured, or a detached history completed, only for a completed run. */
  lemma {:induction false} RepliesAreCompleted(h: History, id: string)
    requires InOrder(h) && (Has(h, FinalMessage(id)) || Has(h, Finalized(id)))
    ensures ExitOf(h, id) == Some(Completed)
  {
    ExitStands(h.before, h.last, id);
    if h.last == FinalMessage(id) || h.last == Finalized(id) {
      assert Has(h.before, Verdict(id, Completed)) by {
        if LastIs(h.before, FinalMessage(id)) {
          assert LastIs(h.before.before, Verdict(id, Completed));
        }
      }
      VerdictIsTheExit(h.before, id, Completed);
    } else {
      RepliesAreCompleted(h.before, id);
    }
  }

  lemma ExitStands(h: History, e: Event, id: string)
    requires MayFollow(h, e)
    ensures ExitOf(h, id).Some? ==> ExitOf(Then(h, e), id) == ExitOf(h, id)
  {}

  /** A shutdown came after the run was last marked timed out. */
  predicate AbortedSince(h: History, id: string) {
    h.Then? && h.last != TimedOut(id) && (h.last == AbortedAll || AbortedSince(h.before, id))
  }

  /** What happened before a run's exit. */
  function BeforeExit(h: History, id: string): History
    requires ExitOf(h, id).Some?
  {
    if h.last.Exit? && h.last.id == id then h.before else BeforeExit(h.before, id)
  }

  lemma {:induction false} PendingUnlessAborted(h: History, id: string)
    requires Has(h, TimedOut(id))
    ensures TimeoutPending(h, id) <==> !AbortedSince(h, id)
  {
    if h.last != TimedOut(id) && h.last != AbortedAll {
      PendingUnlessAborted(h.before, id);
    }
  }

  /** Nothing is marked timed out once it has ended. */
  lemma {:induction false} TimeoutPrecedesExit(h: History, id: string)
    requires InOrder(h) && ExitOf(h, id).Some? && Has(h, TimedOut(id))
    ensures Has(BeforeExit(h, id), TimedOut(id))
  {
    if !(h.last.Exit? && h.last.id == id) {
      TimeoutPrecedesExit(h.before, id);
    }
  }

  lemma {:induction false} CancelledWasNotPending(h: History, id: string)
    requires InOrder(h) && ExitOf(h, id) == Some(Cancelled)
    ensures !TimeoutPending(BeforeExit(h, id), id)
  {
    if !(h.last.Exit? && h.last.id == id) {
      CancelledWasNotPending(h.before, id);
    }
  }

  /** A run that was marked timed out ends cancelled only if a shutdown came between the
      mark and its exit; what happens after the exit does not matter. */
  lemma TimedOutIsNotCancelled(h: History, id: string)
    requires InOrder(h) && Has(h, TimedOut(id)) && ExitOf(h, id) == Some(Cancelled)
    ensures Has(BeforeExit(h, id), TimedOut(id)) && AbortedSince(BeforeExit(h, id), id)
  {
    TimeoutPrecedesExit(h, id);
    CancelledWasNotPending(h, id);
    PendingUnlessAborted(BeforeExit(h, id), id);
  }

  lemma {:induction false} ExitWasOpened(h: History, id: string)
    requires InOrder(h) && ExitOf(h, id).Some?
    ensures Has(h, Opened(id))
  {
    if h.last != Opened(id) && ExitOf(h.before, id).Some? {
      ExitWasOpened(h.before, id);
    }
  }
}
