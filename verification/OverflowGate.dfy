/** One logical stream chosen from at most two provider attempts. */
module OverflowGate {
  import opened Options

  /** How a provider stream ends: it closes, or a read rejects. */
  datatype Ending = Closed | Broken

  datatype Attempt<Part> = Attempt(parts: seq<Part>, ending: Ending)

  /** Everything the gate is given. `decide` answers for the error of each attempt,
      `recovers` is the outcome of compaction and rebuild. */
  datatype Route<!Part, !Error> = Route(
    attempts: nat -> Attempt<Part>,
    errorOf: Part -> Option<Error>,
    isLifecycle: Part -> bool,
    decide: (nat, Error) -> bool,
    recovers: bool)

  datatype Effect<Part, Error> =
    | Started(attempt: nat)
    | Detected(attempt: nat)
    | Decided(attempt: nat, shouldRecover: bool)
    | Discarded(attempt: nat)
    | Recovering
    | RecoveryFailed(attempt: nat)
    | RetryStarted
    | FinalError(attempt: nat, error: Error)
    | Emitted(part: Part)

  const MAX_PROVIDER_ATTEMPTS := 2

  // ---- The selection, read off the two streams ----

  /** Index of the first error part, or the length. */
  function FirstError<Part, Error>(r: Route<Part, Error>, parts: seq<Part>): (k: nat)
    ensures k <= |parts|
    ensures k < |parts| ==> r.errorOf(parts[k]).Some?
    ensures forall i :: 0 <= i < k ==> r.errorOf(parts[i]).None?
  {
    if parts == [] || r.errorOf(parts[0]).Some? then 0 else 1 + FirstError(r, parts[1..])
  }

  ghost predicate OnlyMarkers<Part, Error>(r: Route<Part, Error>, parts: seq<Part>) {
    forall i :: 0 <= i < |parts| ==> r.isLifecycle(parts[i])
  }

  function Fails<Part, Error>(r: Route<Part, Error>, n: nat): bool {
    FirstError(r, r.attempts(n).parts) < |r.attempts(n).parts|
  }

  function ErrorPart<Part, Error>(r: Route<Part, Error>, n: nat): Part
    requires Fails(r, n)
  {
    r.attempts(n).parts[FirstError(r, r.attempts(n).parts)]
  }

  function ErrorOf<Part, Error>(r: Route<Part, Error>, n: nat): Error
    requires Fails(r, n)
  {
    r.errorOf(ErrorPart(r, n)).value
  }

  /** What attempt `n` produces before its first error. */
  function Before<Part, Error>(r: Route<Part, Error>, n: nat): seq<Part> {
    r.attempts(n).parts[..FirstError(r, r.attempts(n).parts)]
  }

  /** Recovery is tried when the first attempt fails having shown nothing and policy agrees. */
  ghost predicate RecoveryTried<Part, Error>(r: Route<Part, Error>) {
    Fails(r, 1) && OnlyMarkers(r, Before(r, 1)) && r.decide(1, ErrorOf(r, 1))
  }

  ghost function Winner<Part, Error>(r: Route<Part, Error>): nat {
    if RecoveryTried(r) && r.recovers then 2 else 1
  }

  /** What the client receives of attempt `n` when it is kept: everything up to and
      including the first error part. Markers of a stream that breaks before showing
      anything are lost. */
  ghost function Kept<Part, Error>(r: Route<Part, Error>, n: nat): seq<Part> {
    if Fails(r, n) then Before(r, n) + [ErrorPart(r, n)]
    else if r.attempts(n).ending.Broken? && OnlyMarkers(r, Before(r, n)) then []
    else r.attempts(n).parts
  }

  // ---- Traces, newest effect last ----

  datatype Trace<Part, Error> = Empty | Then(before: Trace<Part, Error>, last: Effect<Part, Error>)

  function EmitAll<Part, Error>(t: Trace<Part, Error>, parts: seq<Part>): Trace<Part, Error> {
    if parts == [] then t
    else Then(EmitAll(t, parts[..|parts| - 1]), Emitted(parts[|parts| - 1]))
  }

  /** The parts the client receives. */
  function Output<Part, Error>(t: Trace<Part, Error>): seq<Part> {
    match t
    case Empty => []
    case Then(before, last) => Output(before) + (if last.Emitted? then [last.part] else [])
  }

  /** Everything else, in order. */
  function Control<Part, Error>(t: Trace<Part, Error>): seq<Effect<Part, Error>> {
    match t
    case Empty => []
    case Then(before, last) => Control(before) + (if last.Emitted? then [] else [last])
  }

  lemma {:induction false} EmittedIsOutput<Part, Error>(t: Trace<Part, Error>, parts: seq<Part>)
    ensures Output(EmitAll(t, parts)) == Output(t) + parts
    ensures Control(EmitAll(t, parts)) == Control(t)
  {
    if parts != [] {
      EmittedIsOutput(t, parts[..|parts| - 1]);
      assert parts == parts[..|parts| - 1] + [parts[|parts| - 1]];
    }
  }

  // ---- The exact run, as effects added to a trace ----

  /** Parts that were held back: nothing shown before the end or error of attempt `n`. */
  ghost function HeldBack<Part, Error>(r: Route<Part, Error>, n: nat): seq<Part> {
    if OnlyMarkers(r, Before(r, n)) then Before(r, n) else []
  }

  /** Reading attempt `n` up to its end or first error, committing at the first part that
      is not a marker. */
  ghost function Reading<Part, Error>(r: Route<Part, Error>, n: nat, t: Trace<Part, Error>): Trace<Part, Error> {
    EmitAll(Then(t, Started(n)), if OnlyMarkers(r, Before(r, n)) then [] else Before(r, n))
  }

  ghost function Noticing<Part, Error>(r: Route<Part, Error>, n: nat, t: Trace<Part, Error>): Trace<Part, Error>
    requires Fails(r, n)
  {
    Then(Then(t, Detected(n)), Decided(n, r.decide(n, ErrorOf(r, n))))
  }

  /** Publishing the error of a kept attempt, with the markers it still holds. */
  ghost function Publishing<Part, Error>(r: Route<Part, Error>, n: nat, t: Trace<Part, Error>): Trace<Part, Error>
    requires Fails(r, n)
  {
    Then(EmitAll(Then(t, FinalError(n, ErrorOf(r, n))), HeldBack(r, n)), Emitted(ErrorPart(r, n)))
  }

  /** An attempt that is kept, from its start to its end. */
  ghost function Keeping<Part, Error>(r: Route<Part, Error>, n: nat, t: Trace<Part, Error>): Trace<Part, Error> {
    var read := Reading(r, n, t);
    if Fails(r, n) then Publishing(r, n, Noticing(r, n, read))
    else if r.attempts(n).ending.Broken? then read
    else EmitAll(read, HeldBack(r, n))
  }

  ghost function Discarding<Part, Error>(r: Route<Part, Error>): Trace<Part, Error>
    requires Fails(r, 1)
  {
    Then(Then(Noticing(r, 1, Reading(r, 1, Empty)), Discarded(1)), Recovering)
  }

  ghost function Run<Part, Error>(r: Route<Part, Error>): Trace<Part, Error> {
    if !RecoveryTried(r) then Keeping(r, 1, Empty)
    else if r.recovers then Keeping(r, 2, Then(Discarding(r), RetryStarted))
    else Publishing(r, 1, Then(Discarding(r), RecoveryFailed(1)))
  }

  // ---- What the run guarantees ----

  lemma ReadingShows<Part, Error>(r: Route<Part, Error>, n: nat, t: Trace<Part, Error>)
    ensures Output(Reading(r, n, t)) + HeldBack(r, n) == Output(t) + Before(r, n)
    ensures OnlyMarkers(r, Before(r, n)) ==> Output(Reading(r, n, t)) == Output(t)
  {
    EmittedIsOutput(Then(t, Started(n)), if OnlyMarkers(r, Before(r, n)) then [] else Before(r, n));
  }

  lemma PublishingShows<Part, Error>(r: Route<Part, Error>, n: nat, t: Trace<Part, Error>)
    requires Fails(r, n)
    ensures Output(Publishing(r, n, t)) == Output(t) + HeldBack(r, n) + [ErrorPart(r, n)]
  {
    EmittedIsOutput(Then(t, FinalError(n, ErrorOf(r, n))), HeldBack(r, n));
  }

  lemma KeepingShows<Part, Error>(r: Route<Part, Error>, n: nat, t: Trace<Part, Error>)
    ensures Output(Keeping(r, n, t)) == Output(t) + Kept(r, n)
  {
    var read := Reading(r, n, t);
    ReadingShows(r, n, t);
    if Fails(r, n) {
      PublishingShows(r, n, Noticing(r, n, read));
      assert Output(t) + (Before(r, n) + [ErrorPart(r, n)]) == (Output(t) + Before(r, n)) + [ErrorPart(r, n)];
    } else {
      assert Before(r, n) == r.attempts(n).parts;
      EmittedIsOutput(read, HeldBack(r, n));
    }
  }

  lemma DiscardingShows<Part, Error>(r: Route<Part, Error>)
    requires RecoveryTried(r)
    ensures Output(Discarding(r)) == []
  {
    ReadingShows(r, 1, Empty);
  }

  lemma OutputOfRetry<Part, Error>(r: Route<Part, Error>)
    requires RecoveryTried(r) && r.recovers
    ensures Output(Run(r)) == Kept(r, 2)
  {
    var retry := Then(Discarding(r), RetryStarted);
    DiscardingShows(r);
    assert Output(retry) == [];
    KeepingShows(r, 2, retry);
  }

  lemma OutputOfFailedRecovery<Part, Error>(r: Route<Part, Error>)
    requires RecoveryTried(r) && !r.recovers
    ensures Output(Run(r)) == Kept(r, 1)
  {
    var failed := Then(Discarding(r), RecoveryFailed(1));
    DiscardingShows(r);
    assert Output(failed) == [];
    PublishingShows(r, 1, failed);
  }

  /** The client receives exactly the kept prefix of one attempt; the discarded one leaves
      no part behind. */
  lemma OutputIsOneAttempt<Part, Error>(r: Route<Part, Error>)
    ensures Output(Run(r)) == Kept(r, Winner(r))
  {
    if !RecoveryTried(r) {
      KeepingShows(r, 1, Empty);
    } else if r.recovers {
      OutputOfRetry(r);
    } else {
      OutputOfFailedRecovery(r);
    }
  }

  /** Starts, recoveries and published errors, in the order they happen. */
  ghost function ControlOf<Part, Error>(r: Route<Part, Error>): seq<Effect<Part, Error>> {
    if !Fails(r, 1) then [Started(1)]
    else if !RecoveryTried(r) then
      [Started(1), Detected(1), Decided(1, r.decide(1, ErrorOf(r, 1))), FinalError(1, ErrorOf(r, 1))]
    else if !r.recovers then
      [Started(1), Detected(1), Decided(1, true), Discarded(1), Recovering, RecoveryFailed(1),
       FinalError(1, ErrorOf(r, 1))]
    else if !Fails(r, 2) then
      [Started(1), Detected(1), Decided(1, true), Discarded(1), Recovering, RetryStarted, Started(2)]
    else
      [Started(1), Detected(1), Decided(1, true), Discarded(1), Recovering, RetryStarted, Started(2),
       Detected(2), Decided(2, r.decide(2, ErrorOf(r, 2))), FinalError(2, ErrorOf(r, 2))]
  }

  lemma ReadingControls<Part, Error>(r: Route<Part, Error>, n: nat, t: Trace<Part, Error>)
    ensures Control(Reading(r, n, t)) == Control(t) + [Started(n)]
  {
    EmittedIsOutput(Then(t, Started(n)), if OnlyMarkers(r, Before(r, n)) then [] else Before(r, n));
  }

  lemma PublishingControls<Part, Error>(r: Route<Part, Error>, n: nat, t: Trace<Part, Error>)
    requires Fails(r, n)
    ensures Control(Publishing(r, n, t)) == Control(t) + [FinalError(n, ErrorOf(r, n))]
  {
    EmittedIsOutput(Then(t, FinalError(n, ErrorOf(r, n))), HeldBack(r, n));
  }

  lemma KeepingControls<Part, Error>(r: Route<Part, Error>, n: nat, t: Trace<Part, Error>)
    ensures !Fails(r, n) ==> Control(Keeping(r, n, t)) == Control(t) + [Started(n)]
    ensures Fails(r, n) ==>
            Control(Keeping(r, n, t)) ==
            Control(t) + [Started(n), Detected(n), Decided(n, r.decide(n, ErrorOf(r, n))), FinalError(n, ErrorOf(r, n))]
  {
    var read := Reading(r, n, t);
    ReadingControls(r, n, t);
    if Fails(r, n) {
      PublishingControls(r, n, Noticing(r, n, read));
    } else {
      EmittedIsOutput(read, HeldBack(r, n));
    }
  }

  lemma DiscardingControls<Part, Error>(r: Route<Part, Error>)
    requires RecoveryTried(r)
    ensures Control(Discarding(r)) == [Started(1), Detected(1), Decided(1, true), Discarded(1), Recovering]
  {
    ReadingControls(r, 1, Empty);
  }

  lemma ControlOfRetry<Part, Error>(r: Route<Part, Error>)
    requires RecoveryTried(r) && r.recovers
    ensures Control(Run(r)) == ControlOf(r)
  {
    var retry := Then(Discarding(r), RetryStarted);
    DiscardingControls(r);
    assert Control(retry) == Control(Discarding(r)) + [RetryStarted];
    KeepingControls(r, 2, retry);
  }

  lemma ControlOfFailedRecovery<Part, Error>(r: Route<Part, Error>)
    requires RecoveryTried(r) && !r.recovers
    ensures Control(Run(r)) == ControlOf(r)
  {
    var failed := Then(Discarding(r), RecoveryFailed(1));
    DiscardingControls(r);
    assert Control(failed) == Control(Discarding(r)) + [RecoveryFailed(1)];
    PublishingControls(r, 1, failed);
  }

  lemma ControlIsExact<Part, Error>(r: Route<Part, Error>)
    ensures Control(Run(r)) == ControlOf(r)
  {
    if !RecoveryTried(r) {
      KeepingControls(r, 1, Empty);
    } else if r.recovers {
      ControlOfRetry(r);
    } else {
      ControlOfFailedRecovery(r);
    }
  }

  /** At most two attempts, the second one only once and last. */
  lemma AtMostTwoAttempts<Part, Error>(r: Route<Part, Error>, i: nat)
    requires i < |Control(Run(r))| && Control(Run(r))[i].Started?
    ensures i == 0 || (i == 6 && RecoveryTried(r) && r.recovers)
    ensures Control(Run(r))[i].attempt == (if i == 0 then 1 else 2)
  {
    ControlIsExact(r);
    if !Fails(r, 1) {
    } else if !RecoveryTried(r) {
    } else if !r.recovers {
    } else if !Fails(r, 2) {
    }
  }

  /** Recovery runs at most once, and only after the attempt it replaces was neutralised. */
  lemma AtMostOneRecovery<Part, Error>(r: Route<Part, Error>, i: nat)
    requires i < |Control(Run(r))| && Control(Run(r))[i].Recovering?
    ensures i == 4 && Control(Run(r))[3] == Discarded(1) && RecoveryTried(r)
  {
    ControlIsExact(r);
    if !Fails(r, 1) {
    } else if !RecoveryTried(r) {
    } else if !r.recovers {
    } else if !Fails(r, 2) {
    }
  }

  /** The final error is published once, by the winner, exactly when the winner fails. */
  lemma FinalErrorOnce<Part, Error>(r: Route<Part, Error>)
    ensures var c := Control(Run(r));
            && |c| > 0
            && (Fails(r, Winner(r)) <==> c[|c| - 1].FinalError?)
            && (Fails(r, Winner(r)) ==> c[|c| - 1] == FinalError(Winner(r), ErrorOf(r, Winner(r))))
            && forall i :: 0 <= i < |c| - 1 ==> !c[i].FinalError?
  {
    ControlIsExact(r);
    if !Fails(r, 1) {
    } else if !RecoveryTried(r) {
    } else if !r.recovers {
    } else if !Fails(r, 2) {
    }
  }

  /** An error part can only come last in the output. */
  lemma ErrorsEndTheOutput<Part, Error>(r: Route<Part, Error>, i: nat)
    requires i < |Output(Run(r))| && r.errorOf(Output(Run(r))[i]).Some?
    ensures i == |Output(Run(r))| - 1 && Fails(r, Winner(r))
  {
    OutputIsOneAttempt(r);
    var parts := r.attempts(Winner(r)).parts;
    assert forall k :: 0 <= k < FirstError(r, parts) ==> r.errorOf(parts[k]).None?;
  }

  // ---- The same, read off the parts alone ----

  /** Attempt `n` goes well up to part `k`, which is its first error. */
  ghost predicate FailsAt<Part, Error>(r: Route<Part, Error>, n: nat, k: nat) {
    && k < |r.attempts(n).parts| && r.errorOf(r.attempts(n).parts[k]).Some?
    && forall i :: 0 <= i < k ==> r.errorOf(r.attempts(n).parts[i]).None?
  }

  ghost predicate IsFree<Part, Error>(r: Route<Part, Error>, n: nat) {
    forall i :: 0 <= i < |r.attempts(n).parts| ==> r.errorOf(r.attempts(n).parts[i]).None?
  }

  /** Nothing but markers among the first `k` parts of attempt `n`. */
  ghost predicate ShowsNothing<Part, Error>(r: Route<Part, Error>, n: nat, k: nat)
    requires k <= |r.attempts(n).parts|
  {
    forall i :: 0 <= i < k ==> r.isLifecycle(r.attempts(n).parts[i])
  }

  /** What is kept of an attempt: a failing one up to and with its error, one that goes well
      as a whole, and nothing of one that breaks before it showed anything. */
  lemma KeptExactly<Part, Error>(r: Route<Part, Error>, n: nat, k: nat)
    ensures FailsAt(r, n, k) ==> Fails(r, n) && Kept(r, n) == r.attempts(n).parts[..k + 1]
    ensures IsFree(r, n) && (r.attempts(n).ending.Closed? || !ShowsNothing(r, n, |r.attempts(n).parts|)) ==>
              !Fails(r, n) && Kept(r, n) == r.attempts(n).parts
    ensures IsFree(r, n) && r.attempts(n).ending.Broken? && ShowsNothing(r, n, |r.attempts(n).parts|) ==>
              !Fails(r, n) && Kept(r, n) == []
  {
    var parts := r.attempts(n).parts;
    if FailsAt(r, n, k) {
      FirstErrorIsUnique(r, parts, k);
      assert parts[..k] + [parts[k]] == parts[..k + 1];
    }
    if IsFree(r, n) {
      FirstErrorIsUnique(r, parts, |parts|);
      assert parts[..|parts|] == parts;
    }
  }

  /** A first attempt without an error is all there is. */
  lemma FirstAttemptPasses<Part, Error>(r: Route<Part, Error>)
    requires IsFree(r, 1) && r.attempts(1).ending.Closed?
    ensures Output(Run(r)) == r.attempts(1).parts && Control(Run(r)) == [Started(1)]
  {
    KeptExactly(r, 1, 0);
    OutputIsOneAttempt(r);
    ControlIsExact(r);
  }

  /** Whether policy asks for a second attempt, and it can be made. */
  ghost predicate IsReplaced<Part, Error>(r: Route<Part, Error>, k: nat)
    requires FailsAt(r, 1, k)
  {
    ShowsNothing(r, 1, k) && r.decide(1, r.errorOf(r.attempts(1).parts[k]).value) && r.recovers
  }

  lemma ReplacedExactlyWhen<Part, Error>(r: Route<Part, Error>, k: nat)
    requires FailsAt(r, 1, k)
    ensures Winner(r) == if IsReplaced(r, k) then 2 else 1
  {
    FirstErrorIsUnique(r, r.attempts(1).parts, k);
  }

  /** An error that is not recovered from ends the stream. */
  lemma FailureIsPassedOn<Part, Error>(r: Route<Part, Error>, k: nat)
    requires FailsAt(r, 1, k) && !IsReplaced(r, k)
    ensures Output(Run(r)) == r.attempts(1).parts[..k + 1]
  {
    ReplacedExactlyWhen(r, k);
    KeptExactly(r, 1, k);
    OutputIsOneAttempt(r);
  }

  /** Its own error is the one that is published, after a failed recovery or without any. */
  lemma FailureIsPublished<Part, Error>(r: Route<Part, Error>, k: nat)
    requires FailsAt(r, 1, k) && !IsReplaced(r, k)
    ensures var e := r.errorOf(r.attempts(1).parts[k]).value;
            Control(Run(r)) ==
              if ShowsNothing(r, 1, k) && r.decide(1, e)
              then [Started(1), Detected(1), Decided(1, true), Discarded(1), Recovering, RecoveryFailed(1),
                    FinalError(1, e)]
              else [Started(1), Detected(1), Decided(1, r.decide(1, e)), FinalError(1, e)]
  {
    FirstErrorIsUnique(r, r.attempts(1).parts, k);
    ControlIsExact(r);
  }

  /** An error that is recovered from leaves no trace in the output: it is the second attempt
      from its first part, up to its own error if it has one. */
  lemma SecondAttemptReplacesFirst<Part, Error>(r: Route<Part, Error>, k: nat, l: nat)
    requires FailsAt(r, 1, k) && IsReplaced(r, k)
    ensures FailsAt(r, 2, l) ==> Output(Run(r)) == r.attempts(2).parts[..l + 1]
    ensures IsFree(r, 2) && r.attempts(2).ending.Closed? ==> Output(Run(r)) == r.attempts(2).parts
  {
    ReplacedExactlyWhen(r, k);
    KeptExactly(r, 2, l);
    OutputIsOneAttempt(r);
  }

  /** The first one's error is never published, the second one's is. */
  lemma ReplacedErrorIsHidden<Part, Error>(r: Route<Part, Error>, k: nat, l: nat)
    requires FailsAt(r, 1, k) && IsReplaced(r, k)
    ensures var started :=
              [Started(1), Detected(1), Decided(1, true), Discarded(1), Recovering, RetryStarted, Started(2)];
            && (IsFree(r, 2) ==> Control(Run(r)) == started)
            && (FailsAt(r, 2, l) ==>
                  var e := r.errorOf(r.attempts(2).parts[l]).value;
                  Control(Run(r)) == started + [Detected(2), Decided(2, r.decide(2, e)), FinalError(2, e)])
  {
    FirstErrorIsUnique(r, r.attempts(1).parts, k);
    KeptExactly(r, 2, l);
    if FailsAt(r, 2, l) {
      FirstErrorIsUnique(r, r.attempts(2).parts, l);
    }
    ControlIsExact(r);
  }

  // ---- What is emitted when ----

  /** The parts that follow the newest control effect. */
  function Tail<Part, Error>(t: Trace<Part, Error>): seq<Part> {
    if t.Then? && t.last.Emitted? then Tail(t.before) + [t.last.part] else []
  }

  lemma {:induction false} TailGrows<Part, Error>(t: Trace<Part, Error>, parts: seq<Part>)
    ensures Tail(EmitAll(t, parts)) == Tail(t) + parts
  {
    if parts != [] {
      TailGrows(t, parts[..|parts| - 1]);
      assert parts == parts[..|parts| - 1] + [parts[|parts| - 1]];
    }
  }

  lemma PublishingTail<Part, Error>(r: Route<Part, Error>, n: nat, k: nat, t: Trace<Part, Error>)
    requires FailsAt(r, n, k)
    ensures Fails(r, n)
    ensures Tail(Publishing(r, n, t)) == if ShowsNothing(r, n, k) then r.attempts(n).parts[..k + 1]
                                         else [r.attempts(n).parts[k]]
  {
    FirstErrorIsUnique(r, r.attempts(n).parts, k);
    TailGrows(Then(t, FinalError(n, ErrorOf(r, n))), HeldBack(r, n));
    assert r.attempts(n).parts[..k] + [r.attempts(n).parts[k]] == r.attempts(n).parts[..k + 1];
  }

  /** The final error is published before its part is emitted, and before the markers that
      were held back; everything the client could see was emitted before that. */
  lemma ErrorPrecedesItsPart<Part, Error>(r: Route<Part, Error>, k: nat)
    requires FailsAt(r, Winner(r), k)
    ensures var parts := r.attempts(Winner(r)).parts;
            Tail(Run(r)) == if ShowsNothing(r, Winner(r), k) then parts[..k + 1] else [parts[k]]
  {
    var n := Winner(r);
    if !RecoveryTried(r) {
      PublishingTail(r, 1, k, Noticing(r, 1, Reading(r, 1, Empty)));
    } else if r.recovers {
      PublishingTail(r, 2, k, Noticing(r, 2, Reading(r, 2, Then(Discarding(r), RetryStarted))));
    } else {
      PublishingTail(r, 1, k, Then(Discarding(r), RecoveryFailed(1)));
    }
  }

  // ---- The generator ----

  lemma FirstErrorIsUnique<Part, Error>(r: Route<Part, Error>, parts: seq<Part>, k: nat)
    requires k <= |parts|
    requires forall i :: 0 <= i < k ==> r.errorOf(parts[i]).None?
    requires k < |parts| ==> r.errorOf(parts[k]).Some?
    ensures FirstError(r, parts) == k
  {}

  /** The trace before attempt `n` starts. */
  ghost function Prior<Part, Error>(r: Route<Part, Error>, n: nat): Trace<Part, Error>
    requires n == 2 ==> RecoveryTried(r)
  {
    if n == 2 then Then(Discarding(r), RetryStarted) else Empty
  }

  /** The generator's variables between two reads; `read` is how much of the current
      attempt has been consumed. */
  datatype State<Part, Error> =
    State(attempt: nat, read: nat, held: seq<Part>, committed: bool, trace: Trace<Part, Error>)

  /** `consumed` was read off attempt `n` without meeting an error. */
  ghost predicate Consumed<Part, Error>(r: Route<Part, Error>, n: nat, consumed: seq<Part>) {
    consumed <= r.attempts(n).parts && forall i :: 0 <= i < |consumed| ==> r.errorOf(consumed[i]).None?
  }

  ghost predicate Reached<Part, Error>(r: Route<Part, Error>, s: State<Part, Error>, consumed: seq<Part>) {
    && (s.attempt == 1 || (s.attempt == 2 && RecoveryTried(r) && r.recovers))
    && Consumed(r, s.attempt, consumed) && s.read == |consumed|
    && s.committed == !OnlyMarkers(r, consumed)
    && s.held == (if s.committed then [] else consumed)
    && s.trace == EmitAll(Then(Prior(r, s.attempt), Started(s.attempt)), if s.committed then consumed else [])
  }

  /** The stream of the current attempt has closed or broken. */
  method OnEnd<Part, Error>(r: Route<Part, Error>, s: State<Part, Error>, ghost consumed: seq<Part>)
    returns (trace: Trace<Part, Error>, ending: Ending)
    requires Reached(r, s, consumed) && s.read == |r.attempts(s.attempt).parts|
    ensures trace == Run(r) && !Fails(r, s.attempt) && s.attempt == Winner(r)
    ensures ending == r.attempts(s.attempt).ending
  {
    var n := s.attempt;
    assert consumed == r.attempts(n).parts;
    FirstErrorIsUnique(r, consumed, |consumed|);
    assert Before(r, n) == consumed;
    ending := r.attempts(n).ending;
    trace := if ending.Closed? then EmitAll(s.trace, s.held) else s.trace;
  }

  lemma AtError<Part, Error>(r: Route<Part, Error>, s: State<Part, Error>, consumed: seq<Part>)
    requires Reached(r, s, consumed) && s.read < |r.attempts(s.attempt).parts|
    requires r.errorOf(r.attempts(s.attempt).parts[s.read]).Some?
    ensures Fails(r, s.attempt) && ErrorPart(r, s.attempt) == r.attempts(s.attempt).parts[s.read]
    ensures Before(r, s.attempt) == consumed && s.held == HeldBack(r, s.attempt)
    ensures s.trace == Reading(r, s.attempt, Prior(r, s.attempt))
  {
    FirstErrorIsUnique(r, r.attempts(s.attempt).parts, |consumed|);
  }

  /** The error branch: policy, discard, recovery, and either the final error or a retry. */
  method OnError<Part, Error>(r: Route<Part, Error>, s: State<Part, Error>, ghost consumed: seq<Part>, part: Part)
    returns (trace: Trace<Part, Error>, retry: bool)
    requires Reached(r, s, consumed) && s.read < |r.attempts(s.attempt).parts|
    requires part == r.attempts(s.attempt).parts[s.read] && r.errorOf(part).Some?
    ensures retry <==> s.attempt == 1 && RecoveryTried(r) && r.recovers
    ensures trace == if retry then Prior(r, 2) else Run(r)
    ensures !retry ==> Fails(r, Winner(r))
  {
    AtError(r, s, consumed);
    var error := r.errorOf(part).value;
    var out := Then(s.trace, Detected(s.attempt));
    var shouldRecover := r.decide(s.attempt, error);
    out := Then(out, Decided(s.attempt, shouldRecover));
    if !(shouldRecover && s.attempt < MAX_PROVIDER_ATTEMPTS && !s.committed) {
      out := Then(out, FinalError(s.attempt, error));
      return Then(EmitAll(out, s.held), Emitted(part)), false;
    }
    out := Then(out, Discarded(s.attempt));
    out := Then(out, Recovering);
    if !r.recovers {
      out := Then(out, RecoveryFailed(s.attempt));
      out := Then(out, FinalError(s.attempt, error));
      return Then(EmitAll(out, s.held), Emitted(part)), false;
    }
    return Then(out, RetryStarted), true;
  }

  lemma OneMore<Part, Error>(t: Trace<Part, Error>, consumed: seq<Part>, committed: bool, held: seq<Part>, part: Part)
    requires held == if committed then [] else consumed
    ensures Then(EmitAll(EmitAll(t, if committed then consumed else []), held), Emitted(part))
         == EmitAll(t, consumed + [part])
  {
    assert (consumed + [part])[..|consumed|] == consumed;
  }

  lemma MarkersGrow<Part, Error>(r: Route<Part, Error>, consumed: seq<Part>, part: Part)
    ensures OnlyMarkers(r, consumed + [part]) <==> OnlyMarkers(r, consumed) && r.isLifecycle(part)
  {
    assert (consumed + [part])[|consumed|] == part;
    assert forall i :: 0 <= i < |consumed| ==> (consumed + [part])[i] == consumed[i];
  }

  /** The part branch: hold a marker back, or commit and replay what was held. */
  method OnPart<Part, Error>(r: Route<Part, Error>, s: State<Part, Error>, ghost consumed: seq<Part>, part: Part)
    returns (next: State<Part, Error>)
    requires Reached(r, s, consumed) && s.read < |r.attempts(s.attempt).parts|
    requires part == r.attempts(s.attempt).parts[s.read] && r.errorOf(part).None?
    ensures Reached(r, next, consumed + [part]) && next.attempt == s.attempt
  {
    MarkersGrow(r, consumed, part);
    if !s.committed && r.isLifecycle(part) {
      return s.(read := s.read + 1, held := s.held + [part]);
    }
    OneMore(Then(Prior(r, s.attempt), Started(s.attempt)), consumed, s.committed, s.held, part);
    return State(s.attempt, s.read + 1, [], true, Then(EmitAll(s.trace, s.held), Emitted(part)));
  }

  /** The logical stream: everything it emits and does, and how it ends. */
  method WithOverflowRecovery<Part, Error>(r: Route<Part, Error>)
    returns (trace: Trace<Part, Error>, ending: Ending)
    ensures trace == Run(r)
    ensures ending == if Fails(r, Winner(r)) then Closed else r.attempts(Winner(r)).ending
  {
    var s := State(1, 0, [], false, Then(Empty, Started(1)));
    ghost var consumed: seq<Part> := [];
    while true
      invariant Reached(r, s, consumed)
      decreases MAX_PROVIDER_ATTEMPTS - s.attempt, |r.attempts(s.attempt).parts| - s.read
    {
      if s.read == |r.attempts(s.attempt).parts| {
        trace, ending := OnEnd(r, s, consumed);
        return;
      }
      var part := r.attempts(s.attempt).parts[s.read];
      if r.errorOf(part).Some? {
        var retry;
        trace, retry := OnError(r, s, consumed, part);
        if !retry {
          return trace, Closed;
        }
        s := State(MAX_PROVIDER_ATTEMPTS, 0, [], false, Then(trace, Started(MAX_PROVIDER_ATTEMPTS)));
        consumed := [];
      } else {
        s := OnPart(r, s, consumed, part);
        consumed := consumed + [part];
      }
    }
  }
}
