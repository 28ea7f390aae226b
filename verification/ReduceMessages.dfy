/** Request-side reduction over a whole history: oversized results and old reasoning. */
module ReduceMessages {
  import opened Options
  import opened UiMessages
  import opened Decimal
  import opened ReduceText

  /** The policy numbers; `share` is the head's part of a shortened result. */
  datatype Policy = Policy(maxChars: nat, retainLast: nat, reasoningMaxChars: nat, wording: Wording, share: nat -> nat)

  ghost predicate IsPolicy(y: Policy) {
    Proper(y.wording) && IsShare(y.share)
  }

  /** Only string outputs and error texts have a size here. */
  function ResultChars(p: Part): nat {
    if p.state.OutputError? then (if p.errorText.Some? then |p.errorText.value| else 0)
    else if p.output.Some? && p.output.value.JString? then |p.output.value.text|
    else 0
  }

  predicate TooLarge(y: Policy, p: Part) {
    p.kind.Call? && HasResult(p) && ResultChars(p) > y.maxChars
  }

  function ErrorNotice(chars: nat): string {
    "Tool error output omitted from this request (" + Render(chars)
    + " characters). The failure is recorded in the run log."
  }

  /** What is left of a part, if anything. */
  function ReducedPart(y: Policy, p: Part, retain: bool): Option<Part>
    requires IsPolicy(y)
  {
    if p.kind.Reasoning? then
      if !retain then None
      else if ReasoningRemoved(p.text, y.reasoningMaxChars) == 0 then Some(p)
      else Some(p.(text := ReducedReasoning(p.text, y.reasoningMaxChars)))
    else if !TooLarge(y, p) then Some(p)
    else if p.state.OutputError? then
      Some(p.(output := None, errorText := Some(ErrorNotice(ResultChars(p)))))
    else
      Some(p.(output := Some(JString(Reduced(y.wording, p.output.value.text, y.maxChars, y.share)))))
  }

  datatype Report = Report(
    reducedParts: nat, droppedParts: nat, removedChars: nat, reducedReasoningParts: nat, removedReasoningChars: int)

  const NOTHING := Report(0, 0, 0, 0, 0)

  function Plus(a: Report, b: Report): Report {
    Report(a.reducedParts + b.reducedParts, a.droppedParts + b.droppedParts, a.removedChars + b.removedChars,
           a.reducedReasoningParts + b.reducedReasoningParts, a.removedReasoningChars + b.removedReasoningChars)
  }

  function PartReport(y: Policy, p: Part, retain: bool): Report
    requires IsPolicy(y)
  {
    if p.kind.Reasoning? then
      if !retain then Report(0, 0, 0, 1, |p.text|)
      else if ReasoningRemoved(p.text, y.reasoningMaxChars) == 0 then NOTHING
      else Report(0, 0, 0, 1, ReasoningRemoved(p.text, y.reasoningMaxChars))
    else if !TooLarge(y, p) then NOTHING
    else if p.state.OutputError? then Report(1, 1, ResultChars(p), 0, 0)
    else Report(1, 0, Removed(p.output.value.text, y.maxChars), 0, 0)
  }

  /** The values among the first `n` results, in order. */
  function Present<T>(results: seq<Option<T>>, n: nat): (values: seq<T>)
    requires n <= |results|
    ensures |values| <= n
  {
    if n == 0 then []
    else if results[n - 1].None? then Present(results, n - 1)
    else Present(results, n - 1) + [results[n - 1].value]
  }

  function PartResults(y: Policy, parts: seq<Part>, retain: bool): (results: seq<Option<Part>>)
    requires IsPolicy(y)
    ensures |results| == |parts|
    ensures forall j :: 0 <= j < |parts| ==> results[j] == ReducedPart(y, parts[j], retain)
  {
    seq(|parts|, j requires 0 <= j < |parts| => ReducedPart(y, parts[j], retain))
  }

  function ReducedParts(y: Policy, parts: seq<Part>, retain: bool): seq<Part>
    requires IsPolicy(y)
  {
    Present(PartResults(y, parts, retain), |parts|)
  }

  function PartsReport(y: Policy, parts: seq<Part>, retain: bool, n: nat): Report
    requires IsPolicy(y) && n <= |parts|
  {
    if n == 0 then NOTHING
    else Plus(PartsReport(y, parts, retain, n - 1), PartReport(y, parts[n - 1], retain))
  }

  /** Reasoning is kept from this message on. */
  function KeepReasoningFrom(y: Policy, h: seq<Message>): nat {
    if |h| <= y.retainLast then 0 else |h| - y.retainLast
  }

  /** A turn other than the user's that has nothing left is dropped. */
  function ReducedMessage(y: Policy, m: Message, retain: bool): Option<Message>
    requires IsPolicy(y)
  {
    var left := ReducedParts(y, m.parts, retain);
    if left == [] && !m.role.User? then None else Some(m.(parts := left))
  }

  function MessageResults(y: Policy, h: seq<Message>, from: nat): (results: seq<Option<Message>>)
    requires IsPolicy(y)
    ensures |results| == |h|
    ensures forall i :: 0 <= i < |h| ==> results[i] == ReducedMessage(y, h[i], i >= from)
  {
    seq(|h|, i requires 0 <= i < |h| => ReducedMessage(y, h[i], i >= from))
  }

  function ReducedHistory(y: Policy, h: seq<Message>, from: nat): seq<Message>
    requires IsPolicy(y)
  {
    Present(MessageResults(y, h, from), |h|)
  }

  function HistoryReport(y: Policy, h: seq<Message>, from: nat, n: nat): Report
    requires IsPolicy(y) && n <= |h|
  {
    if n == 0 then NOTHING
    else Plus(HistoryReport(y, h, from, n - 1), PartsReport(y, h[n - 1].parts, n - 1 >= from, |h[n - 1].parts|))
  }

  // ---- The imperative form ----

  method ReduceOnePart(y: Policy, p: Part, retain: bool) returns (left: Option<Part>, report: Report)
    requires IsPolicy(y)
    ensures left == ReducedPart(y, p, retain) && report == PartReport(y, p, retain)
  {
    if p.kind.Reasoning? {
      if !retain {
        return None, Report(0, 0, 0, 1, |p.text|);
      }
      var removed := ReasoningRemoved(p.text, y.reasoningMaxChars);
      if removed == 0 {
        return Some(p), NOTHING;
      }
      return Some(p.(text := ReducedReasoning(p.text, y.reasoningMaxChars))), Report(0, 0, 0, 1, removed);
    }
    if !p.kind.Call? || !HasResult(p) {
      return Some(p), NOTHING;
    }
    var chars := ResultChars(p);
    if chars <= y.maxChars {
      return Some(p), NOTHING;
    }
    if p.state.OutputError? {
      return Some(p.(output := None, errorText := Some(ErrorNotice(chars)))), Report(1, 1, chars, 0, 0);
    }
    var text, removed := ReduceResultText(y.wording, p.output.value.text, y.maxChars, y.share);
    return Some(p.(output := Some(JString(text)))), Report(1, 0, removed, 0, 0);
  }

  method ReduceParts(y: Policy, parts: seq<Part>, retain: bool) returns (kept: seq<Part>, report: Report)
    requires IsPolicy(y)
    ensures kept == ReducedParts(y, parts, retain) && report == PartsReport(y, parts, retain, |parts|)
  {
    kept, report := [], NOTHING;
    for j := 0 to |parts|
      invariant kept == Present(PartResults(y, parts, retain), j) && report == PartsReport(y, parts, retain, j)
    {
      var left, one := ReduceOnePart(y, parts[j], retain);
      if left.Some? {
        kept := kept + [left.value];
      }
      report := Plus(report, one);
    }
  }

  method ReduceOneMessage(y: Policy, m: Message, retain: bool) returns (left: Option<Message>, report: Report)
    requires IsPolicy(y)
    ensures left == ReducedMessage(y, m, retain) && report == PartsReport(y, m.parts, retain, |m.parts|)
  {
    var kept;
    kept, report := ReduceParts(y, m.parts, retain);
    left := if kept == [] && !m.role.User? then None else Some(m.(parts := kept));
  }

  lemma OneMoreMessage(y: Policy, h: seq<Message>, from: nat, i: nat)
    requires IsPolicy(y) && i < |h|
    ensures var results, left := MessageResults(y, h, from), ReducedMessage(y, h[i], i >= from);
            Present(results, i + 1) == Present(results, i) + (if left.Some? then [left.value] else [])
    ensures HistoryReport(y, h, from, i + 1) ==
            Plus(HistoryReport(y, h, from, i), PartsReport(y, h[i].parts, i >= from, |h[i].parts|))
  {}

  method ReduceToolResults(y: Policy, h: seq<Message>) returns (next: seq<Message>, report: Report)
    requires IsPolicy(y)
    ensures next == ReducedHistory(y, h, KeepReasoningFrom(y, h))
    ensures report == HistoryReport(y, h, KeepReasoningFrom(y, h), |h|)
  {
    next, report := [], NOTHING;
    var from := KeepReasoningFrom(y, h);
    ghost var results := MessageResults(y, h, from);
    for i := 0 to |h|
      invariant next == Present(results, i) && report == HistoryReport(y, h, from, i)
    {
      OneMoreMessage(y, h, from, i);
      var left, one := ReduceOneMessage(y, h[i], i >= from);
      report := Plus(report, one);
      if left.Some? {
        next := next + [left.value];
      }
    }
  }

  // ---- What reduction never touches ----

  /** A part without its result. */
  function Strip(p: Part): Part {
    if p.kind.Call? then p.(output := None, errorText := None) else p
  }

  function Skeleton(role: Role, parts: seq<Part>, n: nat): seq<(Role, Part)>
    requires n <= |parts|
  {
    if n == 0 then []
    else Skeleton(role, parts, n - 1) + (if parts[n - 1].kind.Reasoning? then [] else [(role, Strip(parts[n - 1]))])
  }

  /** Every part but reasoning, without results: texts, files, data, and the calls with
      their type, id, state, input and approval, in order. */
  function SkeletonOf(h: seq<Message>, n: nat): seq<(Role, Part)>
    requires n <= |h|
  {
    if n == 0 then [] else SkeletonOf(h, n - 1) + Skeleton(h[n - 1].role, h[n - 1].parts, |h[n - 1].parts|)
  }

  lemma {:induction false} SkeletonPrefix(role: Role, a: seq<Part>, b: seq<Part>, n: nat)
    requires n <= |a| && n <= |b| && forall k :: 0 <= k < n ==> a[k] == b[k]
    ensures Skeleton(role, a, n) == Skeleton(role, b, n)
  {
    if n > 0 {
      SkeletonPrefix(role, a, b, n - 1);
    }
  }

  lemma {:induction false} SkeletonOfPrefix(a: seq<Message>, b: seq<Message>, n: nat)
    requires n <= |a| && n <= |b| && forall k :: 0 <= k < n ==> a[k] == b[k]
    ensures SkeletonOf(a, n) == SkeletonOf(b, n)
  {
    if n > 0 {
      SkeletonOfPrefix(a, b, n - 1);
    }
  }

  /** `left` is `p` up to its result; only reasoning disappears. */
  ghost predicate KeepsPart(p: Part, left: Option<Part>) {
    if left.None? then p.kind.Reasoning?
    else left.value.kind == p.kind && (p.kind.Reasoning? || Strip(left.value) == Strip(p))
  }

  lemma ReducedPartKeepsSkeleton(y: Policy, p: Part, retain: bool)
    requires IsPolicy(y)
    ensures KeepsPart(p, ReducedPart(y, p, retain))
  {}

  lemma {:induction false} PresentKeepsSkeleton(role: Role, parts: seq<Part>, results: seq<Option<Part>>, n: nat)
    requires n <= |parts| == |results| && forall j :: 0 <= j < n ==> KeepsPart(parts[j], results[j])
    ensures Skeleton(role, Present(results, n), |Present(results, n)|) == Skeleton(role, parts, n)
  {
    if n > 0 {
      PresentKeepsSkeleton(role, parts, results, n - 1);
      assert KeepsPart(parts[n - 1], results[n - 1]);
      SkeletonPrefix(role, Present(results, n), Present(results, n - 1), |Present(results, n - 1)|);
    }
  }

  /** No user turn disappears or changes its identity. */
  ghost predicate KeepsTurn(m: Message, left: Option<Message>) {
    if left.None? then !m.role.User? else left.value.role == m.role && left.value.id == m.id
  }

  /** `left` is `m` up to results and reasoning. */
  ghost predicate KeepsMessage(m: Message, left: Option<Message>) {
    && KeepsTurn(m, left)
    && Skeleton(m.role, m.parts, |m.parts|)
       == if left.None? then [] else Skeleton(m.role, left.value.parts, |left.value.parts|)
  }

  lemma ReducedMessageKeeps(y: Policy, m: Message, retain: bool)
    requires IsPolicy(y)
    ensures KeepsMessage(m, ReducedMessage(y, m, retain))
  {
    forall j | 0 <= j < |m.parts| ensures KeepsPart(m.parts[j], PartResults(y, m.parts, retain)[j]) {
      ReducedPartKeepsSkeleton(y, m.parts[j], retain);
    }
    PresentKeepsSkeleton(m.role, m.parts, PartResults(y, m.parts, retain), |m.parts|);
  }

  /** The user turns, by id. */
  function UserIds(h: seq<Message>, n: nat): seq<string>
    requires n <= |h|
  {
    if n == 0 then [] else UserIds(h, n - 1) + (if h[n - 1].role.User? then [h[n - 1].id] else [])
  }

  lemma {:induction false} UserIdsPrefix(a: seq<Message>, b: seq<Message>, n: nat)
    requires n <= |a| && n <= |b| && forall k :: 0 <= k < n ==> a[k] == b[k]
    ensures UserIds(a, n) == UserIds(b, n)
  {
    if n > 0 {
      UserIdsPrefix(a, b, n - 1);
    }
  }

  /** One more kept or dropped turn shows as itself, or as nothing. */
  lemma OneMoreTurn(h: seq<Message>, results: seq<Option<Message>>, n: nat)
    requires 0 < n <= |h| == |results| && KeepsMessage(h[n - 1], results[n - 1])
    ensures SkeletonOf(Present(results, n), |Present(results, n)|)
         == SkeletonOf(Present(results, n - 1), |Present(results, n - 1)|)
            + Skeleton(h[n - 1].role, h[n - 1].parts, |h[n - 1].parts|)
  {
    var before := Present(results, n - 1);
    SkeletonOfPrefix(Present(results, n), before, |before|);
  }

  lemma {:induction false} PresentKeepsHistory(h: seq<Message>, results: seq<Option<Message>>, n: nat)
    requires n <= |h| == |results| && forall i :: 0 <= i < n ==> KeepsMessage(h[i], results[i])
    ensures SkeletonOf(Present(results, n), |Present(results, n)|) == SkeletonOf(h, n)
  {
    if n > 0 {
      PresentKeepsHistory(h, results, n - 1);
      OneMoreTurn(h, results, n);
    }
  }

  lemma OneMoreUser(h: seq<Message>, results: seq<Option<Message>>, n: nat)
    requires 0 < n <= |h| == |results| && KeepsTurn(h[n - 1], results[n - 1])
    ensures UserIds(Present(results, n), |Present(results, n)|)
         == UserIds(Present(results, n - 1), |Present(results, n - 1)|)
            + (if h[n - 1].role.User? then [h[n - 1].id] else [])
  {
    var before := Present(results, n - 1);
    UserIdsPrefix(Present(results, n), before, |before|);
  }

  lemma {:induction false} PresentKeepsUsers(h: seq<Message>, results: seq<Option<Message>>, n: nat)
    requires n <= |h| == |results| && forall i :: 0 <= i < n ==> KeepsTurn(h[i], results[i])
    ensures UserIds(Present(results, n), |Present(results, n)|) == UserIds(h, n)
  {
    if n > 0 {
      PresentKeepsUsers(h, results, n - 1);
      OneMoreUser(h, results, n);
    }
  }

  /** Tool pairing, texts and order survive reduction, and no user turn is dropped. */
  lemma ReductionKeepsSkeleton(y: Policy, h: seq<Message>, from: nat)
    requires IsPolicy(y)
    ensures SkeletonOf(ReducedHistory(y, h, from), |ReducedHistory(y, h, from)|) == SkeletonOf(h, |h|)
    ensures UserIds(ReducedHistory(y, h, from), |ReducedHistory(y, h, from)|) == UserIds(h, |h|)
  {
    forall i | 0 <= i < |h| ensures KeepsMessage(h[i], MessageResults(y, h, from)[i]) {
      ReducedMessageKeeps(y, h[i], i >= from);
    }
    PresentKeepsHistory(h, MessageResults(y, h, from), |h|);
    PresentKeepsUsers(h, MessageResults(y, h, from), |h|);
  }

  // ---- What reduction bounds ----

  predicate HasLongOutput(p: Part, maxChars: nat) {
    p.output.Some? && p.output.value.JString? && |p.output.value.text| > maxChars
  }

  ghost predicate IsErrorNotice(text: string) {
    exists chars: nat :: text == ErrorNotice(chars)
  }

  /** Text outputs are within the cap, failed calls excepted; the error text of a failed
      call is within the cap or is the notice that replaces it. */
  ghost predicate WithinCap(y: Policy, p: Part) {
    && (p.kind.Call? && HasLongOutput(p, y.maxChars) ==> p.state.OutputError?)
    && (p.kind.Call? && p.state.OutputError? && p.errorText.Some? ==>
          |p.errorText.value| <= y.maxChars || IsErrorNotice(p.errorText.value))
  }

  lemma ErrorNoticeLength(chars: nat)
    ensures |ErrorNotice(chars)| == 98 + |Render(chars)|
  {}

  lemma ReducedPartIsWithinCap(y: Policy, p: Part, retain: bool)
    requires IsPolicy(y) && y.maxChars >= FALLBACK && ReducedPart(y, p, retain).Some?
    ensures WithinCap(y, ReducedPart(y, p, retain).value)
  {
    if TooLarge(y, p) && !p.state.OutputError? {
      BoundedExactlyWhen(y.wording, p.output.value.text, y.maxChars, y.share);
    }
  }

  lemma {:induction false} PresentComesFrom<T>(results: seq<Option<T>>, n: nat)
    requires n <= |results|
    ensures forall v :: v in Present(results, n) ==> exists i :: 0 <= i < n && results[i] == Some(v)
  {
    if n > 0 {
      PresentComesFrom(results, n - 1);
    }
  }

  /** Every string result that is sent is within the cap; only error parts, whose size is
      judged by their error text, may carry a longer output. */
  lemma ResultsAreBounded(y: Policy, h: seq<Message>, from: nat, m: Message, p: Part)
    requires IsPolicy(y) && y.maxChars >= FALLBACK && m in ReducedHistory(y, h, from) && p in m.parts
    ensures WithinCap(y, p)
  {
    PresentComesFrom(MessageResults(y, h, from), |h|);
    var i :| 0 <= i < |h| && MessageResults(y, h, from)[i] == Some(m);
    var results := PartResults(y, h[i].parts, i >= from);
    PresentComesFrom(results, |h[i].parts|);
    var j :| 0 <= j < |h[i].parts| && results[j] == Some(p);
    ReducedPartIsWithinCap(y, h[i].parts[j], i >= from);
  }

  /** The exception is real, and the only one: a text output over the cap is sent exactly
      for a failed call whose error text is within the cap. */
  lemma LongOutputIsSentExactlyWhen(y: Policy, p: Part, retain: bool)
    requires IsPolicy(y) && y.maxChars >= FALLBACK && p.kind.Call?
    ensures var left := ReducedPart(y, p, retain);
            left.Some? && (HasLongOutput(left.value, y.maxChars) <==>
              HasLongOutput(p, y.maxChars) && p.state.OutputError? && ResultChars(p) <= y.maxChars)
  {
    if TooLarge(y, p) && !p.state.OutputError? {
      BoundedExactlyWhen(y.wording, p.output.value.text, y.maxChars, y.share);
    }
  }

  function FailedCall(output: string): Part {
    Part(Call(false), "call", OutputError, None, NoRawInput, Some(JString(output)), Some(""), false, "", 0, 0)
  }

  /** A failed call with a short error text sends an output of any length. */
  lemma FailedCallSendsItsOutput(y: Policy, retain: bool)
    requires IsPolicy(y)
    ensures forall text: string :: ReducedPart(y, FailedCall(text), retain) == Some(FailedCall(text))
  {}

  // ---- The reasoning account ----

  function ReasoningChars(parts: seq<Part>, n: nat): nat
    requires n <= |parts|
  {
    if n == 0 then 0 else ReasoningChars(parts, n - 1) + Weight(parts[n - 1])
  }

  function HistoryReasoning(h: seq<Message>, n: nat): nat
    requires n <= |h|
  {
    if n == 0 then 0 else HistoryReasoning(h, n - 1) + ReasoningChars(h[n - 1].parts, |h[n - 1].parts|)
  }

  lemma {:induction false} ReasoningPrefix(a: seq<Part>, b: seq<Part>, n: nat)
    requires n <= |a| && n <= |b| && forall k :: 0 <= k < n ==> a[k] == b[k]
    ensures ReasoningChars(a, n) == ReasoningChars(b, n)
  {
    if n > 0 {
      ReasoningPrefix(a, b, n - 1);
    }
  }

  lemma {:induction false} HistoryReasoningPrefix(a: seq<Message>, b: seq<Message>, n: nat)
    requires n <= |a| && n <= |b| && forall k :: 0 <= k < n ==> a[k] == b[k]
    ensures HistoryReasoning(a, n) == HistoryReasoning(b, n)
  {
    if n > 0 {
      HistoryReasoningPrefix(a, b, n - 1);
    }
  }

  function Weight(p: Part): nat {
    if p.kind.Reasoning? then |p.text| else 0
  }

  lemma ReasoningOfPart(y: Policy, p: Part, retain: bool)
    requires IsPolicy(y)
    ensures ReducedPart(y, p, retain).Some? ==>
            Weight(p) - PartReport(y, p, retain).removedReasoningChars == Weight(ReducedPart(y, p, retain).value)
    ensures ReducedPart(y, p, retain).None? ==> Weight(p) == PartReport(y, p, retain).removedReasoningChars
  {}

  function PartLeft(left: Option<Part>): nat {
    if left.Some? then Weight(left.value) else 0
  }

  function TurnLeft(left: Option<Message>): nat {
    if left.Some? then ReasoningChars(left.value.parts, |left.value.parts|) else 0
  }

  lemma PresentReasoning(results: seq<Option<Part>>, n: nat)
    requires 0 < n <= |results|
    ensures ReasoningChars(Present(results, n), |Present(results, n)|)
         == ReasoningChars(Present(results, n - 1), |Present(results, n - 1)|) + PartLeft(results[n - 1])
  {
    ReasoningPrefix(Present(results, n), Present(results, n - 1), |Present(results, n - 1)|);
  }

  lemma PresentTurns(results: seq<Option<Message>>, n: nat)
    requires 0 < n <= |results|
    ensures HistoryReasoning(Present(results, n), |Present(results, n)|)
         == HistoryReasoning(Present(results, n - 1), |Present(results, n - 1)|) + TurnLeft(results[n - 1])
  {
    HistoryReasoningPrefix(Present(results, n), Present(results, n - 1), |Present(results, n - 1)|);
  }

  lemma {:induction false} PartsReasoning(y: Policy, parts: seq<Part>, retain: bool, results: seq<Option<Part>>, n: nat)
    requires IsPolicy(y) && n <= |parts| == |results|
    requires forall j :: 0 <= j < |parts| ==> results[j] == ReducedPart(y, parts[j], retain)
    ensures ReasoningChars(Present(results, n), |Present(results, n)|)
         == ReasoningChars(parts, n) - PartsReport(y, parts, retain, n).removedReasoningChars
  {
    if n > 0 {
      PartsReasoning(y, parts, retain, results, n - 1);
      ReasoningOfPart(y, parts[n - 1], retain);
      PresentReasoning(results, n);
    }
  }

  ghost predicate Accounted(y: Policy, m: Message, retain: bool, left: Option<Message>)
    requires IsPolicy(y)
  {
    var removed := PartsReport(y, m.parts, retain, |m.parts|).removedReasoningChars;
    TurnLeft(left) + removed == ReasoningChars(m.parts, |m.parts|)
  }

  lemma TurnReasoning(y: Policy, m: Message, retain: bool)
    requires IsPolicy(y)
    ensures Accounted(y, m, retain, ReducedMessage(y, m, retain))
  {
    PartsReasoning(y, m.parts, retain, PartResults(y, m.parts, retain), |m.parts|);
  }

  lemma {:induction false} TurnsReasoning(y: Policy, h: seq<Message>, from: nat, results: seq<Option<Message>>, n: nat)
    requires IsPolicy(y) && n <= |h| == |results|
    requires forall i :: 0 <= i < |h| ==> Accounted(y, h[i], i >= from, results[i])
    ensures HistoryReasoning(Present(results, n), |Present(results, n)|)
         == HistoryReasoning(h, n) - HistoryReport(y, h, from, n).removedReasoningChars
  {
    if n > 0 {
      TurnsReasoning(y, h, from, results, n - 1);
      assert Accounted(y, h[n - 1], n - 1 >= from, results[n - 1]);
      PresentTurns(results, n);
    }
  }

  /** The reported reasoning removal is the exact difference, also when traces grew. */
  lemma ReasoningIsAccountedFor(y: Policy, h: seq<Message>, from: nat)
    requires IsPolicy(y)
    ensures HistoryReasoning(h, |h|) - HistoryReasoning(ReducedHistory(y, h, from), |ReducedHistory(y, h, from)|)
         == HistoryReport(y, h, from, |h|).removedReasoningChars
  {
    forall i | 0 <= i < |h| ensures Accounted(y, h[i], i >= from, MessageResults(y, h, from)[i]) {
      TurnReasoning(y, h[i], i >= from);
    }
    TurnsReasoning(y, h, from, MessageResults(y, h, from), |h|);
  }
}
