/** What reduction leaves of a history and reports about it, in terms of the stored fields alone. */
module ReduceRules {
  import opened Options
  import opened UiMessages
  import opened ReduceText
  import opened ReduceMessages

  // ---- Single parts ----

  /** A failed call is judged by its error text, any other by its text output. */
  function Size(p: Part): nat {
    if p.state.OutputError? && p.errorText.Some? then |p.errorText.value|
    else if !p.state.OutputError? && p.output.Some? && p.output.value.JString? then |p.output.value.text|
    else 0
  }

  predicate IsOversized(p: Part, cap: nat) {
    p.kind.Call? && Size(p) > cap
  }

  predicate IsOversizedFailure(p: Part, cap: nat) {
    IsOversized(p, cap) && p.state.OutputError?
  }

  /** A trace as it is sent: its beginning and a notice, unless that is as long as the trace. */
  function Trace(text: string, cap: nat): string {
    if |text| <= cap || |text[..cap] + ReasoningNotice(|text| - cap)| == |text| then text
    else text[..cap] + ReasoningNotice(|text| - cap)
  }

  /** Whether and how one part is sent. A call changes only when it is oversized: a failed one
      gets a notice for its error text and loses its output, any other has its output cut. */
  lemma PartIsSentExactlyWhen(y: Policy, p: Part, retain: bool)
    requires IsPolicy(y)
    ensures var left := ReducedPart(y, p, retain);
            && (p.kind.Reasoning? && retain ==> left == Some(p.(text := Trace(p.text, y.reasoningMaxChars))))
            && (p.kind.Reasoning? && !retain ==> left == None)
            && (!p.kind.Reasoning? && !IsOversized(p, y.maxChars) ==> left == Some(p))
            && (IsOversizedFailure(p, y.maxChars) ==>
                  left == Some(p.(output := None, errorText := Some(ErrorNotice(Size(p))))))
            && (IsOversized(p, y.maxChars) && !p.state.OutputError? ==>
                  var cut := Reduced(y.wording, p.output.value.text, y.maxChars, y.share);
                  left == Some(p.(output := Some(JString(cut)))))
  {}

  /** The report counts an oversized call once, a failed one also as dropped, and a trace that
      is dropped or changed. */
  lemma PartIsReportedExactlyWhen(y: Policy, p: Part, retain: bool)
    requires IsPolicy(y)
    ensures var report := PartReport(y, p, retain);
            && report.reducedParts == CallWeight(p, y)
            && report.droppedParts == FailureWeight(p, y)
            && report.removedChars == RemovedWeight(p, y)
            && report.reducedReasoningParts == TraceWeight(p, y, retain)
  {}

  function CallWeight(p: Part, y: Policy): nat {
    if IsOversized(p, y.maxChars) then 1 else 0
  }

  function FailureWeight(p: Part, y: Policy): nat {
    if IsOversizedFailure(p, y.maxChars) then 1 else 0
  }

  function RemovedWeight(p: Part, y: Policy): nat {
    if IsOversizedFailure(p, y.maxChars) then |p.errorText.value|
    else if IsOversized(p, y.maxChars) then Removed(p.output.value.text, y.maxChars)
    else 0
  }

  function TraceWeight(p: Part, y: Policy, retain: bool): nat {
    if p.kind.Reasoning? && (!retain || Trace(p.text, y.reasoningMaxChars) != p.text) then 1 else 0
  }

  lemma {:induction false} NothingPresent<T>(results: seq<Option<T>>, n: nat)
    requires n <= |results|
    ensures Present(results, n) == [] <==> forall j :: 0 <= j < n ==> results[j].None?
  {
    if n > 0 {
      NothingPresent(results, n - 1);
    }
  }

  /** A turn disappears exactly when it is not the user's and held at most old reasoning. */
  lemma TurnIsDroppedExactlyWhen(y: Policy, m: Message, retain: bool)
    requires IsPolicy(y)
    ensures ReducedMessage(y, m, retain).None? <==>
            !m.role.User? && forall j :: 0 <= j < |m.parts| ==> m.parts[j].kind.Reasoning? && !retain
  {
    var results := PartResults(y, m.parts, retain);
    NothingPresent(results, |m.parts|);
    forall j | 0 <= j < |m.parts| ensures results[j].None? <==> m.parts[j].kind.Reasoning? && !retain {
      PartIsSentExactlyWhen(y, m.parts[j], retain);
    }
  }

  // ---- The report ----

  /** One of the last `retainLast` messages. */
  predicate IsRecent(y: Policy, h: seq<Message>, i: nat) {
    |h| - i <= y.retainLast
  }

  lemma RecentExactlyWhen(y: Policy, h: seq<Message>, i: nat)
    requires i < |h|
    ensures i >= KeepReasoningFrom(y, h) <==> IsRecent(y, h, i)
  {}

  /** A sum over all parts of the first `n` of a message. */
  ghost function InMessage(parts: seq<Part>, weigh: Part -> nat, n: nat): nat
    requires n <= |parts|
  {
    if n == 0 then 0 else InMessage(parts, weigh, n - 1) + weigh(parts[n - 1])
  }

  /** A sum over all parts of the first `n` messages; `weigh` is told which message it is. */
  ghost function InAll(h: seq<Message>, weigh: nat -> Part -> nat, n: nat): nat
    requires n <= |h|
  {
    if n == 0 then 0 else InAll(h, weigh, n - 1) + InMessage(h[n - 1].parts, weigh(n - 1), |h[n - 1].parts|)
  }

  lemma {:induction false} MessageIsReported(y: Policy, parts: seq<Part>, retain: bool, n: nat)
    requires IsPolicy(y) && n <= |parts|
    ensures var report := PartsReport(y, parts, retain, n);
            && report.reducedParts == InMessage(parts, p => CallWeight(p, y), n)
            && report.droppedParts == InMessage(parts, p => FailureWeight(p, y), n)
            && report.removedChars == InMessage(parts, p => RemovedWeight(p, y), n)
            && report.reducedReasoningParts == InMessage(parts, p => TraceWeight(p, y, retain), n)
  {
    if n > 0 {
      MessageIsReported(y, parts, retain, n - 1);
      PartIsReportedExactlyWhen(y, parts[n - 1], retain);
    }
  }

  /** The numbers of the report are what the history holds: oversized calls, the failed ones
      among them, and traces that are old or too long. */
  lemma {:induction false} HistoryIsReported(y: Policy, h: seq<Message>, n: nat)
    requires IsPolicy(y) && n <= |h|
    ensures var report := HistoryReport(y, h, KeepReasoningFrom(y, h), n);
            && report.reducedParts == InAll(h, i => p => CallWeight(p, y), n)
            && report.droppedParts == InAll(h, i => p => FailureWeight(p, y), n)
            && report.removedChars == InAll(h, i => p => RemovedWeight(p, y), n)
            && report.reducedReasoningParts == InAll(h, i => p => TraceWeight(p, y, IsRecent(y, h, i)), n)
  {
    if n > 0 {
      HistoryIsReported(y, h, n - 1);
      RecentExactlyWhen(y, h, n - 1);
      MessageIsReported(y, h[n - 1].parts, IsRecent(y, h, n - 1), |h[n - 1].parts|);
    }
  }

  // ---- Which reasoning survives ----

  /** The reasoning texts among the first `n` parts. */
  function Traces(parts: seq<Part>, n: nat): seq<string>
    requires n <= |parts|
  {
    if n == 0 then [] else Traces(parts, n - 1) + TraceOf(parts[n - 1])
  }

  function TraceOf(p: Part): seq<string> {
    if p.kind.Reasoning? then [p.text] else []
  }

  function TracesIn(h: seq<Message>, n: nat): seq<string>
    requires n <= |h|
  {
    if n == 0 then [] else TracesIn(h, n - 1) + Traces(h[n - 1].parts, |h[n - 1].parts|)
  }

  /** What is sent of the reasoning among the first `n` parts. */
  function SentTraces(parts: seq<Part>, cap: nat, retain: bool, n: nat): seq<string>
    requires n <= |parts|
  {
    if n == 0 then [] else SentTraces(parts, cap, retain, n - 1) + SentTrace(parts[n - 1], cap, retain)
  }

  function SentTrace(p: Part, cap: nat, retain: bool): seq<string> {
    if p.kind.Reasoning? && retain then [Trace(p.text, cap)] else []
  }

  /** What is sent of the reasoning of message `i`. */
  function RecentOf(y: Policy, h: seq<Message>, i: nat): seq<string>
    requires i < |h|
  {
    SentTraces(h[i].parts, y.reasoningMaxChars, IsRecent(y, h, i), |h[i].parts|)
  }

  function RecentTraces(y: Policy, h: seq<Message>): (sent: seq<seq<string>>)
    ensures |sent| == |h| && forall i :: 0 <= i < |h| ==> sent[i] == RecentOf(y, h, i)
  {
    seq(|h|, i requires 0 <= i < |h| => RecentOf(y, h, i))
  }

  function Joined(rows: seq<seq<string>>, n: nat): seq<string>
    requires n <= |rows|
  {
    if n == 0 then [] else Joined(rows, n - 1) + rows[n - 1]
  }

  lemma {:induction false} TracesPrefix(a: seq<Part>, b: seq<Part>, n: nat)
    requires n <= |a| && n <= |b| && forall k :: 0 <= k < n ==> a[k] == b[k]
    ensures Traces(a, n) == Traces(b, n)
  {
    if n > 0 {
      TracesPrefix(a, b, n - 1);
    }
  }

  lemma {:induction false} TracesInPrefix(a: seq<Message>, b: seq<Message>, n: nat)
    requires n <= |a| && n <= |b| && forall k :: 0 <= k < n ==> a[k] == b[k]
    ensures TracesIn(a, n) == TracesIn(b, n)
  {
    if n > 0 {
      TracesInPrefix(a, b, n - 1);
    }
  }

  function TraceLeft(left: Option<Part>): seq<string> {
    if left.None? then [] else TraceOf(left.value)
  }

  lemma PartLeavesTrace(y: Policy, p: Part, retain: bool)
    requires IsPolicy(y)
    ensures TraceLeft(ReducedPart(y, p, retain)) == SentTrace(p, y.reasoningMaxChars, retain)
  {
    PartIsSentExactlyWhen(y, p, retain);
  }

  lemma OneMorePartLeft(results: seq<Option<Part>>, n: nat)
    requires 0 < n <= |results|
    ensures Traces(Present(results, n), |Present(results, n)|)
         == Traces(Present(results, n - 1), |Present(results, n - 1)|) + TraceLeft(results[n - 1])
  {
    TracesPrefix(Present(results, n), Present(results, n - 1), |Present(results, n - 1)|);
  }

  lemma {:induction false} TracesOfMessage(parts: seq<Part>, cap: nat, retain: bool, results: seq<Option<Part>>, n: nat)
    requires n <= |parts| == |results|
    requires forall j :: 0 <= j < |parts| ==> TraceLeft(results[j]) == SentTrace(parts[j], cap, retain)
    ensures Traces(Present(results, n), |Present(results, n)|) == SentTraces(parts, cap, retain, n)
  {
    if n > 0 {
      TracesOfMessage(parts, cap, retain, results, n - 1);
      OneMorePartLeft(results, n);
      assert TraceLeft(results[n - 1]) == SentTrace(parts[n - 1], cap, retain);
    }
  }

  function TracesLeft(left: Option<Message>): seq<string> {
    if left.None? then [] else Traces(left.value.parts, |left.value.parts|)
  }

  lemma TurnLeavesTraces(y: Policy, h: seq<Message>, i: nat)
    requires IsPolicy(y) && i < |h|
    ensures TracesLeft(ReducedMessage(y, h[i], i >= KeepReasoningFrom(y, h))) == RecentOf(y, h, i)
  {
    var parts, retain := h[i].parts, IsRecent(y, h, i);
    RecentExactlyWhen(y, h, i);
    forall j | 0 <= j < |parts|
      ensures TraceLeft(PartResults(y, parts, retain)[j]) == SentTrace(parts[j], y.reasoningMaxChars, retain)
    {
      PartLeavesTrace(y, parts[j], retain);
    }
    TracesOfMessage(parts, y.reasoningMaxChars, retain, PartResults(y, parts, retain), |parts|);
  }

  lemma OneMoreTurnLeft(results: seq<Option<Message>>, n: nat)
    requires 0 < n <= |results|
    ensures TracesIn(Present(results, n), |Present(results, n)|)
         == TracesIn(Present(results, n - 1), |Present(results, n - 1)|) + TracesLeft(results[n - 1])
  {
    TracesInPrefix(Present(results, n), Present(results, n - 1), |Present(results, n - 1)|);
  }

  lemma {:induction false} TracesOfHistory(results: seq<Option<Message>>, sent: seq<seq<string>>, n: nat)
    requires n <= |results| == |sent| && forall i :: 0 <= i < |sent| ==> TracesLeft(results[i]) == sent[i]
    ensures TracesIn(Present(results, n), |Present(results, n)|) == Joined(sent, n)
  {
    if n > 0 {
      TracesOfHistory(results, sent, n - 1);
      OneMoreTurnLeft(results, n);
      assert TracesLeft(results[n - 1]) == sent[n - 1];
    }
  }

  /** Sent is the reasoning of the last `retainLast` messages and no other, in order, each
      trace at most shortened to its cap. */
  lemma RecentReasoningIsSent(y: Policy, h: seq<Message>)
    requires IsPolicy(y)
    ensures var sent := ReducedHistory(y, h, KeepReasoningFrom(y, h));
            TracesIn(sent, |sent|) == Joined(RecentTraces(y, h), |h|)
  {
    var results := MessageResults(y, h, KeepReasoningFrom(y, h));
    forall i | 0 <= i < |h| ensures TracesLeft(results[i]) == RecentTraces(y, h)[i] {
      TurnLeavesTraces(y, h, i);
    }
    TracesOfHistory(results, RecentTraces(y, h), |h|);
  }
}
