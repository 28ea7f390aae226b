/** Estimated size of a request, in characters and in a band of token counts. */
module Measure {
  import opened Options
  import opened UiMessages
  import opened PruneMessages

  const STRUCTURAL_CHARS_PER_MESSAGE := 4

  datatype Category =
    | Instructions | ToolDefinitions | UserText | AssistantText | ReasoningText
    | ToolCalls | ToolResults | McpResults | Attachments | DataParts | OtherParts

  /** Size of a value as it would travel, punctuation included. */
  function MeasureValue(v: Json): nat {
    match v
    case JNull => 0
    case JBool(b) => if b then 4 else 5
    case JNumber(literal) => |literal|
    case JString(text) => |text|
    case JArray(items) => 2 + MeasureItems(items)
    case JObject(fields) => 2 + MeasureFields(fields)
  }

  function MeasureItems(items: seq<Json>): nat {
    if items == [] then 0 else MeasureValue(items[0]) + 1 + MeasureItems(items[1..])
  }

  function MeasureFields(fields: seq<Field>): nat {
    if fields == [] then 0
    else |fields[0].name| + 3 + MeasureValue(fields[0].value) + MeasureFields(fields[1..])
  }

  function MeasureOptional(v: Option<Json>): nat {
    if v.Some? then MeasureValue(v.value) else 0
  }

  function ClassifyPart(p: Part): (Category, nat) {
    match p.kind
    case Text => (AssistantText, |p.text|)
    case Reasoning => (ReasoningText, |p.text|)
    case Attachment => (Attachments, p.wholeChars)
    case Data => (DataParts, p.wholeChars)
    case StepStart => (OtherParts, 0)
    case Marker => (OtherParts, 0)
    case ApprovalResponse => (ToolCalls, p.wholeChars)
    case Call(mcp) =>
      if !HasResult(p) then (ToolCalls, MeasureOptional(p.input) + |p.toolCallId|)
      else if mcp then (McpResults, MeasureOptional(p.output))
      else (ToolResults, MeasureOptional(p.output))
    case Other => (OtherParts, p.wholeChars)
  }

  /** The category a part counts for depends on whose message it is in. */
  function EffectiveCategory(role: Role, p: Part): Category {
    var c := ClassifyPart(p).0;
    if c == AssistantText && role.User? then UserText else c
  }

  function PartsChars(parts: seq<Part>, n: nat): nat
    requires n <= |parts|
  {
    if n == 0 then 0 else PartsChars(parts, n - 1) + ClassifyPart(parts[n - 1]).1
  }

  function MessageChars(m: Message): nat {
    STRUCTURAL_CHARS_PER_MESSAGE + PartsChars(m.parts, |m.parts|)
  }

  function HistoryChars(h: seq<Message>, n: nat): nat
    requires n <= |h|
  {
    if n == 0 then 0 else HistoryChars(h, n - 1) + MessageChars(h[n - 1])
  }

  /** Characters a history contributes to one category. */
  function CategoryChars(h: seq<Message>, c: Category, n: nat): nat
    requires n <= |h|
  {
    if n == 0 then 0 else CategoryChars(h, c, n - 1) + InMessage(h[n - 1], c, |h[n - 1].parts|)
  }

  function InMessage(m: Message, c: Category, n: nat): nat
    requires n <= |m.parts|
  {
    if n == 0 then 0
    else
      InMessage(m, c, n - 1) +
      (if EffectiveCategory(m.role, m.parts[n - 1]) == c then ClassifyPart(m.parts[n - 1]).1 else 0)
  }

  /** The measuring loop. */
  method MeasureMessages(h: seq<Message>) returns (byCategory: map<Category, nat>, totalChars: nat)
    ensures totalChars == HistoryChars(h, |h|)
    ensures forall c :: c in byCategory && byCategory[c] == CategoryChars(h, c, |h|)
  {
    byCategory := map[
      Instructions := 0, ToolDefinitions := 0, UserText := 0, AssistantText := 0, ReasoningText := 0,
      ToolCalls := 0, ToolResults := 0, McpResults := 0, Attachments := 0, DataParts := 0, OtherParts := 0];
    totalChars := 0;
    assert forall c: Category :: c in byCategory && byCategory[c] == 0 by {
      forall c: Category ensures c in byCategory && byCategory[c] == 0 {
        match c {
          case Instructions => case ToolDefinitions => case UserText => case AssistantText =>
          case ReasoningText => case ToolCalls => case ToolResults => case McpResults =>
          case Attachments => case DataParts => case OtherParts =>
        }
      }
    }
    for i := 0 to |h|
      invariant totalChars == HistoryChars(h, i)
      invariant forall c :: c in byCategory && byCategory[c] == CategoryChars(h, c, i)
    {
      var m := h[i];
      var messageChars := STRUCTURAL_CHARS_PER_MESSAGE;
      for j := 0 to |m.parts|
        invariant messageChars == STRUCTURAL_CHARS_PER_MESSAGE + PartsChars(m.parts, j)
        invariant forall c :: c in byCategory && byCategory[c] == CategoryChars(h, c, i) + InMessage(m, c, j)
      {
        var effective, chars := EffectiveCategory(m.role, m.parts[j]), ClassifyPart(m.parts[j]).1;
        byCategory := byCategory[effective := byCategory[effective] + chars];
        messageChars := messageChars + chars;
      }
      totalChars := totalChars + messageChars;
    }
  }

  /** Summed over the categories a message part can fall into. */
  function InMessageAll(m: Message, n: nat): nat
    requires n <= |m.parts|
  {
    InMessage(m, UserText, n) + InMessage(m, AssistantText, n) + InMessage(m, ReasoningText, n)
    + InMessage(m, ToolCalls, n) + InMessage(m, ToolResults, n) + InMessage(m, McpResults, n)
    + InMessage(m, Attachments, n) + InMessage(m, DataParts, n) + InMessage(m, OtherParts, n)
  }

  /** What one part counts for a category. */
  function InPart(role: Role, p: Part, c: Category): nat {
    if EffectiveCategory(role, p) == c then ClassifyPart(p).1 else 0
  }

  /** A part counts for exactly one of the categories a message part can fall into. */
  lemma PartCountsOnce(role: Role, p: Part)
    ensures InPart(role, p, UserText) + InPart(role, p, AssistantText) + InPart(role, p, ReasoningText)
            + InPart(role, p, ToolCalls) + InPart(role, p, ToolResults) + InPart(role, p, McpResults)
            + InPart(role, p, Attachments) + InPart(role, p, DataParts) + InPart(role, p, OtherParts)
         == ClassifyPart(p).1
    ensures InPart(role, p, Instructions) == 0 && InPart(role, p, ToolDefinitions) == 0
  {}

  lemma InMessageStep(m: Message, c: Category, n: nat)
    requires 0 < n <= |m.parts|
    ensures InMessage(m, c, n) == InMessage(m, c, n - 1) + InPart(m.role, m.parts[n - 1], c)
  {}

  lemma OneMorePartCovered(m: Message, n: nat)
    requires 0 < n <= |m.parts|
    ensures InMessageAll(m, n) == InMessageAll(m, n - 1) + ClassifyPart(m.parts[n - 1]).1
    ensures InMessage(m, Instructions, n) == InMessage(m, Instructions, n - 1)
    ensures InMessage(m, ToolDefinitions, n) == InMessage(m, ToolDefinitions, n - 1)
  {
    forall c: Category ensures InMessage(m, c, n) == InMessage(m, c, n - 1) + InPart(m.role, m.parts[n - 1], c) {
      InMessageStep(m, c, n);
    }
    PartCountsOnce(m.role, m.parts[n - 1]);
  }

  lemma {:induction false} CategoriesCoverMessage(m: Message, n: nat)
    requires n <= |m.parts|
    ensures InMessageAll(m, n) == PartsChars(m.parts, n)
    ensures InMessage(m, Instructions, n) == 0 && InMessage(m, ToolDefinitions, n) == 0
  {
    if n > 0 {
      CategoriesCoverMessage(m, n - 1);
      OneMorePartCovered(m, n);
    }
  }

  function CategorySum(h: seq<Message>, n: nat): nat
    requires n <= |h|
  {
    CategoryChars(h, UserText, n) + CategoryChars(h, AssistantText, n) + CategoryChars(h, ReasoningText, n)
    + CategoryChars(h, ToolCalls, n) + CategoryChars(h, ToolResults, n) + CategoryChars(h, McpResults, n)
    + CategoryChars(h, Attachments, n) + CategoryChars(h, DataParts, n) + CategoryChars(h, OtherParts, n)
  }

  lemma OneMoreMessageSummed(h: seq<Message>, n: nat)
    requires 0 < n <= |h|
    ensures CategorySum(h, n) == CategorySum(h, n - 1) + InMessageAll(h[n - 1], |h[n - 1].parts|)
  {}

  /** Characters of the first `n` messages that no category counts. */
  function Unattributed(h: seq<Message>, n: nat): int
    requires n <= |h|
  {
    HistoryChars(h, n) - CategorySum(h, n)
  }

  lemma OneMoreUnattributed(h: seq<Message>, n: nat)
    requires 0 < n <= |h|
    ensures Unattributed(h, n) == Unattributed(h, n - 1) + STRUCTURAL_CHARS_PER_MESSAGE
  {
    OneMoreMessageSummed(h, n);
    CategoriesCoverMessage(h[n - 1], |h[n - 1].parts|);
  }

  lemma {:induction false} OverheadIsUnattributed(h: seq<Message>, n: nat)
    requires n <= |h|
    ensures Unattributed(h, n) == STRUCTURAL_CHARS_PER_MESSAGE * n
  {
    if n > 0 {
      OverheadIsUnattributed(h, n - 1);
      OneMoreUnattributed(h, n);
    }
  }

  /** No character is attributed twice or not at all; only the per-message overhead is
      left unattributed. */
  lemma CategoriesCoverHistory(h: seq<Message>, n: nat)
    requires n <= |h|
    ensures CategorySum(h, n) + 4 * n == HistoryChars(h, n)
  {
    OverheadIsUnattributed(h, n);
  }

  // ---- Pruning can only shrink the measured size ----

  lemma {:induction false} PartsCharsPrefix(a: seq<Part>, b: seq<Part>, n: nat)
    requires n <= |a| && n <= |b| && forall k :: 0 <= k < n ==> a[k] == b[k]
    ensures PartsChars(a, n) == PartsChars(b, n)
  {
    if n > 0 {
      PartsCharsPrefix(a, b, n - 1);
    }
  }

  lemma PartsCharsSnoc(a: seq<Part>, p: Part)
    ensures PartsChars(a + [p], |a| + 1) == PartsChars(a, |a|) + ClassifyPart(p).1
  {
    PartsCharsPrefix(a + [p], a, |a|);
  }

  lemma {:induction false} PartsCharsConcat(a: seq<Part>, b: seq<Part>, n: nat)
    requires n <= |b|
    ensures PartsChars(a + b, |a| + n) == PartsChars(a, |a|) + PartsChars(b, n)
  {
    if n == 0 {
      PartsCharsPrefix(a + b, a, |a|);
    } else {
      PartsCharsConcat(a, b, n - 1);
    }
  }

  lemma {:induction false} HistoryCharsPrefix(a: seq<Message>, b: seq<Message>, n: nat)
    requires n <= |a| && n <= |b| && forall k :: 0 <= k < n ==> a[k] == b[k]
    ensures HistoryChars(a, n) == HistoryChars(b, n)
  {
    if n > 0 {
      HistoryCharsPrefix(a, b, n - 1);
    }
  }

  lemma HistoryCharsSnoc(h: seq<Message>, m: Message)
    ensures HistoryChars(h + [m], |h| + 1) == HistoryChars(h, |h|) + MessageChars(m)
  {
    HistoryCharsPrefix(h + [m], h, |h|);
  }

  /** A part whose arguments are recovered already has a result, and the result is what
      is measured. */
  lemma RecoveryKeepsSize(p: Part)
    ensures ClassifyPart(WithRecoveredToolInput(p)).1 == ClassifyPart(p).1 || !p.kind.Call?
  {}

  lemma {:induction false} RepairedRowIsSmaller(keep: set<(nat, nat)>, parts: seq<Part>, i: nat, n: nat)
    requires n <= |parts|
    ensures PartsChars(KeptParts(keep, parts, i, n), |KeptParts(keep, parts, i, n)|) <= PartsChars(parts, n)
  {
    if n > 0 {
      RepairedRowIsSmaller(keep, parts, i, n - 1);
      var row, p := KeptParts(keep, parts, i, n - 1), parts[n - 1];
      RecoveryKeepsSize(p);
      if !Identified(p) {
        PartsCharsSnoc(row, p);
      } else if (i, n - 1) in keep {
        PartsCharsSnoc(row, WithRecoveredToolInput(p));
      } else {
        assert row + [] == row;
      }
    }
  }

  lemma {:induction false} RepairedIsSmaller(keep: set<(nat, nat)>, h: seq<Message>, n: nat)
    requires n <= |h|
    ensures HistoryChars(Repaired(keep, h, n), n) <= HistoryChars(h, n)
  {
    if n > 0 {
      RepairedIsSmaller(keep, h, n - 1);
      var m := h[n - 1];
      RepairedRowIsSmaller(keep, m.parts, n - 1, |m.parts|);
      HistoryCharsSnoc(Repaired(keep, h, n - 1), m.(parts := KeptParts(keep, m.parts, n - 1, |m.parts|)));
    }
  }

  lemma {:induction false} DropEmptyIsSmaller(h: seq<Message>, n: nat)
    requires n <= |h|
    ensures HistoryChars(DropEmpty(h, n), |DropEmpty(h, n)|) <= HistoryChars(h, n)
  {
    if n > 0 {
      DropEmptyIsSmaller(h, n - 1);
      if IsEmptyTurn(h[n - 1]) {
        assert DropEmpty(h, n) == DropEmpty(h, n - 1);
      } else {
        HistoryCharsSnoc(DropEmpty(h, n - 1), h[n - 1]);
      }
    }
  }

  lemma AppendIsSmaller(merged: seq<Message>, m: Message)
    ensures HistoryChars(Append(merged, m), |Append(merged, m)|) <= HistoryChars(merged, |merged|) + MessageChars(m)
  {
    if merged != [] && IsTextOnlyUser(merged[|merged| - 1]) && IsTextOnlyUser(m) {
      var init, prev := merged[..|merged| - 1], merged[|merged| - 1];
      assert merged == init + [prev];
      PartsCharsConcat(prev.parts, m.parts, |m.parts|);
      HistoryCharsSnoc(init, prev);
      HistoryCharsSnoc(init, prev.(parts := prev.parts + m.parts));
    } else {
      HistoryCharsSnoc(merged, m);
    }
  }

  lemma {:induction false} MergeIsSmaller(h: seq<Message>, n: nat)
    requires n <= |h|
    ensures HistoryChars(MergeRuns(h, n), |MergeRuns(h, n)|) <= HistoryChars(h, n)
  {
    if n > 0 {
      MergeIsSmaller(h, n - 1);
      AppendIsSmaller(MergeRuns(h, n - 1), h[n - 1]);
    }
  }

  lemma PruneNeverGrows(h: seq<Message>)
    ensures HistoryChars(Prune(h), |Prune(h)|) <= HistoryChars(h, |h|)
  {
    RepairedIsSmaller(KeepSet(h), h, |h|);
    DropEmptyIsSmaller(Repaired(KeepSet(h), h, |h|), |h|);
    MergeIsSmaller(NonEmpty(h), |NonEmpty(h)|);
  }

  // ---- The token band ----

  /** `ceil(chars * num / den)`. */
  function CeilRatio(chars: nat, num: nat, den: nat): (tokens: nat)
    requires den > 0
  {
    (chars * num + den - 1) / den
  }

  datatype Estimate = Estimate(low: nat, point: nat, high: nat)

  /** Five characters per token at best, three for the point estimate, two and a half at worst. */
  function EstimateOf(totalChars: nat): Estimate {
    Estimate(CeilRatio(totalChars, 1, 5), CeilRatio(totalChars, 1, 3), CeilRatio(totalChars, 2, 5))
  }

  lemma BandIsOrdered(chars: nat)
    ensures EstimateOf(chars).low <= EstimateOf(chars).point <= EstimateOf(chars).high
  {}

  lemma BandIsMonotone(a: nat, b: nat)
    requires a <= b
    ensures EstimateOf(a).low <= EstimateOf(b).low
    ensures EstimateOf(a).point <= EstimateOf(b).point
    ensures EstimateOf(a).high <= EstimateOf(b).high
  {}
}
