/** What sizes, bands, budgets and verdicts come to, in plain numbers. */
module SizeRules {
  import opened Options
  import opened UiMessages
  import opened Measure
  import opened Budget

  // ---- The size of a value ----

  /** The text a value is counted as: strings bare, null as nothing, every item of a list
      followed by a comma, every field as a quoted name, a colon and its value. */
  function Written(v: Json): string {
    match v
    case JNull => ""
    case JBool(b) => if b then "true" else "false"
    case JNumber(literal) => literal
    case JString(text) => text
    case JArray(items) => "[" + WrittenItems(items) + "]"
    case JObject(fields) => "{" + WrittenFields(fields) + "}"
  }

  function WrittenItems(items: seq<Json>): string {
    if items == [] then "" else Written(items[0]) + "," + WrittenItems(items[1..])
  }

  function WrittenFields(fields: seq<Field>): string {
    if fields == [] then ""
    else "\"" + fields[0].name + "\"" + ":" + Written(fields[0].value) + WrittenFields(fields[1..])
  }

  lemma {:induction false} SizeIsLength(v: Json)
    ensures MeasureValue(v) == |Written(v)|
  {
    match v
    case JArray(items) => ItemsSize(items);
    case JObject(fields) => FieldsSize(fields);
    case _ =>
  }

  lemma {:induction false} ItemsSize(items: seq<Json>)
    ensures MeasureItems(items) == |WrittenItems(items)|
  {
    if items != [] {
      SizeIsLength(items[0]);
      ItemsSize(items[1..]);
    }
  }

  lemma {:induction false} FieldsSize(fields: seq<Field>)
    ensures MeasureFields(fields) == |WrittenFields(fields)|
  {
    if fields != [] {
      SizeIsLength(fields[0].value);
      FieldsSize(fields[1..]);
    }
  }

  // ---- What a part counts for ----

  predicate HasEnded(p: Part) {
    p.output.Some? || p.state.OutputError? || p.state.OutputDenied?
  }

  /** A part counts for a category exactly when it is of these kinds. */
  predicate Belongs(role: Role, p: Part, c: Category) {
    match c
    case Instructions => false
    case ToolDefinitions => false
    case UserText => p.kind.Text? && role.User?
    case AssistantText => p.kind.Text? && !role.User?
    case ReasoningText => p.kind.Reasoning?
    case ToolCalls => p.kind.ApprovalResponse? || (p.kind.Call? && !HasEnded(p))
    case ToolResults => p.kind.Call? && HasEnded(p) && !p.kind.mcp
    case McpResults => p.kind.Call? && HasEnded(p) && p.kind.mcp
    case Attachments => p.kind.Attachment?
    case DataParts => p.kind.Data?
    case OtherParts => p.kind.StepStart? || p.kind.Marker? || p.kind.Other?
  }

  function Length(v: Option<Json>): nat {
    if v.Some? then |Written(v.value)| else 0
  }

  lemma PartBelongsExactlyWhen(role: Role, p: Part, c: Category)
    ensures EffectiveCategory(role, p) == c <==> Belongs(role, p, c)
  {}

  /** Texts count with their length, an unfinished call with its arguments and id, a finished
      one with its output alone, markers with nothing, all else as a whole. */
  lemma PartCountsExactlyWhen(p: Part)
    ensures var chars := ClassifyPart(p).1;
            && (p.kind.Text? || p.kind.Reasoning? ==> chars == |p.text|)
            && (p.kind.Call? && !HasEnded(p) ==> chars == Length(p.input) + |p.toolCallId|)
            && (p.kind.Call? && HasEnded(p) ==> chars == Length(p.output))
            && (p.kind.StepStart? || p.kind.Marker? ==> chars == 0)
            && (p.kind.Attachment? || p.kind.Data? || p.kind.ApprovalResponse? || p.kind.Other? ==>
                  chars == p.wholeChars)
  {
    if p.input.Some? {
      SizeIsLength(p.input.value);
    }
    if p.output.Some? {
      SizeIsLength(p.output.value);
    }
  }

  // ---- The band ----

  /** `tokens` is the least number whose `num / den` characters each hold `chars` characters. */
  predicate IsLeast(tokens: nat, chars: nat, num: nat, den: nat) {
    tokens * num >= chars * den && (tokens > 0 ==> (tokens - 1) * num < chars * den)
  }

  /** Five characters a token at best, three as the estimate, two and a half at worst, each
      time rounded up. */
  lemma BandExactlyWhen(chars: nat, tokens: nat)
    ensures EstimateOf(chars).low == tokens <==> IsLeast(tokens, chars, 5, 1)
    ensures EstimateOf(chars).point == tokens <==> IsLeast(tokens, chars, 3, 1)
    ensures EstimateOf(chars).high == tokens <==> IsLeast(tokens, chars, 5, 2)
  {}

  // ---- The division of the window ----

  /** What a model is asked to leave for its answer. */
  function Reserved(output: Option<int>): int {
    if output.None? || output.value <= 0 then 4_096 else if output.value <= 32_000 then output.value else 32_000
  }

  function Wanted(output: Option<int>): int {
    if output.None? || output.value <= 0 then 4_096 else output.value
  }

  /** A window is divided without rest into reservation, margin and usable input, the margin
      being a quarter of what the reservation leaves, rounded down. The answer may take all
      but the usable input, and no more than is wanted. */
  lemma WindowIsDivided(ceiling: int, output: Option<int>)
    requires ceiling > 0
    ensures var b := ComputeBudget(Some(ceiling), output);
            && b.usable.Some? && b.reservation == Reserved(output)
            && (ceiling >= b.reservation ==>
                  && b.usable.value + b.margin + b.reservation == ceiling
                  && 4 * b.margin <= ceiling - b.reservation < 4 * b.margin + 4)
            && (ceiling < b.reservation ==> b.usable.value == 0 && b.margin == 0)
            && b.generationCap <= Wanted(output) && b.generationCap <= ceiling - b.usable.value
            && (b.generationCap == Wanted(output) || b.generationCap == ceiling - b.usable.value)
  {}

  /** Without a positive ceiling there is nothing to divide, and an answer of the wanted size. */
  lemma UnknownWindowIsNotDivided(ceiling: Option<int>, output: Option<int>)
    requires ceiling.Some? ==> ceiling.value <= 0
    ensures var b := ComputeBudget(ceiling, output);
            b.usable.None? && b.margin == 0 && b.reservation == Reserved(output) && b.generationCap == Wanted(output)
  {}

  // ---- The verdict ----

  /** By how much the first figure that decides exceeds the usable input: the low end if that
      is over, and the estimate otherwise. */
  function Excess(e: Estimate, usable: nat): int {
    if e.low > usable then e.low - usable else e.point - usable
  }

  /** The room that is reported: what the worst case leaves, or else what the estimate does. */
  function Room(e: Estimate, usable: nat): int {
    if e.high <= usable then usable - e.high else usable - e.point
  }

  /** Every verdict with its figures. A rejection names exhausted remedies exactly when the low
      end would have fitted; a ceiling nobody stated only advises. */
  lemma VerdictExactlyWhen(e: Estimate, usable: nat, t: Mechanism, c: Mechanism, source: LimitSource)
    requires IsBand(e)
    ensures var d := DecideBudget(e, Some(usable), t, c, source);
            var sent := e.point <= usable || (e.low <= usable && (t.Withheld? || c.Withheld?));
            var guessed := source.ConservativeDefault? || source.Unknown?;
            && (sent ==> d == Accept(Room(e, usable)))
            && (!sent && guessed ==> d == Advisory(usable, Excess(e, usable)))
            && (!sent && !guessed ==> d == Reject(e.low <= usable, Excess(e, usable)))
    ensures DecideBudget(e, None, t, c, source) == Accept(0)
  {}
}
