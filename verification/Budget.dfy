/** From the limits a caller knows about to the verdict on one request. */
module Budget {
  import opened Integers
  import opened Options
  import opened UiMessages
  import opened PruneMessages
  import opened Measure

  const UNKNOWN_LIMIT_CEILING := 128_000
  const DEFAULT_OUTPUT_RESERVATION := 4_096
  const DEFAULT_GENERATION_CAP := 4_096
  const MAX_OUTPUT_RESERVATION := 32_000

  // ---- Resolving the ceiling ----

  /** A limit as supplied: anything at all may arrive here. */
  datatype Supplied = Absent | NotANumber | NonFinite | Number(value: real)

  datatype LimitSource = ProviderReported | Configured | Observed | ConservativeDefault | Unknown

  predicate IsTokenCount(s: Supplied) {
    s.Number? && s.value > 0.0 && s.value == s.value.Floor as real
  }

  /** The supplied count, never rounded. */
  function Checked(s: Supplied): (r: Option<int>)
    ensures r.Some? <==> IsTokenCount(s)
    ensures r.Some? ==> r.value > 0
  {
    if IsTokenCount(s) then Some(s.value.Floor) else None
  }

  /** A supplied limit is taken exactly when it is a positive whole number, and then as it is. */
  lemma CheckedExactlyWhen(s: Supplied, n: int)
    ensures Checked(s) == Some(n) <==> s == Number(n as real) && n > 0
  {}

  /** What is known about a model; a stored figure without a stance counts as configured. */
  datatype Known = Known(stored: Supplied, storedSource: Option<LimitSource>, configured: Supplied, observed: Supplied)

  datatype Candidate = Candidate(value: int, source: LimitSource)

  datatype ContextLimit = ContextLimit(tokens: int, source: LimitSource, losing: Option<Candidate>)

  function StoredSource(k: Known): LimitSource {
    if k.storedSource.Some? then k.storedSource.value else Configured
  }

  /** The figures that take part: observed ones are consulted only when these are none. */
  method CollectCandidates(k: Known) returns (candidates: seq<Candidate>)
    ensures candidates ==
            (if IsTokenCount(k.stored) then [Candidate(Checked(k.stored).value, StoredSource(k))] else []) +
            (if IsTokenCount(k.configured) then [Candidate(Checked(k.configured).value, Configured)] else [])
  {
    var supplied := [(k.stored, StoredSource(k)), (k.configured, Configured)];
    candidates := [];
    ghost var stored := if IsTokenCount(k.stored) then [Candidate(Checked(k.stored).value, StoredSource(k))] else [];
    ghost var configured :=
      if IsTokenCount(k.configured) then [Candidate(Checked(k.configured).value, Configured)] else [];
    for n := 0 to |supplied|
      invariant candidates == if n == 0 then [] else if n == 1 then stored else stored + configured
    {
      var check := Checked(supplied[n].0);
      if check.Some? {
        candidates := candidates + [Candidate(check.value, supplied[n].1)];
      }
    }
  }

  method ResolveContextLimit(k: Known) returns (limit: ContextLimit)
    ensures limit.tokens > 0
    ensures IsTokenCount(k.configured) ==> limit.tokens == Checked(k.configured).value
    ensures !IsTokenCount(k.configured) && IsTokenCount(k.stored) ==>
            limit.tokens == Checked(k.stored).value && limit.losing.None? &&
            limit.source == (if k.storedSource.Some? then k.storedSource.value else Configured)
    ensures !IsTokenCount(k.configured) && !IsTokenCount(k.stored) ==>
            limit == if IsTokenCount(k.observed) then ContextLimit(Checked(k.observed).value, Observed, None)
                     else ContextLimit(128_000, ConservativeDefault, None)
    ensures limit.losing.Some? <==>
            IsTokenCount(k.configured) && IsTokenCount(k.stored) && k.configured.value != k.stored.value
    ensures limit.losing.Some? ==>
            limit.losing.value.value == Checked(k.stored).value &&
            limit.losing.value.source == (if k.storedSource.Some? then k.storedSource.value else Configured)
    ensures IsTokenCount(k.configured) && IsTokenCount(k.stored) && limit.losing.None? ==>
            limit.source == ProviderReported
    ensures IsTokenCount(k.configured) && (limit.losing.Some? || !IsTokenCount(k.stored)) ==> limit.source == Configured
  {
    var candidates := CollectCandidates(k);
    if candidates == [] {
      var observed := Checked(k.observed);
      return if observed.Some? then ContextLimit(observed.value, Observed, None)
             else ContextLimit(UNKNOWN_LIMIT_CEILING, ConservativeDefault, None);
    }
    var first := candidates[0];
    if |candidates| == 1 {
      return ContextLimit(first.value, first.source, None);
    }
    var second := candidates[1];
    if first.value == second.value {
      return ContextLimit(first.value, ProviderReported, None);
    }
    return ContextLimit(second.value, Configured, Some(first));
  }

  // ---- Dividing the window ----

  datatype Budget = Budget(usable: Option<nat>, margin: nat, reservation: nat, generationCap: int)

  function OutputReservation(output: Option<int>): (r: nat)
    ensures r >= 1
  {
    if output.Some? && output.value > 0 then Min(output.value, MAX_OUTPUT_RESERVATION) else DEFAULT_OUTPUT_RESERVATION
  }

  /** `None` for a ceiling or a usable size stands for a limit nobody knows. */
  function GenerationCap(output: Option<int>, ceiling: Option<int>, usable: Option<int>): int {
    var desired := if output.Some? && output.value > 0 then output.value else DEFAULT_GENERATION_CAP;
    if ceiling.None? || usable.None? then desired
    else
      var remaining := ceiling.value - usable.value;
      if remaining <= 0 then DEFAULT_GENERATION_CAP else Min(desired, remaining)
  }

  function ComputeBudget(ceiling: Option<int>, output: Option<int>): Budget {
    var reservation := OutputReservation(output);
    if ceiling.None? || ceiling.value <= 0 then
      Budget(None, 0, reservation, GenerationCap(output, None, None))
    else
      var afterOutput: nat := Max(0, ceiling.value - reservation);
      var margin := afterOutput / 4;
      var usable: nat := Max(0, afterOutput - margin);
      Budget(Some(usable), margin, reservation, GenerationCap(output, ceiling, Some(usable)))
  }

  /** Input and output together fit the window, and there is always room to answer. */
  lemma WindowIsNeverOverbooked(ceiling: int, output: Option<int>)
    requires ceiling > 0
    ensures var b := ComputeBudget(Some(ceiling), output);
            b.usable.Some? && b.usable.value + b.generationCap <= ceiling && b.generationCap >= 1
  {}

  // ---- The verdict ----

  datatype Mechanism = Exhausted | Withheld

  datatype Decision =
    | Accept(headroom: int)
    | Reject(exhausted: bool, overBy: int)
    | Advisory(planningCeiling: nat, overBy: int)

  function DecideBudget(e: Estimate, usable: Option<nat>, toolResults: Mechanism, compaction: Mechanism,
                        source: LimitSource): Decision {
    var advisory := source.ConservativeDefault? || source.Unknown?;
    if usable.None? then Accept(0)
    else if e.high <= usable.value then Accept(usable.value - e.high)
    else if e.low > usable.value then
      if advisory then Advisory(usable.value, e.low - usable.value) else Reject(false, e.low - usable.value)
    else if e.point <= usable.value then Accept(usable.value - e.point)
    else if toolResults.Withheld? || compaction.Withheld? then Accept(usable.value - e.point)
    else if advisory then Advisory(usable.value, e.point - usable.value)
    else Reject(true, e.point - usable.value)
  }

  ghost predicate IsBand(e: Estimate) {
    e.low <= e.point <= e.high
  }

  /** The high end of the band decides nothing by itself: a request is sent exactly when
      its point estimate fits, or its low end does and a remedy was held back. */
  lemma AcceptedExactlyWhen(e: Estimate, usable: nat, t: Mechanism, c: Mechanism, source: LimitSource)
    requires IsBand(e)
    ensures DecideBudget(e, Some(usable), t, c, source).Accept? <==>
            e.point <= usable || (e.low <= usable && (t.Withheld? || c.Withheld?))
    ensures DecideBudget(e, Some(usable), t, c, source).Advisory? ==> source.ConservativeDefault? || source.Unknown?
    ensures DecideBudget(e, Some(usable), t, c, source).Reject? ==> !source.ConservativeDefault? && !source.Unknown?
  {}

  /** A size nobody could afford is the only way to a negative headroom. */
  lemma NegativeHeadroomExactlyWhen(e: Estimate, usable: nat, t: Mechanism, c: Mechanism, source: LimitSource)
    requires IsBand(e)
    ensures var d := DecideBudget(e, Some(usable), t, c, source);
            (d.Accept? && d.headroom < 0) <==> (e.low <= usable < e.point && (t.Withheld? || c.Withheld?))
  {}

  /** Fifteen characters may be six tokens; they are sent although only five are usable. */
  lemma HighEndDoesNotDecide(source: LimitSource)
    ensures EstimateOf(15).high > 5 && DecideBudget(EstimateOf(15), Some(5), Exhausted, Exhausted, source).Accept?
  {}

  /** The verdict on a request of `chars` characters for a model about which `ceiling` and
      `output` are known. */
  function Verdict(chars: nat, ceiling: int, output: Option<int>, t: Mechanism, c: Mechanism,
                   source: LimitSource): Decision {
    DecideBudget(EstimateOf(chars), ComputeBudget(Some(ceiling), output).usable, t, c, source)
  }

  /** An accepted request with room to spare asks for no more than the model's window. */
  lemma AcceptedRequestFitsWindow(chars: nat, ceiling: int, output: Option<int>, t: Mechanism, c: Mechanism,
                                  source: LimitSource)
    requires ceiling > 0
    requires Verdict(chars, ceiling, output, t, c, source).Accept?
    requires Verdict(chars, ceiling, output, t, c, source).headroom >= 0
    ensures EstimateOf(chars).point + ComputeBudget(Some(ceiling), output).generationCap <= ceiling
  {
    WindowIsNeverOverbooked(ceiling, output);
    BandIsOrdered(chars);
  }

  /** Whether a request of `chars` characters is sent. */
  predicate IsAccepted(chars: nat, usable: Option<nat>, t: Mechanism, c: Mechanism, source: LimitSource) {
    DecideBudget(EstimateOf(chars), usable, t, c, source).Accept?
  }

  lemma SmallerStaysAccepted(a: nat, b: nat, usable: Option<nat>, t: Mechanism, c: Mechanism, source: LimitSource)
    requires a <= b && IsAccepted(b, usable, t, c, source)
    ensures IsAccepted(a, usable, t, c, source)
  {
    BandIsOrdered(a);
    BandIsOrdered(b);
    BandIsMonotone(a, b);
  }

  lemma ShrinkingIsAccepted(before: nat, after: nat, others: nat, usable: Option<nat>, t: Mechanism, c: Mechanism,
                            source: LimitSource)
    requires after <= before && IsAccepted(others + before, usable, t, c, source)
    ensures IsAccepted(others + after, usable, t, c, source)
  {
    SmallerStaysAccepted(others + after, others + before, usable, t, c, source);
  }

  /** The history is measured, judged, and only then pruned once more for conversion:
      what is sent would have been accepted too. `others` counts the characters of
      instructions and tool definitions. */
  lemma RepruningKeepsTheVerdict(h: seq<Message>, others: nat, usable: Option<nat>, t: Mechanism, c: Mechanism,
                                 source: LimitSource)
    requires IsAccepted(others + HistoryChars(h, |h|), usable, t, c, source)
    ensures IsAccepted(others + HistoryChars(Prune(h), |Prune(h)|), usable, t, c, source)
  {
    ShrinkingIsAccepted(HistoryChars(h, |h|), HistoryChars(Prune(h), |Prune(h)|), others, usable, t, c, source) by {
      PruneNeverGrows(h);
    }
  }
}
