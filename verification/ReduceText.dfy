/** Cutting one oversized tool result or reasoning trace down for the request. */
module ReduceText {
  import opened Decimal
  import opened Integers

  const ATTEMPTS := 4

  /** Length of a notice without its omitted count. */
  const FIXED := 170
  /** Length of the notice used when no attempt fits. */
  const FALLBACK := 173
  /** What the first attempt sets aside for the notice. */
  const OVERHEAD := 179

  /** The two ends of the truncation notice. */
  datatype Wording = Wording(prefix: string, suffix: string)

  const WORDING := Wording(
    "\n\n[truncated by TBAi context budget: ",
    " of the tool result were omitted from this request." +
    " The full value is stored and can be re-read by a follow-up tool call.]")

  predicate Proper(w: Wording) {
    |w.prefix| == 37 && |w.suffix| == 122
  }

  lemma WordingIsProper()
    ensures Proper(WORDING)
  {}

  function Notice(w: Wording, omitted: nat): (s: string)
    requires Proper(w)
    ensures |s| == FIXED + |Render(omitted)|
  {
    w.prefix + Render(omitted) + " characters" + w.suffix
  }

  function FallbackNotice(w: Wording): (s: string)
    requires Proper(w)
    ensures |s| == FALLBACK
  {
    w.prefix + "output omitted" + w.suffix
  }

  /** The length of a text of `n` characters once all but `body` of them are omitted. */
  function Total(n: nat, body: nat): nat
    requires body <= n
  {
    body + FIXED + |Render(n - body)|
  }

  /** The body tried after one whose result is too long. */
  function Next(body: nat, total: nat, cap: nat): (next: nat)
    ensures total > cap ==> next <= body
  {
    Max(0, body - (total - cap) - 1)
  }

  /** The body of the first of `attempts` rounds that fits, starting from `body`. */
  function Fit(n: nat, cap: nat, body: nat, attempts: nat): (fitted: int)
    requires body <= n
    ensures fitted >= 0 ==> fitted <= body && Total(n, fitted) <= cap
    decreases attempts
  {
    if attempts == 0 then -1
    else if Total(n, body) <= cap then body
    else Fit(n, cap, Next(body, Total(n, body), cap), attempts - 1)
  }

  function FirstBody(cap: nat): nat {
    Max(0, cap - OVERHEAD)
  }

  function Body(n: nat, cap: nat): int
    requires cap < n
  {
    Fit(n, cap, FirstBody(cap), ATTEMPTS)
  }

  /** `share` splits a body into head and tail. */
  ghost predicate IsShare(share: nat -> nat) {
    forall b: nat :: share(b) <= b
  }

  /** Head, notice, tail. */
  function Shortened(w: Wording, text: string, body: nat, head: nat): (out: string)
    requires Proper(w) && head <= body <= |text|
    ensures |out| == Total(|text|, body)
  {
    text[..head] + Notice(w, |text| - body) + text[|text| - (body - head)..]
  }

  /** The result of last resort, which is within the cap only if its notice is. */
  function LastResort(w: Wording, text: string, cap: nat): (out: string)
    requires Proper(w) && cap < |text|
    ensures |out| == Max(cap, FALLBACK)
    ensures cap <= FALLBACK ==> out == FallbackNotice(w)
  {
    text[..Max(0, cap - FALLBACK)] + FallbackNotice(w)
  }

  function Reduced(w: Wording, text: string, cap: nat, share: nat -> nat): string
    requires IsShare(share) && Proper(w)
  {
    if |text| <= cap then text
    else
      var body := Body(|text|, cap);
      if body < 0 then LastResort(w, text, cap) else Shortened(w, text, body, share(body))
  }

  /** What is reported as removed: all of the text when no attempt fits. */
  function Removed(text: string, cap: nat): nat {
    if |text| <= cap then 0
    else
      var body := Body(|text|, cap);
      if body < 0 then |text| else |text| - body
  }

  lemma OneAttempt(n: nat, cap: nat, body: nat, attempts: nat)
    requires body <= n && attempts > 0
    ensures Fit(n, cap, body, attempts) ==
            if Total(n, body) <= cap then body
            else Fit(n, cap, Next(body, Total(n, body), cap), attempts - 1)
  {}

  /** The attempts of the reduction loop; -1 when none of them fits. */
  method SolveBody(w: Wording, n: nat, cap: nat, share: nat -> nat) returns (fitted: int)
    requires IsShare(share) && Proper(w) && cap < n
    ensures fitted == Body(n, cap)
  {
    var body: nat := FirstBody(cap);
    for attempt := 0 to ATTEMPTS
      invariant body <= n
      invariant Body(n, cap) == Fit(n, cap, body, ATTEMPTS - attempt)
    {
      OneAttempt(n, cap, body, ATTEMPTS - attempt);
      var head := share(body);
      var tail := body - head;
      var total := head + tail + |Notice(w, n - body)|;
      assert total == Total(n, body);
      if total <= cap {
        return body;
      }
      body := Next(body, total, cap);
    }
    return -1;
  }

  /** The request-side bound on one tool result. */
  method ReduceResultText(w: Wording, text: string, cap: nat, share: nat -> nat) returns (out: string, removed: nat)
    requires IsShare(share) && Proper(w)
    ensures out == Reduced(w, text, cap, share) && removed == Removed(text, cap)
  {
    if |text| <= cap {
      return text, 0;
    }
    var body := SolveBody(w, |text|, cap, share);
    if body < 0 {
      return LastResort(w, text, cap), |text|;
    }
    return Shortened(w, text, body, share(body)), |text| - body;
  }

  lemma ThreeDigits(n: nat)
    requires n >= 100
    ensures |Render(n)| >= 3
  {
    assert |Render(n)| == |Render(n / 10)| + 1;
    assert |Render(n / 10)| == |Render(n / 10 / 10)| + 1;
  }

  /** Below the fallback length no attempt can fit. */
  lemma NothingFits(n: nat, cap: nat, attempts: nat)
    requires cap < n && cap < FALLBACK
    ensures Fit(n, cap, 0, attempts) < 0
  {
    if attempts > 0 {
      if cap >= FIXED {
        ThreeDigits(n);
      }
      assert Total(n, 0) > cap;
      NothingFits(n, cap, attempts - 1);
    }
  }

  /** The result is within the cap exactly when the text already was, or the cap has room
      for the fallback notice: a smaller cap is exceeded, whatever the text. */
  lemma BoundedExactlyWhen(w: Wording, text: string, cap: nat, share: nat -> nat)
    requires IsShare(share) && Proper(w)
    ensures |Reduced(w, text, cap, share)| <= cap <==> |text| <= cap || cap >= FALLBACK
  {
    if |text| > cap && cap < FALLBACK {
      NothingFits(|text|, cap, ATTEMPTS);
    }
  }

  /** Room for the notice of a wholly omitted text of `n` characters. */
  predicate HasRoom(n: nat, cap: nat) {
    cap >= FIXED + |Render(n)|
  }

  /** With that room the first or second attempt fits, so a third is never made. */
  lemma TwoAttemptsSuffice(n: nat, cap: nat, attempts: nat)
    requires cap < n && HasRoom(n, cap) && attempts >= 2
    ensures var first := FirstBody(cap);
            var second := Next(first, Total(n, first), cap);
            && Fit(n, cap, first, attempts) == (if Total(n, first) <= cap then first else second)
            && (Total(n, first) <= cap || Total(n, second) <= cap)
  {
    var first := FirstBody(cap);
    OneAttempt(n, cap, first, attempts);
    RenderGrows(n - first, n);
    if Total(n, first) > cap {
      SecondAttemptFits(n, cap, first);
      OneAttempt(n, cap, Next(first, Total(n, first), cap), attempts - 1);
    }
  }

  lemma SecondAttemptFits(n: nat, cap: nat, body: nat)
    requires body == cap - OVERHEAD && body <= n && HasRoom(n, cap)
    requires Total(n, body) > cap
    ensures Total(n, Next(body, Total(n, body), cap)) <= cap
  {
    var again := body - (Total(n, body) - cap) - 1;
    if again >= 0 {
      ManyDigits(n - body);
      TenfoldAddsOneDigit(n - body, n - again);
    }
  }

  lemma {:induction false} ManyDigits(n: nat)
    ensures 9 * n + 1 >= |Render(n)|
  {
    if n >= 10 {
      ManyDigits(n / 10);
    }
  }

  lemma RoomIsNeeded(n: nat, fitted: nat, cap: nat)
    requires fitted <= n && Total(n, fitted) <= cap
    ensures HasRoom(n, cap)
  {
    RenderGrowsSlowly(n - fitted, fitted);
  }

  /** Some attempt fits exactly when the cap has room for the whole count. */
  lemma FitsExactlyWhen(n: nat, cap: nat)
    requires cap < n
    ensures Body(n, cap) >= 0 <==> HasRoom(n, cap)
  {
    AttemptsFitExactlyWhen(n, cap, ATTEMPTS);
  }

  lemma AttemptsFitExactlyWhen(n: nat, cap: nat, attempts: nat)
    requires cap < n && attempts >= 2
    ensures Fit(n, cap, FirstBody(cap), attempts) >= 0 <==> HasRoom(n, cap)
  {
    var fitted := Fit(n, cap, FirstBody(cap), attempts);
    if HasRoom(n, cap) {
      TwoAttemptsSuffice(n, cap, attempts);
    } else if fitted >= 0 {
      RoomIsNeeded(n, fitted, cap);
    }
  }

  /** `out` is `text` with its `omitted` middle characters replaced by their notice. */
  ghost predicate CutsMiddle(w: Wording, text: string, out: string, head: nat, omitted: nat) {
    Proper(w) && head + omitted <= |text| && out == text[..head] + Notice(w, omitted) + text[head + omitted..]
  }

  /** Under every cap with room for the notice the result is a head, an exact notice and a
      tail that do not overlap, within the cap. */
  lemma HeadNoticeTail(w: Wording, text: string, cap: nat, share: nat -> nat)
    requires IsShare(share) && Proper(w) && |text| > cap && HasRoom(|text|, cap)
    ensures Body(|text|, cap) >= 0 && Removed(text, cap) > 0
    ensures CutsMiddle(w, text, Reduced(w, text, cap, share), share(Body(|text|, cap)), Removed(text, cap))
    ensures |Reduced(w, text, cap, share)| <= cap
  {
    FitsExactlyWhen(|text|, cap);
    var body := Body(|text|, cap);
    assert |text| - (body - share(body)) == share(body) + (|text| - body);
  }

  /** And hardly anything is given away: at most eight characters of the cap stay unused. */
  lemma CapIsUsed(w: Wording, text: string, cap: nat, share: nat -> nat)
    requires IsShare(share) && Proper(w) && |text| > cap && HasRoom(|text|, cap)
    ensures cap - 8 <= |Reduced(w, text, cap, share)| <= cap
  {
    var n, first := |text|, FirstBody(cap);
    FitsExactlyWhen(n, cap);
    TwoAttemptsSuffice(n, cap, ATTEMPTS);
    if Total(n, first) > cap {
      var second := Next(first, Total(n, first), cap);
      RenderGrows(n - first, n - second);
      RenderGrows(n - first, n);
    }
  }

  /** How many characters of the text are in the result. */
  function Kept(text: string, cap: nat): nat {
    if |text| <= cap then |text|
    else if Body(|text|, cap) >= 0 then Body(|text|, cap)
    else Max(0, cap - FALLBACK)
  }

  /** The result of last resort keeps a head when the cap exceeds its notice, and is still
      reported as having lost everything; all other reports are exact. */
  lemma RemovedIsExactExactlyWhen(text: string, cap: nat)
    ensures Removed(text, cap) == |text| - Kept(text, cap) <==>
            |text| <= cap || HasRoom(|text|, cap) || cap <= FALLBACK
  {
    if |text| > cap {
      FitsExactlyWhen(|text|, cap);
    }
  }

  /** Without room for the count, but with room for the notice that has none, a head is kept. */
  lemma LastResortKeepsHead(w: Wording, text: string, cap: nat, share: nat -> nat)
    requires IsShare(share) && Proper(w) && |text| > cap >= 173 && !HasRoom(|text|, cap)
    ensures Reduced(w, text, cap, share) == text[..cap - 173] + w.prefix + "output omitted" + w.suffix
  {
    FitsExactlyWhen(|text|, cap);
  }

  /** Reducing a reduced text changes nothing, under any cap. */
  lemma ReductionIsIdempotent(w: Wording, text: string, cap: nat, share: nat -> nat)
    requires IsShare(share) && Proper(w)
    ensures Reduced(w, Reduced(w, text, cap, share), cap, share) == Reduced(w, text, cap, share)
  {
    BoundedExactlyWhen(w, text, cap, share);
    if |text| > cap && cap < FALLBACK {
      NothingFits(|text|, cap, ATTEMPTS);
      NothingFits(FALLBACK, cap, ATTEMPTS);
    }
  }

  // ---- Reasoning traces ----

  function ReasoningNotice(omitted: nat): string {
    "\n\n[reasoning truncated by TBAi context budget: " + Render(omitted)
    + " characters omitted; only the most recent reasoning is retained.]"
  }

  function ReducedReasoning(text: string, cap: nat): string {
    if |text| <= cap then text else text[..cap] + ReasoningNotice(|text| - cap)
  }

  /** Signed: a trace just over its cap grows. */
  function ReasoningRemoved(text: string, cap: nat): int {
    if |text| <= cap then 0 else |text| - |text[..cap] + ReasoningNotice(|text| - cap)|
  }

  lemma ReasoningNoticeLength(omitted: nat)
    ensures |ReasoningNotice(omitted)| == 112 + |Render(omitted)|
  {}

  /** A trace gets shorter exactly when what it loses outweighs the notice, and longer
      exactly when it is cut and the notice outweighs what it loses. */
  lemma ReasoningShrinksExactlyWhen(text: string, cap: nat)
    ensures |ReducedReasoning(text, cap)| < |text| <==>
            |text| > cap && |text| - cap > 112 + |Render(|text| - cap)|
    ensures |ReducedReasoning(text, cap)| > |text| <==>
            |text| > cap && |text| - cap < 112 + |Render(|text| - cap)|
  {
    if |text| > cap {
      ReasoningNoticeLength(|text| - cap);
    }
  }

  // ---- Inputs that show the limits ----

  /** A cap below the fallback notice is exceeded. */
  lemma TinyCapIsExceeded(share: nat -> nat)
    requires IsShare(share)
    ensures |Reduced(WORDING, "output", 5, share)| == FALLBACK
  {
    NothingFits(6, 5, ATTEMPTS);
  }

  /** A trace one character over its cap grows by more than a hundred characters. */
  lemma TraceJustOverTheCapGrows(text: string, cap: nat)
    requires |text| == cap + 1
    ensures |ReducedReasoning(text, cap)| == |text| + 112
  {
    ReasoningNoticeLength(1);
  }

  /** A text of 100,000 characters under a cap of 174 keeps its first character and is
      reported as wholly removed. */
  lemma LastResortOverReports(text: string)
    requires |text| == 100_000
    ensures Removed(text, 174) == |text| && Kept(text, 174) == 1
  {
    HundredThousand();
    FitsExactlyWhen(|text|, 174);
  }

  lemma HundredThousand()
    ensures |Render(100_000)| == 6
  {
    assert |Render(100)| == |Render(10)| + 1;
    assert |Render(10_000)| == |Render(1_000)| + 1 && |Render(1_000)| == |Render(100)| + 1;
  }
}
