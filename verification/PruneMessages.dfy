/** Lifecycle repair of a stored history before it is sent to a provider. */
module PruneMessages {
  import opened Options
  import opened UiMessages

  // ---- Judging one part ----

  predicate EmitsProviderToolCall(p: Part) {
    p.state in {ApprovalResponded, OutputAvailable, OutputError, OutputDenied}
  }

  predicate IsPlainObject(v: Option<Json>) {
    v.Some? && v.value.JObject?
  }

  function RecoverPlainObject(raw: RawInput): Option<Json> {
    if raw.RawText? && IsPlainObject(raw.parsed) then raw.parsed else None
  }

  predicate HasUsableToolInput(p: Part) {
    IsPlainObject(p.input) || (p.state.OutputError? && RecoverPlainObject(p.rawInput).Some?)
  }

  function WithRecoveredToolInput(p: Part): Part {
    if IsPlainObject(p.input) || !p.state.OutputError? then p
    else if RecoverPlainObject(p.rawInput).None? then p
    else p.(input := RecoverPlainObject(p.rawInput), rawInput := NoRawInput)
  }

  datatype Lifecycle = Output | Approval | Incomplete | Unreplayable

  function LifecycleOf(p: Part): Lifecycle {
    if p.output.Some? || p.state.OutputError? || p.state.OutputDenied? then
      if EmitsProviderToolCall(p) && !HasUsableToolInput(p) then Unreplayable else Output
    else if p.hasApproval then
      if EmitsProviderToolCall(p) && !HasUsableToolInput(p) then Unreplayable else Approval
    else Incomplete
  }

  // ---- The declarative rule ----

  /** One appearance of an interaction. */
  datatype Occurrence = Occurrence(message: nat, part: nat, lifecycle: Lifecycle)

  /** The appearances of `id` among the first `n` parts of message `i`. */
  function InRow(parts: seq<Part>, i: nat, id: string, n: nat): seq<Occurrence>
    requires n <= |parts|
  {
    if n == 0 then []
    else
      InRow(parts, i, id, n - 1) +
      (if Identified(parts[n - 1]) && parts[n - 1].toolCallId == id
       then [Occurrence(i, n - 1, LifecycleOf(parts[n - 1]))] else [])
  }

  /** The appearances of `id` in the first `n` messages, in reading order. */
  function Occurrences(h: seq<Message>, id: string, n: nat): seq<Occurrence>
    requires n <= |h|
  {
    if n == 0 then [] else Occurrences(h, id, n - 1) + InRow(h[n - 1].parts, n - 1, id, |h[n - 1].parts|)
  }

  function LastWith(occurrences: seq<Occurrence>, lifecycle: Lifecycle): Option<Occurrence> {
    if occurrences == [] then None
    else if occurrences[|occurrences| - 1].lifecycle == lifecycle then Some(occurrences[|occurrences| - 1])
    else LastWith(occurrences[..|occurrences| - 1], lifecycle)
  }

  /** Index of the last user message, or -1. */
  function LastUser(h: seq<Message>, n: nat): int
    requires n <= |h|
  {
    if n == 0 then -1 else if h[n - 1].role.User? then n - 1 else LastUser(h, n - 1)
  }

  function SurvivorOf(occurrences: seq<Occurrence>, lastUser: int): Option<Occurrence> {
    if LastWith(occurrences, Output).Some? then LastWith(occurrences, Output)
    else
      var approval := LastWith(occurrences, Approval);
      if approval.Some? && approval.value.message < lastUser then None else approval
  }

  /** The one occurrence of `id` that is kept. */
  function Survivor(h: seq<Message>, id: string): Option<Occurrence> {
    SurvivorOf(Occurrences(h, id, |h|), LastUser(h, |h|))
  }

  /** The positions of all survivors. */
  function KeepSet(h: seq<Message>): (keep: set<(nat, nat)>)
  {
    set i: nat, j: nat |
      0 <= i < |h| && 0 <= j < |h[i].parts| && Identified(h[i].parts[j])
      && IsAt(Survivor(h, h[i].parts[j].toolCallId), i, j) :: (i, j)
  }

  predicate IsAt(o: Option<Occurrence>, i: nat, j: nat) {
    o.Some? && o.value.message == i && o.value.part == j
  }

  /** What is left of one part: nothing, or the part with recovered arguments. */
  function KeptPart(keep: set<(nat, nat)>, p: Part, i: nat, j: nat): (kept: seq<Part>)
    ensures |kept| <= 1
  {
    if !Identified(p) then [p] else if (i, j) in keep then [WithRecoveredToolInput(p)] else []
  }

  /** The kept parts among the first `n` of message `i`. */
  function KeptParts(keep: set<(nat, nat)>, parts: seq<Part>, i: nat, n: nat): seq<Part>
    requires n <= |parts|
  {
    if n == 0 then [] else KeptParts(keep, parts, i, n - 1) + KeptPart(keep, parts[n - 1], i, n - 1)
  }

  /** The first `n` messages with only their kept parts. */
  function Repaired(keep: set<(nat, nat)>, h: seq<Message>, n: nat): (rows: seq<Message>)
    requires n <= |h|
    ensures |rows| == n
  {
    if n == 0 then []
    else Repaired(keep, h, n - 1) + [h[n - 1].(parts := KeptParts(keep, h[n - 1].parts, n - 1, |h[n - 1].parts|))]
  }

  predicate IsEmptyTurn(m: Message) {
    m.role.Assistant? && forall p :: p in m.parts ==> !IsMeaningful(p)
  }

  /** The first `n` messages without their empty turns. */
  function DropEmpty(h: seq<Message>, n: nat): (rows: seq<Message>)
    requires n <= |h|
    ensures |rows| <= n
  {
    if n == 0 then [] else DropEmpty(h, n - 1) + (if IsEmptyTurn(h[n - 1]) then [] else [h[n - 1]])
  }

  predicate IsTextOnlyUser(m: Message) {
    m.role.User? && m.parts != [] && forall p :: p in m.parts ==> p.kind.Text?
  }

  /** `merged` with one more message behind it. */
  function Append(merged: seq<Message>, m: Message): seq<Message> {
    if merged != [] && IsTextOnlyUser(merged[|merged| - 1]) && IsTextOnlyUser(m) then
      var prev := merged[|merged| - 1];
      merged[..|merged| - 1] + [prev.(parts := prev.parts + m.parts)]
    else merged + [m]
  }

  function MergeRuns(h: seq<Message>, n: nat): seq<Message>
    requires n <= |h|
  {
    if n == 0 then [] else Append(MergeRuns(h, n - 1), h[n - 1])
  }

  function NonEmpty(h: seq<Message>): seq<Message> {
    DropEmpty(Repaired(KeepSet(h), h, |h|), |h|)
  }

  function Prune(h: seq<Message>): seq<Message> {
    MergeRuns(NonEmpty(h), |NonEmpty(h)|)
  }

  // ---- The normal form ----

  /** What is looked for in a history. */
  datatype Selector = CallsOf(id: string) | NotCalls

  predicate Selects(s: Selector, p: Part) {
    match s
    case CallsOf(id) => Identified(p) && p.toolCallId == id
    case NotCalls => !Identified(p) && IsMeaningful(p)
  }

  /** The selected ones of the first `n` parts of a turn, each with the role that speaks it. */
  function InTurn(s: Selector, role: Role, parts: seq<Part>, n: nat): seq<(Role, Part)>
    requires n <= |parts|
  {
    if n == 0 then [] else InTurn(s, role, parts, n - 1) + Alone(s, role, parts[n - 1])
  }

  function Alone(s: Selector, role: Role, p: Part): seq<(Role, Part)> {
    if Selects(s, p) then [(role, p)] else []
  }

  function Turn(s: Selector, m: Message): seq<(Role, Part)> {
    InTurn(s, m.role, m.parts, |m.parts|)
  }

  /** The selected parts of the first `n` messages: message boundaries do not show. */
  function InHistory(s: Selector, h: seq<Message>, n: nat): seq<(Role, Part)>
    requires n <= |h|
  {
    if n == 0 then [] else InHistory(s, h, n - 1) + Turn(s, h[n - 1])
  }

  function Select(s: Selector, h: seq<Message>): seq<(Role, Part)> {
    InHistory(s, h, |h|)
  }

  ghost predicate IsSettledPart(p: Part) {
    Identified(p) ==> LifecycleOf(p) in {Output, Approval} && WithRecoveredToolInput(p) == p
  }

  predicate HoldsApproval(m: Message) {
    exists p :: p in m.parts && Identified(p) && LifecycleOf(p) == Approval
  }

  ghost predicate NoDuplicateCalls(h: seq<Message>) {
    forall id :: id != "" ==> |Select(CallsOf(id), h)| <= 1
  }

  ghost predicate PartsSettled(h: seq<Message>) {
    forall m :: m in h ==> forall p :: p in m.parts ==> IsSettledPart(p)
  }

  /** No user turn follows an open decision. */
  ghost predicate ApprovalsCurrent(h: seq<Message>) {
    forall i, k :: 0 <= i < k < |h| && h[k].role.User? ==> !HoldsApproval(h[i])
  }

  ghost predicate NoEmptyTurns(h: seq<Message>) {
    forall m :: m in h ==> !IsEmptyTurn(m)
  }

  ghost predicate NoTextRuns(h: seq<Message>) {
    forall i :: 0 < i < |h| ==> !(IsTextOnlyUser(h[i - 1]) && IsTextOnlyUser(h[i]))
  }

  ghost predicate Settled(h: seq<Message>) {
    NoDuplicateCalls(h) && PartsSettled(h) && ApprovalsCurrent(h) && NoEmptyTurns(h) && NoTextRuns(h)
  }

  // ---- Selection distributes over the passes ----

  lemma {:induction false} InTurnPrefix(s: Selector, role: Role, a: seq<Part>, b: seq<Part>, n: nat)
    requires n <= |a| && n <= |b| && forall k :: 0 <= k < n ==> a[k] == b[k]
    ensures InTurn(s, role, a, n) == InTurn(s, role, b, n)
  {
    if n > 0 {
      InTurnPrefix(s, role, a, b, n - 1);
    }
  }

  lemma InTurnSnoc(s: Selector, role: Role, a: seq<Part>, p: Part)
    ensures InTurn(s, role, a + [p], |a| + 1) == InTurn(s, role, a, |a|) + Alone(s, role, p)
  {
    InTurnPrefix(s, role, a + [p], a, |a|);
  }

  lemma {:induction false} InTurnConcat(s: Selector, role: Role, a: seq<Part>, b: seq<Part>, n: nat)
    requires n <= |b|
    ensures InTurn(s, role, a + b, |a| + n) == InTurn(s, role, a, |a|) + InTurn(s, role, b, n)
  {
    if n == 0 {
      InTurnPrefix(s, role, a + b, a, |a|);
    } else {
      InTurnConcat(s, role, a, b, n - 1);
    }
  }

  lemma {:induction false} HistoryPrefix(s: Selector, a: seq<Message>, b: seq<Message>, n: nat)
    requires n <= |a| && n <= |b| && forall k :: 0 <= k < n ==> a[k] == b[k]
    ensures InHistory(s, a, n) == InHistory(s, b, n)
  {
    if n > 0 {
      HistoryPrefix(s, a, b, n - 1);
    }
  }

  lemma SelectSnoc(s: Selector, h: seq<Message>, m: Message)
    ensures Select(s, h + [m]) == Select(s, h) + Turn(s, m)
  {
    HistoryPrefix(s, h + [m], h, |h|);
  }

  lemma {:induction false} NothingInTurn(s: Selector, role: Role, parts: seq<Part>, n: nat)
    requires n <= |parts| && forall p :: p in parts ==> !Selects(s, p)
    ensures InTurn(s, role, parts, n) == []
  {
    if n > 0 {
      NothingInTurn(s, role, parts, n - 1);
    }
  }

  /** An empty turn holds neither calls nor content. */
  lemma {:induction false} DropEmptyKeepsParts(s: Selector, h: seq<Message>, n: nat)
    requires n <= |h|
    ensures Select(s, DropEmpty(h, n)) == InHistory(s, h, n)
  {
    if n > 0 {
      var last := h[n - 1];
      DropEmptyKeepsParts(s, h, n - 1);
      if IsEmptyTurn(last) {
        NothingInTurn(s, last.role, last.parts, |last.parts|);
        assert DropEmpty(h, n) == DropEmpty(h, n - 1);
      } else {
        SelectSnoc(s, DropEmpty(h, n - 1), last);
      }
    }
  }

  lemma JoinedTurn(s: Selector, prev: Message, m: Message)
    requires prev.role == m.role
    ensures Turn(s, prev.(parts := prev.parts + m.parts)) == Turn(s, prev) + Turn(s, m)
  {
    InTurnConcat(s, prev.role, prev.parts, m.parts, |m.parts|);
  }

  lemma AppendKeepsParts(s: Selector, merged: seq<Message>, m: Message)
    ensures Select(s, Append(merged, m)) == Select(s, merged) + Turn(s, m)
  {
    if merged != [] && IsTextOnlyUser(merged[|merged| - 1]) && IsTextOnlyUser(m) {
      var init, prev := merged[..|merged| - 1], merged[|merged| - 1];
      assert merged == init + [prev];
      JoinedTurn(s, prev, m);
      SelectSnoc(s, init, prev.(parts := prev.parts + m.parts));
      SelectSnoc(s, init, prev);
    } else {
      SelectSnoc(s, merged, m);
    }
  }

  /** Merging moves message boundaries only. */
  lemma {:induction false} MergeKeepsParts(s: Selector, h: seq<Message>, n: nat)
    requires n <= |h|
    ensures Select(s, MergeRuns(h, n)) == InHistory(s, h, n)
  {
    if n > 0 {
      MergeKeepsParts(s, h, n - 1);
      AppendKeepsParts(s, MergeRuns(h, n - 1), h[n - 1]);
    }
  }

  // ---- The survivor of an interaction ----

  ghost predicate Occurs(h: seq<Message>, o: Occurrence, id: string) {
    && o.message < |h| && o.part < |h[o.message].parts|
    && Identified(h[o.message].parts[o.part]) && h[o.message].parts[o.part].toolCallId == id
    && o.lifecycle == LifecycleOf(h[o.message].parts[o.part])
  }

  lemma {:induction false} InRowIsSound(h: seq<Message>, i: nat, id: string, n: nat)
    requires i < |h| && n <= |h[i].parts|
    ensures forall o :: o in InRow(h[i].parts, i, id, n) ==> Occurs(h, o, id) && o.message == i && o.part < n
  {
    if n > 0 {
      InRowIsSound(h, i, id, n - 1);
    }
  }

  lemma {:induction false} OccurrencesAreSound(h: seq<Message>, id: string, n: nat)
    requires n <= |h|
    ensures forall o :: o in Occurrences(h, id, n) ==> Occurs(h, o, id) && o.message < n
  {
    if n > 0 {
      OccurrencesAreSound(h, id, n - 1);
      InRowIsSound(h, n - 1, id, |h[n - 1].parts|);
    }
  }

  lemma {:induction false} LastWithIsIn(occurrences: seq<Occurrence>, lifecycle: Lifecycle)
    ensures LastWith(occurrences, lifecycle).Some? ==>
            LastWith(occurrences, lifecycle).value in occurrences &&
            LastWith(occurrences, lifecycle).value.lifecycle == lifecycle
    ensures LastWith(occurrences, lifecycle).None? ==> forall o :: o in occurrences ==> o.lifecycle != lifecycle
  {
    if occurrences != [] {
      LastWithIsIn(occurrences[..|occurrences| - 1], lifecycle);
    }
  }

  lemma SurvivorOccurs(h: seq<Message>, id: string)
    requires Survivor(h, id).Some?
    ensures Occurs(h, Survivor(h, id).value, id)
    ensures Survivor(h, id).value.lifecycle in {Output, Approval}
    ensures Survivor(h, id).value.lifecycle == Approval ==> LastUser(h, |h|) <= Survivor(h, id).value.message
  {
    OccurrencesAreSound(h, id, |h|);
    LastWithIsIn(Occurrences(h, id, |h|), Output);
    LastWithIsIn(Occurrences(h, id, |h|), Approval);
  }

  /** What is left of an interaction: its survivor with recovered arguments, or nothing. */
  function Remains(h: seq<Message>, id: string): (parts: seq<(Role, Part)>)
    ensures |parts| <= 1
  {
    var s := Survivor(h, id);
    if s.Some? && s.value.message < |h| && s.value.part < |h[s.value.message].parts| then
      [(h[s.value.message].role, WithRecoveredToolInput(h[s.value.message].parts[s.value.part]))]
    else []
  }

  /** Which part of message `i` is the survivor of `id`, or -1. */
  ghost predicate KeepsAt(keep: set<(nat, nat)>, parts: seq<Part>, i: nat, id: string, at: int) {
    forall j: nat :: j < |parts| ==> ((i, j) in keep && Selects(CallsOf(id), parts[j]) <==> j == at)
  }

  lemma KeptPartInTurn(s: Selector, keep: set<(nat, nat)>, role: Role, a: seq<Part>, p: Part, i: nat, j: nat)
    ensures var row := a + KeptPart(keep, p, i, j);
            InTurn(s, role, row, |row|) == InTurn(s, role, a, |a|) + KeptAlone(s, keep, role, p, i, j)
  {
    if !Identified(p) {
      InTurnSnoc(s, role, a, p);
    } else if (i, j) in keep {
      InTurnSnoc(s, role, a, WithRecoveredToolInput(p));
    } else {
      assert a + [] == a;
    }
  }

  /** What one part contributes once it has been repaired. */
  function KeptAlone(s: Selector, keep: set<(nat, nat)>, role: Role, p: Part, i: nat,
                     j: nat): (alone: seq<(Role, Part)>)
    ensures s.NotCalls? ==> alone == Alone(s, role, p)
    ensures s.CallsOf? && s.id != "" ==>
            alone == if (i, j) in keep && Selects(s, p) then [(role, WithRecoveredToolInput(p))] else []
  {
    if !Identified(p) then Alone(s, role, p)
    else if (i, j) in keep then Alone(s, role, WithRecoveredToolInput(p))
    else []
  }

  lemma SurvivorInTurn(id: string, keep: set<(nat, nat)>, role: Role, row: seq<Part>, p: Part, i: nat, j: nat,
                       here: bool)
    requires id != "" && here == ((i, j) in keep && Selects(CallsOf(id), p))
    ensures InTurn(CallsOf(id), role, row + KeptPart(keep, p, i, j), |row + KeptPart(keep, p, i, j)|)
         == InTurn(CallsOf(id), role, row, |row|) + (if here then [(role, WithRecoveredToolInput(p))] else [])
  {
    KeptPartInTurn(CallsOf(id), keep, role, row, p, i, j);
  }

  /** The calls of `id` among the kept ones of the first `n` parts of a row. */
  function RowCalls(keep: set<(nat, nat)>, role: Role, parts: seq<Part>, i: nat, id: string, n: nat): seq<(Role, Part)>
    requires n <= |parts|
  {
    InTurn(CallsOf(id), role, KeptParts(keep, parts, i, n), |KeptParts(keep, parts, i, n)|)
  }

  lemma RowCallsStep(keep: set<(nat, nat)>, role: Role, parts: seq<Part>, i: nat, id: string, at: int, n: nat)
    requires n < |parts| && KeepsAt(keep, parts, i, id, at) && id != ""
    ensures RowCalls(keep, role, parts, i, id, n + 1)
         == RowCalls(keep, role, parts, i, id, n) + (if n == at then [(role, WithRecoveredToolInput(parts[n]))] else [])
  {
    SurvivorInTurn(id, keep, role, KeptParts(keep, parts, i, n), parts[n], i, n, n == at);
  }

  /** Sequences that grow at one index only. */
  lemma {:induction false} GrowsOnce<T>(rows: seq<seq<T>>, grown: seq<T>, at: int, n: nat)
    requires n < |rows| && rows[0] == []
    requires forall j :: 0 <= j < |rows| - 1 ==> rows[j + 1] == rows[j] + (if j == at then grown else [])
    ensures rows[n] == if 0 <= at < n then grown else []
  {
    if n > 0 {
      GrowsOnce(rows, grown, at, n - 1);
      assert rows[n - 1 + 1] == rows[n - 1] + (if n - 1 == at then grown else []);
    }
  }

  lemma KeptInRow(keep: set<(nat, nat)>, role: Role, parts: seq<Part>, i: nat, id: string, at: int)
    requires at < |parts| && KeepsAt(keep, parts, i, id, at) && id != ""
    ensures RowCalls(keep, role, parts, i, id, |parts|)
         == if 0 <= at then [(role, WithRecoveredToolInput(parts[at]))] else []
  {
    var rows := seq(|parts| + 1, n requires 0 <= n <= |parts| => RowCalls(keep, role, parts, i, id, n));
    var grown := if 0 <= at then [(role, WithRecoveredToolInput(parts[at]))] else [];
    forall n | 0 <= n < |parts| ensures rows[n + 1] == rows[n] + (if n == at then grown else []) {
      RowCallsStep(keep, role, parts, i, id, at, n);
    }
    GrowsOnce(rows, grown, at, |parts|);
  }

  lemma SurvivorInRow(h: seq<Message>, i: nat, id: string) returns (at: int)
    requires i < |h| && id != ""
    ensures at < |h[i].parts| && KeepsAt(KeepSet(h), h[i].parts, i, id, at)
    ensures 0 <= at <==> Survivor(h, id).Some? && Survivor(h, id).value.message == i
    ensures 0 <= at ==> at == Survivor(h, id).value.part
  {
    var s := Survivor(h, id);
    at := -1;
    if s.Some? {
      SurvivorOccurs(h, id);
      if s.value.message == i {
        at := s.value.part;
      }
    }
  }

  /** The calls of `id` in the first `n` repaired messages. */
  function RepairedCalls(keep: set<(nat, nat)>, h: seq<Message>, id: string, n: nat): seq<(Role, Part)>
    requires n <= |h|
  {
    Select(CallsOf(id), Repaired(keep, h, n))
  }

  lemma RepairedCallsStep(keep: set<(nat, nat)>, h: seq<Message>, id: string, n: nat)
    requires n < |h|
    ensures RepairedCalls(keep, h, id, n + 1)
         == RepairedCalls(keep, h, id, n) + RowCalls(keep, h[n].role, h[n].parts, n, id, |h[n].parts|)
  {
    SelectSnoc(CallsOf(id), Repaired(keep, h, n), h[n].(parts := KeptParts(keep, h[n].parts, n, |h[n].parts|)));
  }

  /** The message of the survivor, or -1. */
  function SurvivorRow(h: seq<Message>, id: string): int {
    if Survivor(h, id).Some? then Survivor(h, id).value.message else -1
  }

  lemma RowHoldsRemains(h: seq<Message>, id: string, n: nat)
    requires n < |h| && id != ""
    ensures RowCalls(KeepSet(h), h[n].role, h[n].parts, n, id, |h[n].parts|)
         == if n == SurvivorRow(h, id) then Remains(h, id) else []
  {
    var at := SurvivorInRow(h, n, id);
    KeptInRow(KeepSet(h), h[n].role, h[n].parts, n, id, at);
  }

  lemma SurvivorRowIsInside(h: seq<Message>, id: string)
    ensures SurvivorRow(h, id) < |h|
    ensures SurvivorRow(h, id) < 0 ==> Remains(h, id) == []
  {
    if Survivor(h, id).Some? {
      SurvivorOccurs(h, id);
    }
  }

  lemma OneRowHolds(keep: set<(nat, nat)>, h: seq<Message>, id: string, at: int, remains: seq<(Role, Part)>)
    requires at < |h| && (at < 0 ==> remains == [])
    requires forall n :: 0 <= n < |h| ==>
      RowCalls(keep, h[n].role, h[n].parts, n, id, |h[n].parts|) == if n == at then remains else []
    ensures RepairedCalls(keep, h, id, |h|) == remains
  {
    var rows := seq(|h| + 1, n requires 0 <= n <= |h| => RepairedCalls(keep, h, id, n));
    forall n | 0 <= n < |h| ensures rows[n + 1] == rows[n] + (if n == at then remains else []) {
      RepairedCallsStep(keep, h, id, n);
    }
    GrowsOnce(rows, remains, at, |h|);
  }

  lemma KeptInRows(h: seq<Message>, id: string)
    requires id != ""
    ensures RepairedCalls(KeepSet(h), h, id, |h|) == Remains(h, id)
  {
    forall n | 0 <= n < |h|
      ensures RowCalls(KeepSet(h), h[n].role, h[n].parts, n, id, |h[n].parts|)
           == if n == SurvivorRow(h, id) then Remains(h, id) else []
    {
      RowHoldsRemains(h, id, n);
    }
    SurvivorRowIsInside(h, id);
    OneRowHolds(KeepSet(h), h, id, SurvivorRow(h, id), Remains(h, id));
  }

  lemma {:induction false} ContentInRow(keep: set<(nat, nat)>, role: Role, parts: seq<Part>, i: nat, n: nat)
    requires n <= |parts|
    ensures var row := KeptParts(keep, parts, i, n);
            InTurn(NotCalls, role, row, |row|) == InTurn(NotCalls, role, parts, n)
  {
    if n > 0 {
      var row, p := KeptParts(keep, parts, i, n - 1), parts[n - 1];
      ContentInRow(keep, role, parts, i, n - 1);
      KeptPartInTurn(NotCalls, keep, role, row, p, i, n - 1);
      assert KeptParts(keep, parts, i, n) == row + KeptPart(keep, p, i, n - 1);
    }
  }

  lemma {:induction false} ContentInRows(keep: set<(nat, nat)>, h: seq<Message>, n: nat)
    requires n <= |h|
    ensures Select(NotCalls, Repaired(keep, h, n)) == InHistory(NotCalls, h, n)
  {
    if n > 0 {
      var m := h[n - 1];
      ContentInRows(keep, h, n - 1);
      ContentInRow(keep, m.role, m.parts, n - 1, |m.parts|);
      SelectSnoc(NotCalls, Repaired(keep, h, n - 1), m.(parts := KeptParts(keep, m.parts, n - 1, |m.parts|)));
    }
  }

  /** Of every interaction exactly its survivor is left, with recovered arguments. */
  lemma PruneKeepsSurvivors(h: seq<Message>, id: string)
    requires id != ""
    ensures Select(CallsOf(id), Prune(h)) == Remains(h, id)
  {
    var rows := Repaired(KeepSet(h), h, |h|);
    MergeKeepsParts(CallsOf(id), NonEmpty(h), |NonEmpty(h)|);
    DropEmptyKeepsParts(CallsOf(id), rows, |h|);
    KeptInRows(h, id);
  }

  /** Everything else a reader can see keeps its order, its speaker and its text. */
  lemma PruneKeepsContent(h: seq<Message>)
    ensures Select(NotCalls, Prune(h)) == Select(NotCalls, h)
  {
    MergeKeepsParts(NotCalls, NonEmpty(h), |NonEmpty(h)|);
    DropEmptyKeepsParts(NotCalls, Repaired(KeepSet(h), h, |h|), |h|);
    ContentInRows(KeepSet(h), h, |h|);
  }

  // ---- One run reaches the normal form ----

  lemma RecoveryKeepsLifecycle(p: Part)
    requires LifecycleOf(p) in {Output, Approval}
    ensures LifecycleOf(WithRecoveredToolInput(p)) == LifecycleOf(p)
    ensures IsSettledPart(WithRecoveredToolInput(p))
  {}

  /** A part a provider would see as a call has plain-object arguments once settled. */
  lemma SettledCallsAreReplayable(p: Part)
    requires Identified(p) && IsSettledPart(p) && EmitsProviderToolCall(p)
    ensures IsPlainObject(p.input)
  {}

  /** A part that may stand in row `i` of a repaired history. */
  ghost predicate IsSettledAt(p: Part, i: nat, lastUser: int) {
    IsSettledPart(p) && (Identified(p) && LifecycleOf(p) == Approval ==> lastUser <= i)
  }

  lemma SurvivorIsSettled(h: seq<Message>, i: nat, j: nat)
    requires i < |h| && j < |h[i].parts| && (i, j) in KeepSet(h)
    ensures IsSettledAt(WithRecoveredToolInput(h[i].parts[j]), i, LastUser(h, |h|))
  {
    var q := h[i].parts[j];
    SurvivorOccurs(h, q.toolCallId);
    RecoveryKeepsLifecycle(q);
  }

  ghost predicate AllSettledAt(parts: seq<Part>, i: nat, lastUser: int) {
    forall p :: p in parts ==> IsSettledAt(p, i, lastUser)
  }

  lemma SettledConcat(a: seq<Part>, b: seq<Part>, i: nat, lastUser: int)
    requires AllSettledAt(a, i, lastUser) && AllSettledAt(b, i, lastUser)
    ensures AllSettledAt(a + b, i, lastUser)
  {}

  lemma KeptPartIsSettled(h: seq<Message>, i: nat, j: nat)
    requires i < |h| && j < |h[i].parts|
    ensures AllSettledAt(KeptPart(KeepSet(h), h[i].parts[j], i, j), i, LastUser(h, |h|))
  {
    if Identified(h[i].parts[j]) && (i, j) in KeepSet(h) {
      SurvivorIsSettled(h, i, j);
    }
  }

  lemma {:induction false} PartsSettleRow(keep: set<(nat, nat)>, parts: seq<Part>, i: nat, n: nat, lastUser: int)
    requires n <= |parts|
    requires forall j: nat :: j < |parts| ==> AllSettledAt(KeptPart(keep, parts[j], i, j), i, lastUser)
    ensures AllSettledAt(KeptParts(keep, parts, i, n), i, lastUser)
  {
    if n > 0 {
      PartsSettleRow(keep, parts, i, n - 1, lastUser);
      SettledConcat(KeptParts(keep, parts, i, n - 1), KeptPart(keep, parts[n - 1], i, n - 1), i, lastUser);
    }
  }

  lemma RowsAreSettled(h: seq<Message>, i: nat)
    requires i < |h|
    ensures AllSettledAt(KeptParts(KeepSet(h), h[i].parts, i, |h[i].parts|), i, LastUser(h, |h|))
  {
    forall j: nat | j < |h[i].parts|
      ensures AllSettledAt(KeptPart(KeepSet(h), h[i].parts[j], i, j), i, LastUser(h, |h|))
    {
      KeptPartIsSettled(h, i, j);
    }
    PartsSettleRow(KeepSet(h), h[i].parts, i, |h[i].parts|, LastUser(h, |h|));
  }

  lemma {:induction false} RepairedRow(keep: set<(nat, nat)>, h: seq<Message>, n: nat, i: nat)
    requires i < n <= |h|
    ensures Repaired(keep, h, n)[i] == h[i].(parts := KeptParts(keep, h[i].parts, i, |h[i].parts|))
  {
    if i < n - 1 {
      RepairedRow(keep, h, n - 1, i);
    }
  }

  lemma {:induction false} LastUserIsLast(h: seq<Message>, n: nat, k: nat)
    requires k < n <= |h| && h[k].role.User?
    ensures k <= LastUser(h, n)
  {
    if k < n - 1 {
      LastUserIsLast(h, n - 1, k);
    }
  }

  lemma RepairSettlesParts(h: seq<Message>)
    ensures PartsSettled(Repaired(KeepSet(h), h, |h|)) && ApprovalsCurrent(Repaired(KeepSet(h), h, |h|))
  {
    var rows := Repaired(KeepSet(h), h, |h|);
    forall i | 0 <= i < |h|
      ensures forall p :: p in rows[i].parts ==> IsSettledPart(p)
      ensures HoldsApproval(rows[i]) ==> LastUser(h, |h|) <= i
    {
      RepairedRow(KeepSet(h), h, |h|, i);
      RowsAreSettled(h, i);
    }
    forall i, k | 0 <= i < k < |h| && rows[k].role.User? ensures !HoldsApproval(rows[i]) {
      RepairedRow(KeepSet(h), h, |h|, k);
      LastUserIsLast(h, |h|, k);
    }
  }

  lemma {:induction false} DropEmptyKeepsSettled(h: seq<Message>, n: nat)
    requires n <= |h| && PartsSettled(h) && ApprovalsCurrent(h)
    ensures PartsSettled(DropEmpty(h, n)) && ApprovalsCurrent(DropEmpty(h, n)) && NoEmptyTurns(DropEmpty(h, n))
    ensures forall m :: m in DropEmpty(h, n) ==> m in h[..n]
  {
    if n > 0 {
      DropEmptyKeepsSettled(h, n - 1);
      var init := DropEmpty(h, n - 1);
      assert h[..n] == h[..n - 1] + [h[n - 1]];
      forall i | 0 <= i < |init| && h[n - 1].role.User? ensures !HoldsApproval(init[i]) {
        assert init[i] in h[..n - 1];
      }
    }
  }

  /** What `Append` keeps about a merged history. */
  ghost predicate Merged(merged: seq<Message>) {
    PartsSettled(merged) && ApprovalsCurrent(merged) && NoEmptyTurns(merged) && NoTextRuns(merged)
  }

  lemma AppendKeepsMerged(merged: seq<Message>, m: Message)
    requires Merged(merged) && !IsEmptyTurn(m) && forall p :: p in m.parts ==> IsSettledPart(p)
    requires m.role.User? ==> forall r :: r in merged ==> !HoldsApproval(r)
    ensures Merged(Append(merged, m))
    ensures forall r :: r in Append(merged, m) && HoldsApproval(r) ==> r in merged || HoldsApproval(m)
  {
    var next := Append(merged, m);
    if |next| == |merged| {
      var last := |merged| - 1;
      assert forall p :: p in next[last].parts ==> p in merged[last].parts || p in m.parts;
      assert IsTextOnlyUser(next[last]);
      assert forall i :: 0 <= i < last ==> next[i] == merged[i];
    } else {
      assert forall i :: 0 <= i < |merged| ==> next[i] == merged[i];
    }
  }

  lemma {:induction false} MergeReachesNormalForm(h: seq<Message>, n: nat)
    requires n <= |h| && PartsSettled(h) && ApprovalsCurrent(h) && NoEmptyTurns(h)
    ensures Merged(MergeRuns(h, n))
    ensures forall r :: r in MergeRuns(h, n) && HoldsApproval(r) ==> exists i :: 0 <= i < n && HoldsApproval(h[i])
  {
    if n > 0 {
      MergeReachesNormalForm(h, n - 1);
      AppendKeepsMerged(MergeRuns(h, n - 1), h[n - 1]);
    }
  }

  /** Whatever was stored, one run yields a settled history. */
  lemma PruneSettles(h: seq<Message>)
    ensures Settled(Prune(h))
  {
    RepairSettlesParts(h);
    DropEmptyKeepsSettled(Repaired(KeepSet(h), h, |h|), |h|);
    MergeReachesNormalForm(NonEmpty(h), |NonEmpty(h)|);
    forall id | id != "" ensures |Select(CallsOf(id), Prune(h))| <= 1 {
      PruneKeepsSurvivors(h, id);
    }
  }

  // ---- And a settled history is left alone ----

  lemma {:induction false} RowCount(parts: seq<Part>, role: Role, i: nat, id: string, n: nat)
    requires n <= |parts|
    ensures |InRow(parts, i, id, n)| == |InTurn(CallsOf(id), role, parts, n)|
    ensures forall j :: 0 <= j < n && Selects(CallsOf(id), parts[j]) ==>
              Occurrence(i, j, LifecycleOf(parts[j])) in InRow(parts, i, id, n)
  {
    if n > 0 {
      RowCount(parts, role, i, id, n - 1);
    }
  }

  lemma {:induction false} OccurrenceCount(h: seq<Message>, id: string, n: nat)
    requires n <= |h|
    ensures |Occurrences(h, id, n)| == |InHistory(CallsOf(id), h, n)|
  {
    if n > 0 {
      OccurrenceCount(h, id, n - 1);
      RowCount(h[n - 1].parts, h[n - 1].role, n - 1, id, |h[n - 1].parts|);
    }
  }

  lemma {:induction false} OccurrencesAreComplete(h: seq<Message>, id: string, n: nat, i: nat, j: nat)
    requires i < n <= |h| && j < |h[i].parts| && Selects(CallsOf(id), h[i].parts[j])
    ensures Occurrence(i, j, LifecycleOf(h[i].parts[j])) in Occurrences(h, id, n)
  {
    if i < n - 1 {
      OccurrencesAreComplete(h, id, n - 1, i, j);
    } else {
      RowCount(h[i].parts, h[i].role, i, id, |h[i].parts|);
    }
  }

  lemma {:induction false} LastUserIsUser(h: seq<Message>, n: nat)
    requires n <= |h|
    ensures -1 <= LastUser(h, n) < n
    ensures LastUser(h, n) >= 0 ==> h[LastUser(h, n)].role.User?
  {
    if n > 0 {
      LastUserIsUser(h, n - 1);
    }
  }

  lemma OnlyOccurrence(occurrences: seq<Occurrence>, o: Occurrence)
    requires |occurrences| <= 1 && o in occurrences
    ensures LastWith(occurrences, o.lifecycle) == Some(o)
    ensures forall l :: l != o.lifecycle ==> LastWith(occurrences, l).None?
  {
    assert occurrences == [o];
    assert [o][..0] == [];
  }

  lemma SettledPartIsKept(h: seq<Message>, i: nat, j: nat)
    requires Settled(h) && i < |h| && j < |h[i].parts| && Identified(h[i].parts[j])
    ensures (i, j) in KeepSet(h)
  {
    var p := h[i].parts[j];
    var id := p.toolCallId;
    var o := Occurrence(i, j, LifecycleOf(p));
    OccurrenceCount(h, id, |h|);
    assert |Select(CallsOf(id), h)| <= 1;
    OccurrencesAreComplete(h, id, |h|, i, j);
    OnlyOccurrence(Occurrences(h, id, |h|), o);
    assert h[i] in h && p in h[i].parts && IsSettledPart(p);
    LastUserIsUser(h, |h|);
    if o.lifecycle == Approval && i < LastUser(h, |h|) {
      assert HoldsApproval(h[i]);
    }
    assert IsAt(Survivor(h, id), i, j);
  }

  lemma {:induction false} RowUnchanged(keep: set<(nat, nat)>, parts: seq<Part>, i: nat, n: nat)
    requires n <= |parts|
    requires forall j: nat :: j < |parts| && Identified(parts[j]) ==> (i, j) in keep
    requires forall p :: p in parts ==> IsSettledPart(p)
    ensures KeptParts(keep, parts, i, n) == parts[..n]
  {
    if n > 0 {
      RowUnchanged(keep, parts, i, n - 1);
      assert parts[n - 1] in parts;
      assert parts[..n] == parts[..n - 1] + [parts[n - 1]];
    }
  }

  lemma RepairUnchanged(h: seq<Message>)
    requires Settled(h)
    ensures Repaired(KeepSet(h), h, |h|) == h
  {
    forall i | 0 <= i < |h| ensures Repaired(KeepSet(h), h, |h|)[i] == h[i] {
      RepairedRow(KeepSet(h), h, |h|, i);
      forall j: nat | j < |h[i].parts| && Identified(h[i].parts[j]) ensures (i, j) in KeepSet(h) {
        SettledPartIsKept(h, i, j);
      }
      assert h[i] in h;
      RowUnchanged(KeepSet(h), h[i].parts, i, |h[i].parts|);
      assert h[i].parts[..|h[i].parts|] == h[i].parts;
    }
  }

  lemma {:induction false} NothingDropped(h: seq<Message>, n: nat)
    requires n <= |h| && NoEmptyTurns(h)
    ensures DropEmpty(h, n) == h[..n]
  {
    if n > 0 {
      NothingDropped(h, n - 1);
      assert h[n - 1] in h && h[..n] == h[..n - 1] + [h[n - 1]];
    }
  }

  lemma {:induction false} NothingMerged(h: seq<Message>, n: nat)
    requires n <= |h| && NoTextRuns(h)
    ensures MergeRuns(h, n) == h[..n]
  {
    if n > 0 {
      NothingMerged(h, n - 1);
      assert h[..n] == h[..n - 1] + [h[n - 1]];
    }
  }

  /** The histories pruning leaves alone are exactly the settled ones. */
  lemma UnchangedExactlyWhenSettled(h: seq<Message>)
    ensures Prune(h) == h <==> Settled(h)
  {
    PruneSettles(h);
    if Settled(h) {
      RepairUnchanged(h);
      NothingDropped(h, |h|);
      NothingMerged(h, |h|);
      assert h[..|h|] == h;
    }
  }

  /** Production prunes twice; the second run changes nothing. */
  lemma PruneIsIdempotent(h: seq<Message>)
    ensures Prune(Prune(h)) == Prune(h)
  {
    PruneSettles(h);
    UnchangedExactlyWhenSettled(Prune(h));
  }

  // ---- The survivor, by position ----

  /** Reading order. */
  predicate Precedes(a: Occurrence, b: Occurrence) {
    a.message < b.message || (a.message == b.message && a.part < b.part)
  }

  ghost predicate InReadingOrder(occurrences: seq<Occurrence>) {
    forall a, b :: 0 <= a < b < |occurrences| ==> Precedes(occurrences[a], occurrences[b])
  }

  lemma {:induction false} RowInOrder(h: seq<Message>, i: nat, id: string, n: nat)
    requires i < |h| && n <= |h[i].parts|
    ensures InReadingOrder(InRow(h[i].parts, i, id, n))
  {
    if n > 0 {
      RowInOrder(h, i, id, n - 1);
      InRowIsSound(h, i, id, n - 1);
    }
  }

  lemma {:induction false} OccurrencesInOrder(h: seq<Message>, id: string, n: nat)
    requires n <= |h|
    ensures InReadingOrder(Occurrences(h, id, n))
  {
    if n > 0 {
      OccurrencesInOrder(h, id, n - 1);
      OccurrencesAreSound(h, id, n - 1);
      RowInOrder(h, n - 1, id, |h[n - 1].parts|);
      InRowIsSound(h, n - 1, id, |h[n - 1].parts|);
    }
  }

  /** `o` is the latest occurrence of `id` with its own lifecycle. */
  ghost predicate IsLatest(h: seq<Message>, o: Occurrence, id: string) {
    Occurs(h, o, id) &&
    forall later: Occurrence :: Occurs(h, later, id) && Precedes(o, later) ==> later.lifecycle != o.lifecycle
  }

  lemma {:induction false} LastWithIsLatest(occurrences: seq<Occurrence>, lifecycle: Lifecycle)
    requires InReadingOrder(occurrences) && LastWith(occurrences, lifecycle).Some?
    ensures forall o :: o in occurrences && o.lifecycle == lifecycle ==>
              o == LastWith(occurrences, lifecycle).value || Precedes(o, LastWith(occurrences, lifecycle).value)
  {
    var last := |occurrences| - 1;
    if occurrences[last].lifecycle != lifecycle {
      LastWithIsLatest(occurrences[..last], lifecycle);
    }
  }

  lemma LatestIsLastWith(h: seq<Message>, o: Occurrence, id: string)
    requires id != ""
    ensures IsLatest(h, o, id) <==> LastWith(Occurrences(h, id, |h|), o.lifecycle) == Some(o)
  {
    var all := Occurrences(h, id, |h|);
    OccurrencesInOrder(h, id, |h|);
    OccurrencesAreSound(h, id, |h|);
    LastWithIsIn(all, o.lifecycle);
    forall c: Occurrence | Occurs(h, c, id) ensures c in all {
      OccurrencesAreComplete(h, id, |h|, c.message, c.part);
    }
    if LastWith(all, o.lifecycle).Some? {
      LastWithIsLatest(all, o.lifecycle);
      var latest := LastWith(all, o.lifecycle).value;
      if Occurs(h, o, id) && latest != o {
        assert Precedes(o, latest);
      }
    }
  }

  /** The rule as the documentation states it: the last result wins; without any result
      the last decision does, as long as no user turn follows it. */
  lemma SurvivorByPosition(h: seq<Message>, id: string, o: Occurrence)
    requires id != ""
    ensures Survivor(h, id) == Some(o) <==>
            && IsLatest(h, o, id)
            && (o.lifecycle == Output ||
                (o.lifecycle == Approval
                 && (forall k :: o.message < k < |h| ==> !h[k].role.User?)
                 && (forall c: Occurrence :: Occurs(h, c, id) ==> c.lifecycle != Output)))
  {
    var all := Occurrences(h, id, |h|);
    LatestIsLastWith(h, o, id);
    LastWithIsIn(all, Output);
    LastWithIsIn(all, Approval);
    OccurrencesAreSound(h, id, |h|);
    forall c: Occurrence | Occurs(h, c, id) ensures c in all {
      OccurrencesAreComplete(h, id, |h|, c.message, c.part);
    }
    LastUserIsUser(h, |h|);
    forall k: nat | k < |h| && h[k].role.User? ensures k <= LastUser(h, |h|) {
      LastUserIsLast(h, |h|, k);
    }
  }

  // ---- The five passes ----

  datatype PruneStats =
    PruneStats(removedToolParts: seq<string>, removedEmptyTurns: nat, preservedApprovals: seq<string>)

  /** What pass 1 has collected after `j` parts of message `i`. */
  function SoFar(h: seq<Message>, id: string, i: nat, j: nat): seq<Occurrence>
    requires i < |h| && j <= |h[i].parts|
  {
    Occurrences(h, id, i) + InRow(h[i].parts, i, id, j)
  }

  function Listed(found: map<string, seq<Occurrence>>, id: string): seq<Occurrence> {
    if id in found then found[id] else []
  }

  /** `order` lists the keys of `found` once each, by first appearance. */
  ghost predicate KeysListed(order: seq<string>, found: map<string, seq<Occurrence>>) {
    && (forall id :: id in found <==> id in order)
    && (forall id :: id in found ==> id != "" && found[id] != [])
    && (forall a, b :: 0 <= a < b < |order| ==> order[a] != order[b])
  }

  /** The ids of all interactions by first appearance, after one more part. */
  function Appearing(order: seq<string>, p: Part): seq<string> {
    if Identified(p) && p.toolCallId !in order then order + [p.toolCallId] else order
  }

  function IdsInRow(order: seq<string>, parts: seq<Part>, n: nat): seq<string>
    requires n <= |parts|
  {
    if n == 0 then order else Appearing(IdsInRow(order, parts, n - 1), parts[n - 1])
  }

  function IdsIn(h: seq<Message>, n: nat): seq<string>
    requires n <= |h|
  {
    if n == 0 then [] else IdsInRow(IdsIn(h, n - 1), h[n - 1].parts, |h[n - 1].parts|)
  }

  /** Who decides about an id: its survivor in the history. */
  ghost function Judge(h: seq<Message>): string -> Option<Occurrence> {
    id => Survivor(h, id)
  }

  /** Those of the first `n` ids that lose every occurrence. */
  ghost function Lost(judge: string -> Option<Occurrence>, ids: seq<string>, n: nat): seq<string>
    requires n <= |ids|
  {
    if n == 0 then [] else Lost(judge, ids, n - 1) + (if judge(ids[n - 1]).None? then [ids[n - 1]] else [])
  }

  /** Those of the first `n` ids that keep a decision. */
  ghost function Decided(judge: string -> Option<Occurrence>, ids: seq<string>, n: nat): seq<string>
    requires n <= |ids|
  {
    if n == 0 then [] else Decided(judge, ids, n - 1) + (if IsDecision(judge(ids[n - 1])) then [ids[n - 1]] else [])
  }

  predicate IsDecision(survivor: Option<Occurrence>) {
    survivor.Some? && survivor.value.lifecycle == Approval
  }

  function Found(p: Part, id: string, i: nat, j: nat): seq<Occurrence> {
    if Selects(CallsOf(id), p) then [Occurrence(i, j, LifecycleOf(p))] else []
  }

  lemma OneMorePart(h: seq<Message>, id: string, i: nat, j: nat)
    requires i < |h| && j < |h[i].parts|
    ensures SoFar(h, id, i, j + 1) == SoFar(h, id, i, j) + Found(h[i].parts[j], id, i, j)
  {}

  lemma KeysGrow(order: seq<string>, found: map<string, seq<Occurrence>>, key: string, list: seq<Occurrence>)
    requires KeysListed(order, found) && key != "" && list != []
    ensures KeysListed(if key in order then order else order + [key], found[key := list])
  {}

  /** The occurrences listed by id, after one more part. */
  function Noted(found: map<string, seq<Occurrence>>, p: Part, i: nat, j: nat): map<string, seq<Occurrence>> {
    if Identified(p) then found[p.toolCallId := Listed(found, p.toolCallId) + [Occurrence(i, j, LifecycleOf(p))]]
    else found
  }

  function NotedRow(found: map<string, seq<Occurrence>>, parts: seq<Part>, i: nat, n: nat): map<string, seq<Occurrence>>
    requires n <= |parts|
  {
    if n == 0 then found else Noted(NotedRow(found, parts, i, n - 1), parts[n - 1], i, n - 1)
  }

  function NotedIn(h: seq<Message>, n: nat): map<string, seq<Occurrence>>
    requires n <= |h|
  {
    if n == 0 then map[] else NotedRow(NotedIn(h, n - 1), h[n - 1].parts, n - 1, |h[n - 1].parts|)
  }

  /** The lists hold every occurrence seen so far, in reading order. */
  ghost predicate ListsSoFar(h: seq<Message>, i: nat, j: nat, found: map<string, seq<Occurrence>>)
    requires i < |h| && j <= |h[i].parts|
  {
    forall id :: id != "" ==> Listed(found, id) == SoFar(h, id, i, j)
  }

  ghost predicate ListsAll(h: seq<Message>, n: nat, found: map<string, seq<Occurrence>>)
    requires n <= |h|
  {
    forall id :: id != "" ==> Listed(found, id) == Occurrences(h, id, n)
  }

  lemma NotedFor(found: map<string, seq<Occurrence>>, p: Part, i: nat, j: nat, id: string)
    requires id != ""
    ensures Listed(Noted(found, p, i, j), id) == Listed(found, id) + Found(p, id, i, j)
  {}

  lemma NotingKeepsLists(h: seq<Message>, i: nat, j: nat, found: map<string, seq<Occurrence>>)
    requires i < |h| && j < |h[i].parts| && ListsSoFar(h, i, j, found)
    ensures ListsSoFar(h, i, j + 1, Noted(found, h[i].parts[j], i, j))
  {
    var next := Noted(found, h[i].parts[j], i, j);
    forall id | id != "" ensures Listed(next, id) == SoFar(h, id, i, j + 1) {
      NotedFor(found, h[i].parts[j], i, j, id);
      OneMorePart(h, id, i, j);
    }
  }

  lemma NotingKeepsKeys(order: seq<string>, found: map<string, seq<Occurrence>>, p: Part, i: nat, j: nat)
    requires KeysListed(order, found)
    ensures KeysListed(Appearing(order, p), Noted(found, p, i, j))
  {
    if Identified(p) {
      KeysGrow(order, found, p.toolCallId, Listed(found, p.toolCallId) + [Occurrence(i, j, LifecycleOf(p))]);
    }
  }

  lemma {:induction false} RowIsListed(h: seq<Message>, i: nat, n: nat, order: seq<string>,
                                       found: map<string, seq<Occurrence>>)
    requires i < |h| && n <= |h[i].parts| && KeysListed(order, found) && ListsAll(h, i, found)
    ensures KeysListed(IdsInRow(order, h[i].parts, n), NotedRow(found, h[i].parts, i, n))
    ensures ListsSoFar(h, i, n, NotedRow(found, h[i].parts, i, n))
  {
    if n == 0 {
      forall id | id != "" ensures Listed(found, id) == SoFar(h, id, i, 0) {
        assert Occurrences(h, id, i) + [] == Occurrences(h, id, i);
      }
    } else {
      RowIsListed(h, i, n - 1, order, found);
      NotingKeepsLists(h, i, n - 1, NotedRow(found, h[i].parts, i, n - 1));
      NotingKeepsKeys(IdsInRow(order, h[i].parts, n - 1), NotedRow(found, h[i].parts, i, n - 1), h[i].parts[n - 1],
                      i, n - 1);
    }
  }

  lemma RowEnds(h: seq<Message>, i: nat, found: map<string, seq<Occurrence>>)
    requires i < |h| && ListsSoFar(h, i, |h[i].parts|, found)
    ensures ListsAll(h, i + 1, found)
  {}

  /** What pass 1 collects are all occurrences, under ids in the order of first appearance. */
  lemma {:induction false} AllIsListed(h: seq<Message>, n: nat)
    requires n <= |h|
    ensures KeysListed(IdsIn(h, n), NotedIn(h, n)) && ListsAll(h, n, NotedIn(h, n))
  {
    if n > 0 {
      AllIsListed(h, n - 1);
      RowIsListed(h, n - 1, |h[n - 1].parts|, IdsIn(h, n - 1), NotedIn(h, n - 1));
      RowEnds(h, n - 1, NotedIn(h, n));
    }
  }

  /** Pass 1: all occurrences of every interaction, in reading order, under ids in the order
      of their first appearance. */
  method CollectOccurrences(h: seq<Message>) returns (order: seq<string>, found: map<string, seq<Occurrence>>)
    ensures KeysListed(order, found) && ListsAll(h, |h|, found)
    ensures order == IdsIn(h, |h|)
  {
    order, found := [], map[];
    for i := 0 to |h|
      invariant order == IdsIn(h, i) && found == NotedIn(h, i)
    {
      order, found := CollectRow(h[i].parts, i, order, found);
    }
    AllIsListed(h, |h|);
  }

  /** Pass 1 on one message. */
  method CollectRow(parts: seq<Part>, i: nat, order: seq<string>, found: map<string, seq<Occurrence>>)
    returns (order': seq<string>, found': map<string, seq<Occurrence>>)
    ensures order' == IdsInRow(order, parts, |parts|) && found' == NotedRow(found, parts, i, |parts|)
  {
    order', found' := order, found;
    for j := 0 to |parts|
      invariant order' == IdsInRow(order, parts, j) && found' == NotedRow(found, parts, i, j)
    {
      var part := parts[j];
      if Identified(part) {
        var key := part.toolCallId;
        if key !in order' {
          order' := order' + [key];
        }
        found' := found'[key := Listed(found', key) + [Occurrence(i, j, LifecycleOf(part))]];
      }
    }
  }

  method FindLastUser(h: seq<Message>) returns (k: int)
    ensures k == LastUser(h, |h|)
  {
    k := |h| - 1;
    while k >= 0
      invariant -1 <= k < |h| && LastUser(h, |h|) == LastUser(h, k + 1)
    {
      if h[k].role.User? {
        return;
      }
      k := k - 1;
    }
  }

  /** The survivor among the occurrences of one interaction. */
  method ChooseSurvivor(all: seq<Occurrence>, lastUser: int) returns (survivor: Option<Occurrence>)
    ensures survivor == SurvivorOf(all, lastUser)
  {
    var lastOutput := LastWith(all, Output);
    if lastOutput.Some? {
      return lastOutput;
    }
    var lastApproval := LastWith(all, Approval);
    if lastApproval.Some? && lastApproval.value.message >= lastUser {
      return lastApproval;
    }
    return None;
  }

  /** The survivors of the interactions in `ids`. */
  ghost predicate KeepsFor(h: seq<Message>, ids: seq<string>, keep: set<(nat, nat)>) {
    forall i: nat, j: nat ::
      (i, j) in keep <==> (i, j) in KeepSet(h) && h[i].parts[j].toolCallId in ids
  }

  ghost predicate Reported(h: seq<Message>, ids: seq<string>, removed: seq<string>, preserved: seq<string>) {
    && (forall id :: id in removed <==> id in ids && Survivor(h, id).None?)
    && (forall id :: id in preserved <==>
          id in ids && Survivor(h, id).Some? && Survivor(h, id).value.lifecycle == Approval)
  }

  function Position(survivor: Option<Occurrence>): set<(nat, nat)> {
    if survivor.Some? then {(survivor.value.message, survivor.value.part)} else {}
  }

  /** Where the survivors of the first `n` ids are. */
  ghost function Positions(judge: string -> Option<Occurrence>, ids: seq<string>, n: nat): set<(nat, nat)>
    requires n <= |ids|
  {
    if n == 0 then {} else Positions(judge, ids, n - 1) + Position(judge(ids[n - 1]))
  }

  lemma {:induction false} PositionsAre(judge: string -> Option<Occurrence>, ids: seq<string>, n: nat)
    requires n <= |ids|
    ensures forall x :: x in Positions(judge, ids, n) <==> exists k :: 0 <= k < n && x in Position(judge(ids[k]))
  {
    if n > 0 {
      PositionsAre(judge, ids, n - 1);
    }
  }

  /** The survivor of `id` is the kept part that carries it. */
  lemma PositionOf(h: seq<Message>, id: string, i: nat, j: nat)
    requires id != ""
    ensures (i, j) in Position(Survivor(h, id)) <==> (i, j) in KeepSet(h) && h[i].parts[j].toolCallId == id
  {
    if Survivor(h, id).Some? {
      SurvivorOccurs(h, id);
    }
  }

  lemma PositionsKeep(h: seq<Message>, ids: seq<string>)
    requires "" !in ids
    ensures KeepsFor(h, ids, Positions(Judge(h), ids, |ids|))
  {
    PositionsAre(Judge(h), ids, |ids|);
    forall i: nat, j: nat
      ensures (i, j) in Positions(Judge(h), ids, |ids|) <==> (i, j) in KeepSet(h) && h[i].parts[j].toolCallId in ids
    {
      forall k | 0 <= k < |ids|
        ensures (i, j) in Position(Judge(h)(ids[k])) <==> (i, j) in KeepSet(h) && h[i].parts[j].toolCallId == ids[k]
      {
        PositionOf(h, ids[k], i, j);
      }
    }
  }

  lemma {:induction false} ListsReport(h: seq<Message>, ids: seq<string>, n: nat)
    requires n <= |ids|
    ensures Reported(h, ids[..n], Lost(Judge(h), ids, n), Decided(Judge(h), ids, n))
  {
    if n > 0 {
      ListsReport(h, ids, n - 1);
      assert ids[..n] == ids[..n - 1] + [ids[n - 1]];
    }
  }

  lemma AllDecided(h: seq<Message>, order: seq<string>, found: map<string, seq<Occurrence>>)
    requires KeysListed(order, found)
    ensures KeepsFor(h, order, Positions(Judge(h), order, |order|))
    ensures Reported(h, order, Lost(Judge(h), order, |order|), Decided(Judge(h), order, |order|))
  {
    assert order[..|order|] == order && "" !in order;
    PositionsKeep(h, order);
    ListsReport(h, order, |order|);
  }

  /** The lists at hand lead to these verdicts. */
  ghost predicate Judges(judge: string -> Option<Occurrence>, order: seq<string>, found: map<string, seq<Occurrence>>,
                         lastUser: int) {
    forall n :: 0 <= n < |order| ==>
      order[n] in found && SurvivorOf(found[order[n]], lastUser) == judge(order[n])
  }

  lemma ListsJudge(h: seq<Message>, order: seq<string>, found: map<string, seq<Occurrence>>)
    requires KeysListed(order, found) && ListsAll(h, |h|, found)
    ensures Judges(Judge(h), order, found, LastUser(h, |h|))
  {
    forall n | 0 <= n < |order|
      ensures order[n] in found && SurvivorOf(found[order[n]], LastUser(h, |h|)) == Judge(h)(order[n])
    {
      assert order[n] in order;
      assert Listed(found, order[n]) == found[order[n]];
    }
  }

  /** Pass 2: which occurrence of each interaction survives. */
  method DecideSurvivors(h: seq<Message>, order: seq<string>, found: map<string, seq<Occurrence>>)
    returns (keep: set<(nat, nat)>, removed: seq<string>, preserved: seq<string>)
    requires KeysListed(order, found) && ListsAll(h, |h|, found)
    ensures KeepsFor(h, order, keep) && Reported(h, order, removed, preserved)
    ensures removed == Lost(Judge(h), order, |order|) && preserved == Decided(Judge(h), order, |order|)
  {
    var lastUser := FindLastUser(h);
    ListsJudge(h, order, found);
    AllDecided(h, order, found);
    keep, removed, preserved := DecideAll(Judge(h), order, found, lastUser);
  }

  /** Pass 2 on the collected lists. */
  method DecideAll(ghost judge: string -> Option<Occurrence>, order: seq<string>, found: map<string, seq<Occurrence>>,
                   lastUser: int)
    returns (keep: set<(nat, nat)>, removed: seq<string>, preserved: seq<string>)
    requires Judges(judge, order, found, lastUser)
    ensures keep == Positions(judge, order, |order|)
    ensures removed == Lost(judge, order, |order|) && preserved == Decided(judge, order, |order|)
  {
    keep, removed, preserved := {}, [], [];
    for n := 0 to |order|
      invariant keep == Positions(judge, order, n)
      invariant removed == Lost(judge, order, n) && preserved == Decided(judge, order, n)
    {
      var id := order[n];
      var survivor := ChooseSurvivor(found[id], lastUser);
      if survivor.Some? {
        keep := keep + {(survivor.value.message, survivor.value.part)};
        if survivor.value.lifecycle == Approval {
          preserved := preserved + [id];
        }
      } else {
        removed := removed + [id];
      }
    }
  }

  lemma NothingUnlisted(h: seq<Message>, order: seq<string>, found: map<string, seq<Occurrence>>, keep: set<(nat, nat)>)
    requires KeysListed(order, found) && KeepsFor(h, order, keep) && ListsAll(h, |h|, found)
    ensures keep == KeepSet(h)
  {
    forall i: nat, j: nat | (i, j) in KeepSet(h) ensures h[i].parts[j].toolCallId in order {
      KeptIsListed(h, order, found, i, j);
    }
    forall x ensures x in keep <==> x in KeepSet(h) {
      assert (x.0, x.1) == x;
    }
  }

  lemma KeptIsListed(h: seq<Message>, order: seq<string>, found: map<string, seq<Occurrence>>, i: nat, j: nat)
    requires KeysListed(order, found) && (i, j) in KeepSet(h) && ListsAll(h, |h|, found)
    ensures h[i].parts[j].toolCallId in order
  {
    var p := h[i].parts[j];
    OccurrencesAreComplete(h, p.toolCallId, |h|, i, j);
    assert Listed(found, p.toolCallId) != [];
  }

  /** Pass 3 on one message. */
  method KeepParts(keep: set<(nat, nat)>, parts: seq<Part>, i: nat) returns (kept: seq<Part>)
    ensures kept == KeptParts(keep, parts, i, |parts|)
  {
    kept := [];
    for j := 0 to |parts|
      invariant kept == KeptParts(keep, parts, i, j)
    {
      var part := parts[j];
      if !Identified(part) {
        kept := kept + [part];
      } else if (i, j) in keep {
        kept := kept + [WithRecoveredToolInput(part)];
      } else {
        assert kept + [] == kept;
      }
    }
  }

  /** Pass 3: apply the keep set, promoting recovered arguments. */
  method RepairMessages(keep: set<(nat, nat)>, h: seq<Message>) returns (pruned: seq<Message>)
    ensures pruned == Repaired(keep, h, |h|)
  {
    pruned := [];
    for i := 0 to |h|
      invariant pruned == Repaired(keep, h, i)
    {
      var kept := KeepParts(keep, h[i].parts, i);
      pruned := pruned + [h[i].(parts := kept)];
    }
  }

  /** Pass 4: drop assistant turns without meaningful content. */
  method DropEmptyTurns(pruned: seq<Message>) returns (nonEmpty: seq<Message>, dropped: nat)
    ensures nonEmpty == DropEmpty(pruned, |pruned|) && dropped == |pruned| - |nonEmpty|
  {
    nonEmpty, dropped := [], 0;
    for i := 0 to |pruned|
      invariant nonEmpty == DropEmpty(pruned, i) && dropped == i - |nonEmpty|
    {
      if IsEmptyTurn(pruned[i]) {
        dropped := dropped + 1;
        assert nonEmpty + [] == nonEmpty;
      } else {
        nonEmpty := nonEmpty + [pruned[i]];
      }
    }
  }

  /** Pass 5: merge adjacent text-only user messages. */
  method MergeTextRuns(nonEmpty: seq<Message>) returns (merged: seq<Message>)
    ensures merged == MergeRuns(nonEmpty, |nonEmpty|)
  {
    merged := [];
    for i := 0 to |nonEmpty|
      invariant merged == MergeRuns(nonEmpty, i)
    {
      var message := nonEmpty[i];
      if merged != [] && IsTextOnlyUser(merged[|merged| - 1]) && IsTextOnlyUser(message) {
        var prev := merged[|merged| - 1];
        merged := merged[..|merged| - 1] + [prev.(parts := prev.parts + message.parts)];
      } else {
        merged := merged + [message];
      }
    }
  }

  /** The pruner: collect, decide, repair, drop empty turns, merge runs. */
  method PruneStaleMessages(h: seq<Message>) returns (merged: seq<Message>, stats: PruneStats)
    ensures merged == Prune(h)
    ensures forall id :: id in stats.removedToolParts <==>
              id != "" && Occurrences(h, id, |h|) != [] && Select(CallsOf(id), merged) == []
    ensures forall id :: id in stats.preservedApprovals <==>
              id != "" && Survivor(h, id).Some? && Survivor(h, id).value.lifecycle == Approval
    ensures stats.removedToolParts == Lost(Judge(h), IdsIn(h, |h|), |IdsIn(h, |h|)|)
    ensures stats.preservedApprovals == Decided(Judge(h), IdsIn(h, |h|), |IdsIn(h, |h|)|)
    ensures stats.removedEmptyTurns == |h| - |NonEmpty(h)|
  {
    var order, found := CollectOccurrences(h);
    var keep, removed, preserved := DecideSurvivors(h, order, found);
    NothingUnlisted(h, order, found, keep);
    var pruned := RepairMessages(keep, h);
    var nonEmpty, dropped := DropEmptyTurns(pruned);
    merged := MergeTextRuns(nonEmpty);
    StatsAreTruthful(h, order, found);
    stats := PruneStats(removed, dropped, preserved);
  }

  lemma LostExactlyWhen(h: seq<Message>, id: string)
    requires id != ""
    ensures Select(CallsOf(id), Prune(h)) == [] <==> Survivor(h, id).None?
    ensures Survivor(h, id).Some? ==> Occurrences(h, id, |h|) != []
  {
    PruneKeepsSurvivors(h, id);
    if Survivor(h, id).Some? {
      SurvivorOccurs(h, id);
    }
  }

  lemma ListedExactlyWhen(h: seq<Message>, order: seq<string>, found: map<string, seq<Occurrence>>, id: string)
    requires KeysListed(order, found) && ListsAll(h, |h|, found)
    ensures id in order <==> id != "" && Occurrences(h, id, |h|) != []
  {
    assert id != "" ==> Listed(found, id) == Occurrences(h, id, |h|);
  }

  lemma StatsAreTruthful(h: seq<Message>, order: seq<string>, found: map<string, seq<Occurrence>>)
    requires KeysListed(order, found) && ListsAll(h, |h|, found)
    ensures forall id :: id in order <==> id != "" && Occurrences(h, id, |h|) != []
    ensures forall id :: id != "" ==> (Select(CallsOf(id), Prune(h)) == [] <==> Survivor(h, id).None?)
    ensures forall id :: id != "" && Survivor(h, id).Some? ==> Occurrences(h, id, |h|) != []
  {
    forall id ensures id in order <==> id != "" && Occurrences(h, id, |h|) != [] {
      ListedExactlyWhen(h, order, found, id);
    }
    forall id | id != ""
      ensures Select(CallsOf(id), Prune(h)) == [] <==> Survivor(h, id).None?
      ensures Survivor(h, id).Some? ==> Occurrences(h, id, |h|) != []
    {
      LostExactlyWhen(h, id);
    }
  }
}
