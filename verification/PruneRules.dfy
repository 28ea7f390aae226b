/** What pruning leaves of a history, in terms of the stored fields alone. */
module PruneRules {
  import opened Options
  import opened UiMessages
  import opened PruneMessages

  // ---- One interaction ----

  predicate HasObject(v: Option<Json>) {
    v.Some? && v.value.JObject?
  }

  /** The part carries the interaction `id`. */
  predicate Carries(p: Part, id: string) {
    p.kind.Call? && p.toolCallId == id
  }

  /** A call that a provider would be shown. */
  predicate IsShown(p: Part) {
    p.state.ApprovalResponded? || p.state.OutputAvailable? || p.state.OutputError? || p.state.OutputDenied?
  }

  /** Whether the part can be shown: with an object for arguments, or, for a failed call,
      with a text that parses to one. */
  predicate CanStand(p: Part) {
    IsShown(p) ==> HasObject(p.input) || (p.state.OutputError? && p.rawInput.RawText? && HasObject(p.rawInput.parsed))
  }

  /** A call that ended. */
  predicate IsResult(p: Part) {
    (p.output.Some? || p.state.OutputError? || p.state.OutputDenied?) && CanStand(p)
  }

  /** A call that waits for a decision, or was decided and has not ended. */
  predicate IsDecision(p: Part) {
    p.output.None? && !p.state.OutputError? && !p.state.OutputDenied? && p.hasApproval && CanStand(p)
  }

  /** The part as it is sent: the parsed text takes the place of missing arguments. */
  function Sent(p: Part): Part {
    if HasObject(p.input) || !p.state.OutputError? || !p.rawInput.RawText? || !HasObject(p.rawInput.parsed) then p
    else p.(input := p.rawInput.parsed, rawInput := NoRawInput)
  }

  /** Part `j` of message `i` is the last one of `id` that follows `rule`. */
  ghost predicate IsLast(h: seq<Message>, id: string, rule: Part -> bool, i: nat, j: nat) {
    && i < |h| && j < |h[i].parts| && Carries(h[i].parts[j], id) && rule(h[i].parts[j])
    && (forall k, l :: i < k < |h| && 0 <= l < |h[k].parts| && Carries(h[k].parts[l], id) ==> !rule(h[k].parts[l]))
    && (forall l :: j < l < |h[i].parts| && Carries(h[i].parts[l], id) ==> !rule(h[i].parts[l]))
  }

  ghost predicate Nowhere(h: seq<Message>, id: string, rule: Part -> bool) {
    forall i, j :: 0 <= i < |h| && 0 <= j < |h[i].parts| && Carries(h[i].parts[j], id) ==> !rule(h[i].parts[j])
  }

  ghost predicate NoUserTurnAfter(h: seq<Message>, i: nat) {
    forall k :: i < k < |h| ==> !h[k].role.User?
  }

  lemma LifecycleExactlyWhen(p: Part)
    ensures LifecycleOf(p) == Output <==> IsResult(p)
    ensures LifecycleOf(p) == Approval <==> IsDecision(p)
    ensures WithRecoveredToolInput(p) == Sent(p)
  {}

  lemma OccursExactlyWhen(h: seq<Message>, o: Occurrence, id: string)
    requires id != ""
    ensures Occurs(h, o, id) <==>
            && o.message < |h| && o.part < |h[o.message].parts| && Carries(h[o.message].parts[o.part], id)
            && o.lifecycle == LifecycleOf(h[o.message].parts[o.part])
  {}

  /** The verdict a rule stands for. */
  lemma LastIsLatest(h: seq<Message>, id: string, rule: Part -> bool, i: nat, j: nat, lifecycle: Lifecycle)
    requires id != "" && forall p :: rule(p) <==> LifecycleOf(p) == lifecycle
    ensures IsLast(h, id, rule, i, j) <==> IsLatest(h, Occurrence(i, j, lifecycle), id)
  {
    var o := Occurrence(i, j, lifecycle);
    if IsLatest(h, o, id) {
      forall k, l | i < k < |h| && 0 <= l < |h[k].parts| && Carries(h[k].parts[l], id) ensures !rule(h[k].parts[l]) {
        assert !Occurs(h, Occurrence(k, l, lifecycle), id) by { assert Precedes(o, Occurrence(k, l, lifecycle)); }
      }
      forall l | j < l < |h[i].parts| && Carries(h[i].parts[l], id) ensures !rule(h[i].parts[l]) {
        assert !Occurs(h, Occurrence(i, l, lifecycle), id) by { assert Precedes(o, Occurrence(i, l, lifecycle)); }
      }
    }
  }

  lemma NowhereOccurs(h: seq<Message>, id: string, rule: Part -> bool, lifecycle: Lifecycle)
    requires id != "" && forall p :: rule(p) <==> LifecycleOf(p) == lifecycle
    ensures Nowhere(h, id, rule) <==> forall c: Occurrence :: Occurs(h, c, id) ==> c.lifecycle != lifecycle
  {
    if forall c: Occurrence :: Occurs(h, c, id) ==> c.lifecycle != lifecycle {
      forall i: nat, j: nat | i < |h| && j < |h[i].parts| && Carries(h[i].parts[j], id) ensures !rule(h[i].parts[j]) {
        assert !Occurs(h, Occurrence(i, j, lifecycle), id);
      }
    }
  }

  /** Which part of an interaction is sent: the last result that can stand. Without any, the
      last decision that can stand, unless a user turn follows it. Otherwise none. */
  lemma WhatIsLeft(h: seq<Message>, id: string, i: nat, j: nat)
    requires id != ""
    ensures IsLast(h, id, IsResult, i, j) ==>
              Select(CallsOf(id), Prune(h)) == [(h[i].role, Sent(h[i].parts[j]))]
    ensures IsLast(h, id, IsDecision, i, j) && Nowhere(h, id, IsResult) && NoUserTurnAfter(h, i) ==>
              Select(CallsOf(id), Prune(h)) == [(h[i].role, Sent(h[i].parts[j]))]
    ensures IsLast(h, id, IsDecision, i, j) && Nowhere(h, id, IsResult) && !NoUserTurnAfter(h, i) ==>
              Select(CallsOf(id), Prune(h)) == []
    ensures Nowhere(h, id, IsDecision) && Nowhere(h, id, IsResult) ==>
              Select(CallsOf(id), Prune(h)) == []
  {
    RulesAreLifecycles();
    PruneKeepsSurvivors(h, id);
    NowhereOccurs(h, id, IsResult, Output);
    NowhereOccurs(h, id, IsDecision, Approval);
    LastIsLatest(h, id, IsResult, i, j, Output);
    LastIsLatest(h, id, IsDecision, i, j, Approval);
    SurvivorByPosition(h, id, Occurrence(i, j, Output));
    SurvivorByPosition(h, id, Occurrence(i, j, Approval));
    if i < |h| && j < |h[i].parts| {
      LifecycleExactlyWhen(h[i].parts[j]);
    }
    if Survivor(h, id).Some? {
      SurvivorByPosition(h, id, Survivor(h, id).value);
    }
  }

  /** Part `j` of message `i` is the one that is sent of its interaction. */
  ghost predicate Stays(h: seq<Message>, i: nat, j: nat)
    requires i < |h| && j < |h[i].parts|
  {
    var id := h[i].parts[j].toolCallId;
    || IsLast(h, id, IsResult, i, j)
    || (IsLast(h, id, IsDecision, i, j) && Nowhere(h, id, IsResult) && NoUserTurnAfter(h, i))
  }

  lemma KeptExactlyWhen(h: seq<Message>, i: nat, j: nat)
    requires i < |h| && j < |h[i].parts| && h[i].parts[j].kind.Call? && h[i].parts[j].toolCallId != ""
    ensures (i, j) in KeepSet(h) <==> Stays(h, i, j)
  {
    var id := h[i].parts[j].toolCallId;
    RulesAreLifecycles();
    NowhereOccurs(h, id, IsResult, Output);
    LastIsLatest(h, id, IsResult, i, j, Output);
    LastIsLatest(h, id, IsDecision, i, j, Approval);
    SurvivorByPosition(h, id, Occurrence(i, j, Output));
    SurvivorByPosition(h, id, Occurrence(i, j, Approval));
    if Survivor(h, id).Some? {
      SurvivorOccurs(h, id);
    }
  }

  lemma RulesAreLifecycles()
    ensures forall p :: IsResult(p) <==> LifecycleOf(p) == Output
    ensures forall p :: IsDecision(p) <==> LifecycleOf(p) == Approval
  {
    forall p ensures (IsResult(p) <==> LifecycleOf(p) == Output) && (IsDecision(p) <==> LifecycleOf(p) == Approval) {
      LifecycleExactlyWhen(p);
    }
  }

  /** Selecting is by id; everything that is no call and no step marker is content. */
  lemma SelectsExactlyWhen(p: Part, id: string)
    ensures Selects(CallsOf(id), p) <==> Carries(p, id) && id != ""
    ensures Selects(NotCalls, p) <==> (!p.kind.Call? || p.toolCallId == "") && !p.kind.StepStart?
  {}

  // ---- The whole history ----

  ghost predicate TextOnlyUser(m: Message) {
    m.role.User? && |m.parts| > 0 && forall j :: 0 <= j < |m.parts| ==> m.parts[j].kind.Text?
  }

  ghost predicate OnlySteps(m: Message) {
    forall j :: 0 <= j < |m.parts| ==> m.parts[j].kind.StepStart?
  }

  /** Part `j` of message `i` may stand where it is. */
  ghost predicate IsHealthyCall(h: seq<Message>, i: nat, j: nat)
    requires i < |h| && j < |h[i].parts|
  {
    var p := h[i].parts[j];
    p.kind.Call? && p.toolCallId != "" ==>
      (IsResult(p) || (IsDecision(p) && NoUserTurnAfter(h, i))) && (IsShown(p) ==> HasObject(p.input))
  }

  /** A history in which every interaction appears once, as a result or an open decision with
      arguments, no assistant turn is empty and no two text-only user turns touch. */
  ghost predicate Healthy(h: seq<Message>) {
    && (forall id :: id != "" ==> |Select(CallsOf(id), h)| <= 1)
    && (forall i: nat, j: nat :: i < |h| && j < |h[i].parts| ==> IsHealthyCall(h, i, j))
    && (forall i :: 0 <= i < |h| && h[i].role.Assistant? ==> !OnlySteps(h[i]))
    && (forall i :: 0 < i < |h| ==> !(TextOnlyUser(h[i - 1]) && TextOnlyUser(h[i])))
  }

  lemma PartIsHealthy(h: seq<Message>, i: nat, j: nat)
    requires i < |h| && j < |h[i].parts| && PartsSettled(h) && ApprovalsCurrent(h)
    ensures IsHealthyCall(h, i, j)
  {
    var p := h[i].parts[j];
    assert h[i] in h && p in h[i].parts;
    LifecycleExactlyWhen(p);
    if Identified(p) && LifecycleOf(p) == Approval {
      assert HoldsApproval(h[i]);
    }
  }

  lemma PartIsSettled(h: seq<Message>, i: nat, p: Part)
    requires i < |h| && p in h[i].parts && Healthy(h)
    ensures IsSettledPart(p)
    ensures Identified(p) && LifecycleOf(p) == Approval ==> NoUserTurnAfter(h, i)
  {
    var j :| 0 <= j < |h[i].parts| && h[i].parts[j] == p;
    assert IsHealthyCall(h, i, j);
    LifecycleExactlyWhen(p);
  }

  lemma TextOnlyExactlyWhen(m: Message)
    ensures TextOnlyUser(m) <==> IsTextOnlyUser(m)
    ensures m.role.Assistant? ==> (OnlySteps(m) <==> IsEmptyTurn(m))
  {
    assert forall j :: 0 <= j < |m.parts| ==> m.parts[j] in m.parts;
  }

  lemma HealthyExactlyWhenSettled(h: seq<Message>)
    ensures Healthy(h) <==> Settled(h)
  {
    forall i | 0 <= i < |h|
      ensures TextOnlyUser(h[i]) <==> IsTextOnlyUser(h[i])
      ensures IsEmptyTurn(h[i]) <==> h[i].role.Assistant? && OnlySteps(h[i])
    {
      TextOnlyExactlyWhen(h[i]);
    }
    if Settled(h) {
      forall i: nat, j: nat | i < |h| && j < |h[i].parts| ensures IsHealthyCall(h, i, j) {
        PartIsHealthy(h, i, j);
      }
      assert forall i :: 0 <= i < |h| ==> h[i] in h;
    }
    if Healthy(h) {
      forall i: nat, p | i < |h| && p in h[i].parts
        ensures IsSettledPart(p)
        ensures Identified(p) && LifecycleOf(p) == Approval ==> NoUserTurnAfter(h, i)
      {
        PartIsSettled(h, i, p);
      }
    }
  }

  /** Whatever was stored is sent healthy, and exactly a healthy history is sent as it is. */
  lemma HealthyIsUntouched(h: seq<Message>)
    ensures Healthy(Prune(h))
    ensures Prune(h) == h <==> Healthy(h)
  {
    PruneSettles(h);
    UnchangedExactlyWhenSettled(h);
    HealthyExactlyWhenSettled(h);
    HealthyExactlyWhenSettled(Prune(h));
  }

  /** No turn is made up: every turn that is sent is a stored one with other parts. */
  lemma TurnsAreStored(h: seq<Message>)
    ensures forall m :: m in Prune(h) ==> exists i :: 0 <= i < |h| && h[i].id == m.id && h[i].role == m.role
  {
    forall m | m in Prune(h) ensures exists i :: 0 <= i < |h| && h[i].id == m.id && h[i].role == m.role {
      var k := MergedTurnIsOld(NonEmpty(h), |NonEmpty(h)|, m);
      var l := KeptTurnIsOld(Repaired(KeepSet(h), h, |h|), |h|, NonEmpty(h)[k]);
      RepairedRow(KeepSet(h), h, |h|, l);
    }
  }

  lemma {:induction false} MergedTurnIsOld(h: seq<Message>, n: nat, m: Message) returns (k: nat)
    requires n <= |h| && m in MergeRuns(h, n)
    ensures k < n && h[k].id == m.id && h[k].role == m.role
  {
    var before := MergeRuns(h, n - 1);
    if m in before {
      k := MergedTurnIsOld(h, n - 1, m);
    } else if |MergeRuns(h, n)| == |before| {
      k := MergedTurnIsOld(h, n - 1, before[|before| - 1]);
    } else {
      k := n - 1;
    }
  }

  lemma {:induction false} KeptTurnIsOld(h: seq<Message>, n: nat, m: Message) returns (k: nat)
    requires n <= |h| && m in DropEmpty(h, n)
    ensures k < n && h[k] == m
  {
    if m in DropEmpty(h, n - 1) {
      k := KeptTurnIsOld(h, n - 1, m);
    } else {
      k := n - 1;
    }
  }

  // ---- The report ----

  /** Nothing of part `j` of message `i` is left to see. */
  ghost predicate Vanishes(h: seq<Message>, i: nat, j: nat)
    requires i < |h| && j < |h[i].parts|
  {
    var p := h[i].parts[j];
    p.kind.StepStart? || (p.kind.Call? && p.toolCallId != "" && !Stays(h, i, j))
  }

  ghost predicate LosesAll(h: seq<Message>, i: nat)
    requires i < |h|
  {
    h[i].role.Assistant? && forall j: nat :: j < |h[i].parts| ==> Vanishes(h, i, j)
  }

  /** How many of the first `n` turns lose all that can be seen of them. */
  ghost function EmptiedTurns(h: seq<Message>, n: nat): nat
    requires n <= |h|
  {
    if n == 0 then 0 else EmptiedTurns(h, n - 1) + (if LosesAll(h, n - 1) then 1 else 0)
  }

  predicate ShowsAny(parts: seq<Part>) {
    exists p :: p in parts && !p.kind.StepStart?
  }

  lemma {:induction false} RowShowsExactlyWhen(keep: set<(nat, nat)>, parts: seq<Part>, i: nat, n: nat)
    requires n <= |parts|
    ensures ShowsAny(KeptParts(keep, parts, i, n)) <==>
            exists j :: 0 <= j < n && ShowsAny(KeptPart(keep, parts[j], i, j))
  {
    if n > 0 {
      RowShowsExactlyWhen(keep, parts, i, n - 1);
      ShowsConcat(KeptParts(keep, parts, i, n - 1), KeptPart(keep, parts[n - 1], i, n - 1));
    }
  }

  lemma ShowsConcat(a: seq<Part>, b: seq<Part>)
    ensures ShowsAny(a + b) <==> ShowsAny(a) || ShowsAny(b)
  {
    forall p ensures p in a + b <==> p in a || p in b {}
  }

  lemma VanishesExactlyWhen(h: seq<Message>, i: nat, j: nat)
    requires i < |h| && j < |h[i].parts|
    ensures ShowsAny(KeptPart(KeepSet(h), h[i].parts[j], i, j)) <==> !Vanishes(h, i, j)
  {
    var p := h[i].parts[j];
    var kept := KeptPart(KeepSet(h), p, i, j);
    if Identified(p) {
      KeptExactlyWhen(h, i, j);
    }
    assert kept != [] ==> kept[0] in kept && kept[0].kind == p.kind;
  }

  lemma TurnIsEmptiedExactlyWhen(h: seq<Message>, i: nat)
    requires i < |h|
    ensures IsEmptyTurn(Repaired(KeepSet(h), h, |h|)[i]) <==> LosesAll(h, i)
  {
    RepairedRow(KeepSet(h), h, |h|, i);
    RowShowsExactlyWhen(KeepSet(h), h[i].parts, i, |h[i].parts|);
    forall j: nat | j < |h[i].parts|
      ensures ShowsAny(KeptPart(KeepSet(h), h[i].parts[j], i, j)) <==> !Vanishes(h, i, j)
    {
      VanishesExactlyWhen(h, i, j);
    }
  }

  lemma {:induction false} DroppedAreCounted(h: seq<Message>, rows: seq<Message>, n: nat)
    requires n <= |h| == |rows| && forall i: nat :: i < |h| ==> (IsEmptyTurn(rows[i]) <==> LosesAll(h, i))
    ensures n - |DropEmpty(rows, n)| == EmptiedTurns(h, n)
  {
    if n > 0 {
      DroppedAreCounted(h, rows, n - 1);
    }
  }

  /** The number of dropped turns that is reported is the number of assistant turns that held
      nothing but step markers and calls that are not sent. */
  lemma EmptiedTurnsAreReported(h: seq<Message>)
    ensures |h| - |NonEmpty(h)| == EmptiedTurns(h, |h|)
  {
    forall i: nat | i < |h| ensures IsEmptyTurn(Repaired(KeepSet(h), h, |h|)[i]) <==> LosesAll(h, i) {
      TurnIsEmptiedExactlyWhen(h, i);
    }
    DroppedAreCounted(h, Repaired(KeepSet(h), h, |h|), |h|);
  }

  /** The interaction appears among the first `n` parts. */
  ghost predicate Appears(parts: seq<Part>, id: string, n: nat)
    requires n <= |parts|
  {
    id != "" && exists j :: 0 <= j < n && Carries(parts[j], id)
  }

  lemma {:induction false} RowIsListedInOrder(order: seq<string>, parts: seq<Part>, n: nat, m: nat)
    requires n <= m <= |parts|
    ensures order <= IdsInRow(order, parts, n) <= IdsInRow(order, parts, m)
    ensures forall id :: id in IdsInRow(order, parts, m) <==> id in order || Appears(parts, id, m)
  {
    if m > 0 {
      RowIsListedInOrder(order, parts, if n < m then n else m - 1, m - 1);
      forall id
        ensures Appears(parts, id, m) <==> Appears(parts, id, m - 1) || (id != "" && Carries(parts[m - 1], id)) {}
    }
  }

  /** The report lists every interaction at its first appearance: later parts and messages only
      add ids behind those that earlier ones brought. */
  lemma {:induction false} ReportIsInReadingOrder(h: seq<Message>, n: nat, m: nat)
    requires n <= m <= |h|
    ensures IdsIn(h, n) <= IdsIn(h, m)
    ensures forall id :: id in IdsIn(h, m) <==> exists i :: 0 <= i < m && Appears(h[i].parts, id, |h[i].parts|)
  {
    if m > 0 {
      ReportIsInReadingOrder(h, if n < m then n else m - 1, m - 1);
      RowIsListedInOrder(IdsIn(h, m - 1), h[m - 1].parts, 0, |h[m - 1].parts|);
    }
  }

  /** What is removed and what is preserved is reported in that order. */
  lemma {:induction false} VerdictsAreInOrder(judge: string -> Option<Occurrence>, ids: seq<string>, n: nat, m: nat)
    requires n <= m <= |ids|
    ensures Lost(judge, ids, n) <= Lost(judge, ids, m) && Decided(judge, ids, n) <= Decided(judge, ids, m)
    ensures forall id :: id in Lost(judge, ids, m) <==> exists k :: 0 <= k < m && ids[k] == id && judge(id).None?
  {
    if m > 0 {
      VerdictsAreInOrder(judge, ids, if n < m then n else m - 1, m - 1);
    }
  }
}
