/** Batched live command output: text is pushed per call and emitted in parts. */
module TerminalStream {
  import opened Options
  import opened Decimal
  import opened Texts

  const FLUSH_BYTES := 4096
  const MAX_PARTS_PER_CALL := 400

  datatype TerminalPart = TerminalPart(id: string, toolCallId: string, chunks: seq<string>, done: bool)

  function PartId(toolCallId: string, n: nat): string {
    "terminal-" + toolCallId + "-" + Render(n)
  }

  /** The text of the live parts of a call among the parts `from..n` that were written. */
  function LiveText(out: seq<TerminalPart>, id: string, from: nat, n: nat): string
    requires n <= |out|
  {
    if n <= from then ""
    else
      LiveText(out, id, from, n - 1) +
      (if out[n - 1].toolCallId == id && !out[n - 1].done then Concat(out[n - 1].chunks) else "")
  }

  function LiveParts(out: seq<TerminalPart>, id: string, from: nat, n: nat): nat
    requires n <= |out|
  {
    if n <= from then 0
    else LiveParts(out, id, from, n - 1) + (if out[n - 1].toolCallId == id && !out[n - 1].done then 1 else 0)
  }

  function DoneParts(out: seq<TerminalPart>, id: string, from: nat, n: nat): nat
    requires n <= |out|
  {
    if n <= from then 0
    else DoneParts(out, id, from, n - 1) + (if out[n - 1].toolCallId == id && out[n - 1].done then 1 else 0)
  }

  lemma {:induction false} PrefixUnchanged(out: seq<TerminalPart>, p: TerminalPart, id: string, from: nat, n: nat)
    requires n <= |out|
    ensures LiveText(out + [p], id, from, n) == LiveText(out, id, from, n)
    ensures LiveParts(out + [p], id, from, n) == LiveParts(out, id, from, n)
    ensures DoneParts(out + [p], id, from, n) == DoneParts(out, id, from, n)
  {
    if n > from {
      PrefixUnchanged(out, p, id, from, n - 1);
    }
  }

  lemma OneMorePart(out: seq<TerminalPart>, p: TerminalPart, id: string, from: nat)
    requires from <= |out|
    ensures var next := out + [p];
            && LiveText(next, id, from, |next|) ==
               LiveText(out, id, from, |out|) + (if p.toolCallId == id && !p.done then Concat(p.chunks) else "")
            && LiveParts(next, id, from, |next|) ==
               LiveParts(out, id, from, |out|) + (if p.toolCallId == id && !p.done then 1 else 0)
            && DoneParts(next, id, from, |next|) ==
               DoneParts(out, id, from, |out|) + (if p.toolCallId == id && p.done then 1 else 0)
  {
    PrefixUnchanged(out, p, id, from, |out|);
  }

  /** The number behind the last dash tells two part ids apart, whatever the call ids. */
  lemma PartIdsAreDistinct(a: string, m: nat, b: string, n: nat)
    requires PartId(a, m) == PartId(b, n)
    ensures m == n
  {
    var s, x, y := PartId(a, m), Render(m), Render(n);
    RenderIsDigits(m);
    RenderIsDigits(n);
    var i, j := |s| - |x| - 1, |s| - |y| - 1;
    assert s[i] == '-' && s[j] == '-';
    assert forall k :: i < k < |s| ==> s[k] == x[k - i - 1];
    assert forall k :: j < k < |s| ==> s[k] == y[k - j - 1];
    assert i == j;
    assert x == s[i + 1..] == y;
    RenderIsInjective(m, n);
  }

  datatype CallState = CallState(pending: string, pendingBytes: nat, timer: bool, partsSent: nat, capped: bool)

  /** A call since it opened: all text pushed, and how many parts existed at its start. */
  datatype Session = Session(pushed: string, openedAt: nat)

  /** How a call relates to what was written for it since it opened. */
  ghost predicate Agrees(s: CallState, x: Session, id: string, out: seq<TerminalPart>, maxParts: nat) {
    && x.openedAt <= |out|
    && s.pendingBytes == |s.pending|
    && s.partsSent == LiveParts(out, id, x.openedAt, |out|) <= maxParts
    && DoneParts(out, id, x.openedAt, |out|) == 0
    && (s.capped ==> s.partsSent >= maxParts)
    && (if s.capped then s.pending == "" && LiveText(out, id, x.openedAt, |out|) <= x.pushed
        else LiveText(out, id, x.openedAt, |out|) + s.pending == x.pushed)
  }

  lemma OtherCallAgrees(s: CallState, x: Session, id: string, out: seq<TerminalPart>, p: TerminalPart, maxParts: nat)
    requires Agrees(s, x, id, out, maxParts) && p.toolCallId != id
    ensures Agrees(s, x, id, out + [p], maxParts)
  {
    OneMorePart(out, p, id, x.openedAt);
  }

  /** What a flush leaves of the state, and the chunks it sends. */
  function Flushed(s: CallState, maxParts: nat): CallState {
    var sends := s.pending != "" && s.partsSent < maxParts;
    CallState("", 0, false, if sends then s.partsSent + 1 else s.partsSent, s.capped || s.partsSent >= maxParts)
  }

  function Sent(s: CallState, id: string, n: nat, maxParts: nat): seq<TerminalPart> {
    if s.pending != "" && s.partsSent < maxParts then [TerminalPart(PartId(id, n), id, [s.pending], false)] else []
  }

  lemma FlushAgrees(s: CallState, x: Session, id: string, out: seq<TerminalPart>, maxParts: nat)
    requires Agrees(s, x, id, out, maxParts)
    ensures Agrees(Flushed(s, maxParts), x, id, out + Sent(s, id, |out| + 1, maxParts), maxParts)
  {
    if s.pending != "" && s.partsSent < maxParts {
      var p := TerminalPart(PartId(id, |out| + 1), id, [s.pending], false);
      OneMorePart(out, p, id, x.openedAt);
      assert p.chunks[1..] == [];
      assert Concat(p.chunks) == s.pending;
    } else {
      assert out + [] == out;
    }
  }

  /** All open calls agree with the parts written, which are numbered in order. */
  ghost predicate AllAgree(calls: map<string, CallState>, sessions: map<string, Session>,
                           out: seq<TerminalPart>, maxParts: nat) {
    && sessions.Keys == calls.Keys && "" !in calls
    && (forall id :: id in calls ==> Agrees(calls[id], sessions[id], id, out, maxParts))
    && (forall k :: 0 <= k < |out| ==> out[k].id == PartId(out[k].toolCallId, k + 1))
  }

  lemma NoPartIdRepeats(calls: map<string, CallState>, sessions: map<string, Session>, out: seq<TerminalPart>,
                        maxParts: nat)
    requires AllAgree(calls, sessions, out, maxParts)
    ensures forall i, j :: 0 <= i < j < |out| ==> out[i].id != out[j].id
  {
    forall i, j | 0 <= i < j < |out| ensures out[i].id != out[j].id {
      if out[i].id == out[j].id {
        PartIdsAreDistinct(out[i].toolCallId, i + 1, out[j].toolCallId, j + 1);
      }
    }
  }

  /** Between two events whatever is pending has a timer, and is too short to be sent at once. */
  ghost predicate AtRest(calls: map<string, CallState>) {
    forall id :: id in calls ==> (calls[id].pending != "" ==> calls[id].timer) && |calls[id].pending| < 4096
  }

  /** Nothing that was pushed is lost before the cap: it was sent, or it is pending. */
  lemma NothingIsLostBelowTheCap(calls: map<string, CallState>, sessions: map<string, Session>, out: seq<TerminalPart>,
                                 id: string, maxParts: nat)
    requires AllAgree(calls, sessions, out, maxParts) && id in calls
    requires LiveParts(out, id, sessions[id].openedAt, |out|) < maxParts
    ensures LiveText(out, id, sessions[id].openedAt, |out|) + calls[id].pending == sessions[id].pushed
  {
    assert Agrees(calls[id], sessions[id], id, out, maxParts);
  }

  lemma OthersAgree(calls: map<string, CallState>, sessions: map<string, Session>, out: seq<TerminalPart>,
                    id: string, p: TerminalPart, maxParts: nat)
    requires AllAgree(calls, sessions, out, maxParts) && p.toolCallId == id
    ensures forall other :: other in calls && other != id ==>
              Agrees(calls[other], sessions[other], other, out + [p], maxParts)
  {
    forall other | other in calls && other != id
      ensures Agrees(calls[other], sessions[other], other, out + [p], maxParts)
    {
      OtherCallAgrees(calls[other], sessions[other], other, out, p, maxParts);
    }
  }

  lemma FlushKeepsAgreement(calls: map<string, CallState>, sessions: map<string, Session>, out: seq<TerminalPart>,
                            id: string, maxParts: nat)
    requires AllAgree(calls, sessions, out, maxParts) && id in calls
    ensures AllAgree(calls[id := Flushed(calls[id], maxParts)], sessions,
                     out + Sent(calls[id], id, |out| + 1, maxParts), maxParts)
  {
    var sent := Sent(calls[id], id, |out| + 1, maxParts);
    FlushAgrees(calls[id], sessions[id], id, out, maxParts);
    if sent != [] {
      assert sent == [sent[0]];
      OthersAgree(calls, sessions, out, id, sent[0], maxParts);
    } else {
      assert out + sent == out;
    }
  }

  /** The state and session of a call that has just received text. */
  function Received(s: CallState, chunk: string): CallState {
    if s.capped then s else s.(pending := s.pending + chunk, pendingBytes := s.pendingBytes + |chunk|)
  }

  function Extended(x: Session, chunk: string): Session {
    x.(pushed := x.pushed + chunk)
  }

  lemma ReceivingKeepsAgreement(calls: map<string, CallState>, sessions: map<string, Session>, out: seq<TerminalPart>,
                                id: string, chunk: string, maxParts: nat)
    requires AllAgree(calls, sessions, out, maxParts) && id in calls
    ensures AllAgree(calls[id := Received(calls[id], chunk)], sessions[id := Extended(sessions[id], chunk)], out,
                     maxParts)
  {
    var text := LiveText(out, id, sessions[id].openedAt, |out|);
    assert (text + calls[id].pending) + chunk == text + (calls[id].pending + chunk);
  }

  function Opened(calls: map<string, CallState>, id: string): (r: map<string, CallState>)
    ensures id in r
  {
    if id in calls then calls else calls[id := CallState("", 0, false, 0, false)]
  }

  function OpenedAt(sessions: map<string, Session>, calls: map<string, CallState>, id: string,
                    at: nat): map<string, Session> {
    if id in calls then sessions else sessions[id := Session("", at)]
  }

  lemma OpeningKeepsAgreement(calls: map<string, CallState>, sessions: map<string, Session>, out: seq<TerminalPart>,
                              id: string, maxParts: nat)
    requires AllAgree(calls, sessions, out, maxParts) && AtRest(calls) && id != ""
    ensures AllAgree(Opened(calls, id), OpenedAt(sessions, calls, id, |out|), out, maxParts)
    ensures AtRest(Opened(calls, id))
  {
    var after := Opened(calls, id);
    forall other | other in after && other != id ensures other in calls && after[other] == calls[other] {}
  }

  lemma ArmingKeepsAgreement(calls: map<string, CallState>, sessions: map<string, Session>, out: seq<TerminalPart>,
                             id: string, armed: bool, maxParts: nat)
    requires AllAgree(calls, sessions, out, maxParts) && id in calls
    ensures AllAgree(calls[id := calls[id].(timer := armed)], sessions, out, maxParts)
  {}

  /** What completing a call sends: the leftovers, then the done part. */
  function Closing(s: CallState, id: string, out: seq<TerminalPart>, maxParts: nat): seq<TerminalPart> {
    var flushed := out + Sent(s, id, |out| + 1, maxParts);
    flushed + [TerminalPart(PartId(id, |flushed| + 1), id, [], true)]
  }

  /** The done part of a call is its only one and follows all text that is sent for it; that
      text is everything pushed unless the call was, or just went, over its cap. */
  ghost predicate Completes(s: CallState, x: Session, id: string, closed: seq<TerminalPart>, maxParts: nat) {
    && x.openedAt < |closed|
    && closed[|closed| - 1] == TerminalPart(PartId(id, |closed|), id, [], true)
    && DoneParts(closed, id, x.openedAt, |closed|) == 1
    && LiveParts(closed, id, x.openedAt, |closed|) <= maxParts
    && LiveText(closed, id, x.openedAt, |closed|) <= x.pushed
    && (LiveText(closed, id, x.openedAt, |closed|) == x.pushed ||
        (LiveParts(closed, id, x.openedAt, |closed|) == s.partsSent == maxParts && (s.pending != "" || s.capped)))
  }

  lemma ClosingKeepsAgreement(calls: map<string, CallState>, sessions: map<string, Session>, out: seq<TerminalPart>,
                              id: string, maxParts: nat)
    requires AllAgree(calls, sessions, out, maxParts) && id in calls
    ensures AllAgree(calls - {id}, sessions - {id}, out + [TerminalPart(PartId(id, |out| + 1), id, [], true)], maxParts)
  {
    OthersAgree(calls, sessions, out, id, TerminalPart(PartId(id, |out| + 1), id, [], true), maxParts);
  }

  lemma ClosingCompletes(s: CallState, x: Session, id: string, out: seq<TerminalPart>, maxParts: nat)
    requires Agrees(s, x, id, out, maxParts)
    ensures Completes(s, x, id, Closing(s, id, out, maxParts), maxParts)
  {
    var flushed := out + Sent(s, id, |out| + 1, maxParts);
    var text := LiveText(flushed, id, x.openedAt, |flushed|);
    FlushAgrees(s, x, id, out, maxParts);
    OneMorePart(flushed, TerminalPart(PartId(id, |flushed| + 1), id, [], true), id, x.openedAt);
    assert text + "" == text;
    if s.pending == "" {
      assert flushed == out && text + s.pending == text;
    }
  }

  /** A call after a push, and the parts that push sends. */
  function AfterPush(s: CallState, chunk: string, maxParts: nat): CallState {
    if s.capped then s
    else
      var r := Received(s, chunk);
      if r.pendingBytes >= FLUSH_BYTES then Flushed(r, maxParts) else r.(timer := true)
  }

  function PushSends(s: CallState, chunk: string, id: string, n: nat, maxParts: nat): seq<TerminalPart> {
    if s.capped || Received(s, chunk).pendingBytes < FLUSH_BYTES then [] else Sent(Received(s, chunk), id, n, maxParts)
  }

  /** A push sends something exactly when that fills a part and the call is below its cap,
      and then it sends all that was pending and what came. */
  lemma PushSendsExactlyWhen(s: CallState, chunk: string, id: string, n: nat, maxParts: nat)
    requires s.pendingBytes == |s.pending| && (s.capped ==> s.partsSent >= maxParts)
    ensures PushSends(s, chunk, id, n, maxParts) ==
            if |s.pending| + |chunk| >= 4096 && s.partsSent < maxParts
            then [TerminalPart(PartId(id, n), id, [s.pending + chunk], false)] else []
    ensures var after := AfterPush(s, chunk, maxParts);
            && (|s.pending| + |chunk| >= 4096 && !s.capped ==> after.pending == "" && !after.timer)
            && (|s.pending| + |chunk| < 4096 && !s.capped ==> after.pending == s.pending + chunk && after.timer)
            && (s.capped ==> after == s)
  {}

  /** A timer sends what is pending, below the cap, and leaves nothing behind. */
  lemma FireSendsExactlyWhen(s: CallState, id: string, n: nat, maxParts: nat)
    ensures Sent(s, id, n, maxParts) ==
            if s.pending != "" && s.partsSent < maxParts
            then [TerminalPart(PartId(id, n), id, [s.pending], false)] else []
    ensures AfterFire(s, maxParts).pending == "" && !AfterFire(s, maxParts).timer
    ensures AfterFire(s, maxParts).capped <==> s.capped || (s.pending != "" && s.partsSent >= maxParts)
  {}

  function AfterReceiving(calls: map<string, CallState>, id: string, chunk: string,
                          maxParts: nat): map<string, CallState>
    requires id in calls
  {
    calls[id := AfterPush(calls[id], chunk, maxParts)]
  }

  function Hearing(sessions: map<string, Session>, id: string, chunk: string): map<string, Session> {
    if id in sessions then sessions[id := Extended(sessions[id], chunk)] else sessions
  }

  lemma PushKeepsAgreement(calls: map<string, CallState>, sessions: map<string, Session>, out: seq<TerminalPart>,
                           id: string, chunk: string, maxParts: nat)
    requires AllAgree(calls, sessions, out, maxParts) && AtRest(calls) && id in calls
    ensures AllAgree(AfterReceiving(calls, id, chunk, maxParts), Hearing(sessions, id, chunk),
                     out + PushSends(calls[id], chunk, id, |out| + 1, maxParts), maxParts)
    ensures AtRest(AfterReceiving(calls, id, chunk, maxParts))
  {
    var s, r := calls[id], Received(calls[id], chunk);
    var received, extended := calls[id := r], sessions[id := Extended(sessions[id], chunk)];
    ReceivingKeepsAgreement(calls, sessions, out, id, chunk, maxParts);
    if s.capped || r.pendingBytes < FLUSH_BYTES {
      assert out + [] == out;
      ArmingKeepsAgreement(received, extended, out, id, if s.capped then r.timer else true, maxParts);
      assert received[id := r.(timer := if s.capped then r.timer else true)] ==
             calls[id := AfterPush(s, chunk, maxParts)];
    } else {
      FlushKeepsAgreement(received, extended, out, id, maxParts);
      assert received[id := Flushed(r, maxParts)] == calls[id := AfterPush(s, chunk, maxParts)];
    }
  }

  /** A call after its timer fired. */
  function AfterFire(s: CallState, maxParts: nat): CallState {
    if s.pending == "" then s.(timer := false) else Flushed(s, maxParts)
  }

  lemma FireKeepsAgreement(calls: map<string, CallState>, sessions: map<string, Session>, out: seq<TerminalPart>,
                           id: string, maxParts: nat)
    requires AllAgree(calls, sessions, out, maxParts) && AtRest(calls) && id in calls
    ensures AllAgree(calls[id := AfterFire(calls[id], maxParts)], sessions,
                     out + Sent(calls[id], id, |out| + 1, maxParts), maxParts)
    ensures AtRest(calls[id := AfterFire(calls[id], maxParts)])
  {
    if calls[id].pending == "" {
      ArmingKeepsAgreement(calls, sessions, out, id, false, maxParts);
      assert out + [] == out;
    } else {
      FlushKeepsAgreement(calls, sessions, out, id, maxParts);
    }
  }

  lemma FlushedOrNot(calls: map<string, CallState>, id: string, s: CallState)
    ensures calls[id := s] - {id} == calls - {id}
  {}

  lemma CompleteKeepsAgreement(calls: map<string, CallState>, sessions: map<string, Session>, out: seq<TerminalPart>,
                               id: string, maxParts: nat)
    requires AllAgree(calls, sessions, out, maxParts) && id in calls
    ensures AllAgree(calls - {id}, sessions - {id}, Closing(calls[id], id, out, maxParts), maxParts)
  {
    var flushed, sent := calls[id := Flushed(calls[id], maxParts)], Sent(calls[id], id, |out| + 1, maxParts);
    FlushKeepsAgreement(calls, sessions, out, id, maxParts);
    ClosingKeepsAgreement(flushed, sessions, out + sent, id, maxParts);
    FlushedOrNot(calls, id, Flushed(calls[id], maxParts));
  }

  lemma CompletionIsExact(calls: map<string, CallState>, sessions: map<string, Session>, out: seq<TerminalPart>,
                          id: string, maxParts: nat)
    requires AllAgree(calls, sessions, out, maxParts) && AtRest(calls) && id in calls
    ensures AtRest(calls - {id})
    ensures Completes(calls[id], sessions[id], id, Closing(calls[id], id, out, maxParts), maxParts)
  {
    ClosingCompletes(calls[id], sessions[id], id, out, maxParts);
  }

  class Batcher {
    const maxParts: nat
    var calls: map<string, CallState>
    var seqNo: nat
    var out: seq<TerminalPart>

    ghost var sessions: map<string, Session>

    /** Between two events no text is pending without a timer to flush it. */
    ghost predicate Valid()
      reads this
    {
      seqNo == |out| && AllAgree(calls, sessions, out, maxParts) && AtRest(calls)
    }

    constructor (maxParts: Option<nat>)
      ensures Valid() && calls == map[] && out == []
      ensures maxParts.Some? ==> this.maxParts == maxParts.value
      ensures maxParts.None? ==> this.maxParts == 400
    {
      this.maxParts := if maxParts.Some? then maxParts.value else MAX_PARTS_PER_CALL;
      calls, sessions, seqNo, out := map[], map[], 0, [];
    }

    method WritePart(id: string, chunks: seq<string>, done: bool)
      requires seqNo == |out|
      modifies `seqNo, `out
      ensures seqNo == |out|
      ensures out == old(out) + [TerminalPart(PartId(id, |old(out)| + 1), id, chunks, done)]
    {
      seqNo := seqNo + 1;
      out := out + [TerminalPart(PartId(id, seqNo), id, chunks, done)];
    }

    /** Sends what is pending as one part, or drops it once the call is at its cap. */
    method Flush(id: string, s: CallState) returns (flushed: CallState)
      requires seqNo == |out|
      modifies `seqNo, `out
      ensures seqNo == |out| && flushed == Flushed(s, maxParts)
      ensures out == old(out) + Sent(s, id, |old(out)| + 1, maxParts)
    {
      var state := s.(timer := false);
      if state.pending == "" || state.partsSent >= maxParts {
        if state.partsSent >= maxParts {
          state := state.(capped := true);
        }
        return state.(pending := "", pendingBytes := 0);
      }
      state := state.(partsSent := state.partsSent + 1);
      var chunks := [state.pending];
      state := state.(pending := "", pendingBytes := 0);
      WritePart(id, chunks, false);
      return state;
    }

    /** Finds or opens the call. */
    method StateFor(id: string) returns (s: CallState)
      modifies `calls, `sessions
      ensures calls == Opened(old(calls), id) && s == calls[id]
      ensures sessions == OpenedAt(old(sessions), old(calls), id, |out|)
    {
      if id !in calls {
        calls := calls[id := CallState("", 0, false, 0, false)];
        sessions := sessions[id := Session("", |out|)];
      }
      return calls[id];
    }

    /** One read of a command's output. A call without an id is ignored. */
    method Push(id: string, chunk: string)
      requires Valid()
      modifies this
      ensures Valid()
      ensures id == "" ==> calls == old(calls) && out == old(out) && sessions == old(sessions)
      ensures id != "" ==>
              out == old(out) + PushSends(Opened(old(calls), id)[id], chunk, id, |old(out)| + 1, maxParts)
      ensures id != "" ==> calls == AfterReceiving(Opened(old(calls), id), id, chunk, maxParts)
      ensures id != "" ==> sessions == Hearing(OpenedAt(old(sessions), old(calls), id, |old(out)|), id, chunk)
    {
      if id != "" {
        OpeningKeepsAgreement(calls, sessions, out, id, maxParts);
        var state := StateFor(id);
        PushOpen(id, state, chunk);
      }
    }

    /** A push to a call that is open. */
    method PushOpen(id: string, s: CallState, chunk: string)
      requires Valid() && id in calls && calls[id] == s
      modifies this
      ensures Valid()
      ensures calls == AfterReceiving(old(calls), id, chunk, maxParts)
      ensures out == old(out) + PushSends(s, chunk, id, |old(out)| + 1, maxParts)
      ensures sessions == Hearing(old(sessions), id, chunk)
    {
      PushKeepsAgreement(calls, sessions, out, id, chunk, maxParts);
      Receive(id, s, chunk);
    }

    /** The body of a push, once the state of the call is at hand. */
    method Receive(id: string, s: CallState, chunk: string)
      requires seqNo == |out| && id in sessions
      modifies this
      ensures seqNo == |out|
      ensures calls == old(calls)[id := AfterPush(s, chunk, maxParts)]
      ensures out == old(out) + PushSends(s, chunk, id, |old(out)| + 1, maxParts)
      ensures sessions == Hearing(old(sessions), id, chunk)
    {
      sessions := sessions[id := Extended(sessions[id], chunk)];
      var state := s;
      if !state.capped {
        state := state.(pending := state.pending + chunk, pendingBytes := state.pendingBytes + |chunk|);
        if state.pendingBytes >= FLUSH_BYTES {
          state := Flush(id, state);
        } else {
          state := state.(timer := true);
        }
      }
      calls := calls[id := state];
    }

    /** A flush timer fires. */
    method Fire(id: string)
      requires Valid() && id in calls && calls[id].timer
      modifies `calls, `seqNo, `out
      ensures Valid()
      ensures calls == old(calls)[id := AfterFire(old(calls)[id], maxParts)]
      ensures out == old(out) + Sent(old(calls)[id], id, |old(out)| + 1, maxParts)
    {
      FireKeepsAgreement(calls, sessions, out, id, maxParts);
      Expire(id, calls[id]);
    }

    /** The body of a timer callback. */
    method Expire(id: string, s: CallState)
      requires seqNo == |out|
      modifies `calls, `seqNo, `out
      ensures seqNo == |out|
      ensures calls == old(calls)[id := AfterFire(s, maxParts)]
      ensures out == old(out) + Sent(s, id, |old(out)| + 1, maxParts)
    {
      var state := s.(timer := false);
      if state.pending != "" {
        state := Flush(id, state);
      }
      calls := calls[id := state];
    }

    /** The command ended: leftovers first, then exactly one done part, which is sent even
        beyond the cap. */
    method Complete(id: string)
      requires Valid()
      modifies this
      ensures Valid()
      ensures id !in old(calls) ==> calls == old(calls) && out == old(out) && sessions == old(sessions)
      ensures id in old(calls) ==> calls == old(calls) - {id} && sessions == old(sessions) - {id}
      ensures id in old(calls) ==>
              out == Closing(old(calls)[id], id, old(out), maxParts)
              && Completes(old(calls)[id], old(sessions)[id], id, out, maxParts)
    {
      if id in calls {
        CompleteKeepsAgreement(calls, sessions, out, id, maxParts);
        CompletionIsExact(calls, sessions, out, id, maxParts);
        Close(id, calls[id]);
      }
    }

    /** The body of a completion of an open call. */
    method Close(id: string, s: CallState)
      requires seqNo == |out|
      modifies this
      ensures seqNo == |out|
      ensures calls == old(calls) - {id} && sessions == old(sessions) - {id}
      ensures out == Closing(s, id, old(out), maxParts)
    {
      var state := Flush(id, s);
      WritePart(id, [], true);
      calls := calls - {id};
      sessions := sessions - {id};
    }
  }
}
