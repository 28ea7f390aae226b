/** The durable row of a run's byte stream: what becomes of the verdict that the route
    records while others create and settle the row. */
module DurableRow {
  import opened Options

  datatype StreamStatus = Streaming | Done | Errored

  datatype TerminalKind = Completed | Failed | Cancelled | Interrupted

  datatype Row = Row(status: StreamStatus, kind: Option<TerminalKind>)

  /** A producer acquires the stream; the stream is settled, by its end or by recovery at
      boot, which brings a kind of its own and may have lost its lease; or the route records
      a verdict. */
  datatype Write =
    | Acquire
    | Settle(errored: bool, kind: TerminalKind, holdsLease: bool)
    | Record(verdict: TerminalKind)

  const NEW := Row(Streaming, None)

  predicate CanRecord(row: Row, verdict: TerminalKind) {
    row.kind != Some(Cancelled) && row.kind != Some(Interrupted) && !(verdict.Completed? && row.status.Errored?)
  }

  /** The kind that is there wins over the one a settlement brings. */
  function Settled(row: Row, errored: bool, kind: TerminalKind): Row {
    Row(if errored then Errored else Done, if row.kind.Some? then row.kind else Some(kind))
  }

  function Apply(row: Option<Row>, w: Write): Option<Row> {
    match row
    case None => if w.Acquire? then Some(NEW) else None
    case Some(r) =>
      match w
      case Acquire => row
      case Settle(errored, kind, holdsLease) =>
        if holdsLease && r.status.Streaming? then Some(Settled(r, errored, kind)) else row
      case Record(verdict) => if CanRecord(r, verdict) then Some(r.(kind := Some(verdict))) else row
  }

  /** The row after the first `n` writes about a stream. */
  function After(writes: seq<Write>, n: nat): Option<Row>
    requires n <= |writes|
  {
    if n == 0 then None else Apply(After(writes, n - 1), writes[n - 1])
  }

  /** The route records one verdict, at `r`. */
  ghost predicate RecordsOnce(writes: seq<Write>, r: nat, verdict: TerminalKind) {
    && r < |writes| && writes[r] == Record(verdict)
    && forall k :: 0 <= k < |writes| && k != r ==> !writes[k].Record?
  }

  predicate Says(row: Option<Row>, kind: TerminalKind) {
    row.Some? && row.value.kind == Some(kind)
  }

  /** A kind that is there is never replaced but by another verdict. */
  lemma {:induction false} KindStands(writes: seq<Write>, r: nat, n: nat)
    requires r <= n <= |writes| && forall k :: r <= k < n ==> !writes[k].Record?
    requires After(writes, r).Some? && After(writes, r).value.kind.Some?
    ensures After(writes, n).Some? && After(writes, n).value.kind == After(writes, r).value.kind
  {
    if r < n {
      KindStands(writes, r, n - 1);
    }
  }

  /** A settled row has a kind. */
  lemma {:induction false} SettledHasKind(writes: seq<Write>, n: nat)
    requires n <= |writes| && After(writes, n).Some?
    ensures After(writes, n).value.status.Streaming? || After(writes, n).value.kind.Some?
  {
    if n > 0 && After(writes, n - 1).Some? {
      SettledHasKind(writes, n - 1);
    }
  }

  /** In a row that exists the verdict stands for good, whatever settles the stream before
      or after, exactly when it may be recorded at its turn or the row says the same already. */
  lemma VerdictStandsExactlyWhen(writes: seq<Write>, r: nat, verdict: TerminalKind)
    requires RecordsOnce(writes, r, verdict) && After(writes, r).Some?
    ensures var row := After(writes, r).value;
            Says(After(writes, |writes|), verdict) <==>
              || row.kind == Some(verdict)
              || (row.kind != Some(Cancelled) && row.kind != Some(Interrupted)
                  && !(verdict == Completed && row.status == Errored))
  {
    SettledHasKind(writes, r);
    KindStands(writes, r + 1, |writes|);
  }

  /** The writes from `a` to `s` acquire the row and settle it; the lease was lost in between. */
  ghost predicate SettlesFirst(writes: seq<Write>, a: nat, s: nat) {
    && a < s < |writes| && writes[a] == Acquire && writes[s].Settle? && writes[s].holdsLease
    && (forall k :: 0 <= k < a ==> !writes[k].Acquire?)
    && (forall k :: a < k < s ==> writes[k].Settle? ==> !writes[k].holdsLease)
    && (forall k :: 0 <= k < |writes| ==> !writes[k].Record?)
  }

  lemma {:induction false} OpenUntilSettled(writes: seq<Write>, a: nat, s: nat, n: nat)
    requires SettlesFirst(writes, a, s) && n <= s
    ensures After(writes, n) == if n <= a then None else Some(Row(Streaming, None))
  {
    if n > 0 {
      OpenUntilSettled(writes, a, s, n - 1);
    }
  }

  /** Without a verdict the first settlement that holds the lease decides, for good. */
  lemma {:induction false} FirstSettlementStands(writes: seq<Write>, a: nat, s: nat, n: nat)
    requires SettlesFirst(writes, a, s) && s < n <= |writes|
    ensures After(writes, n) == Some(Row(if writes[s].errored then Errored else Done, Some(writes[s].kind)))
  {
    if n - 1 == s {
      OpenUntilSettled(writes, a, s, s);
    } else {
      FirstSettlementStands(writes, a, s, n - 1);
    }
  }

  /** While the stream is open every verdict is taken. */
  lemma OpenStreamTakesVerdict(writes: seq<Write>, r: nat, verdict: TerminalKind)
    requires RecordsOnce(writes, r, verdict)
    requires After(writes, r).Some? && After(writes, r).value.status.Streaming?
    ensures Says(After(writes, |writes|), verdict)
  {
    OpenHasNoKind(writes, r);
    VerdictStandsExactlyWhen(writes, r, verdict);
  }

  lemma {:induction false} OpenHasNoKind(writes: seq<Write>, n: nat)
    requires n <= |writes| && forall k :: 0 <= k < n ==> !writes[k].Record?
    ensures After(writes, n).Some? && After(writes, n).value.status.Streaming? ==> After(writes, n).value.kind.None?
  {
    if n > 0 {
      OpenHasNoKind(writes, n - 1);
    }
  }

  /** A verdict about a stream that nobody has acquired yet is lost. */
  lemma VerdictBeforeTheRowIsLost(writes: seq<Write>, r: nat, verdict: TerminalKind)
    requires RecordsOnce(writes, r, verdict) && After(writes, r).None?
    ensures After(writes, r + 1).None?
  {}

  lemma ThreeWrites(a: Write, b: Write, c: Write)
    ensures After([a, b, c], 3) == Apply(Apply(Apply(None, a), b), c)
  {
    var writes := [a, b, c];
    assert After(writes, 0) == None && After(writes, 1) == Apply(None, a);
    assert After(writes, 2) == Apply(Apply(None, a), b);
  }

  /** A completed run whose stream was settled with an error first is recorded as failed. */
  lemma LateCompletionIsRefused()
    ensures After([Acquire, Settle(true, Failed, true), Record(Completed)], 3) == Some(Row(Errored, Some(Failed)))
  {
    ThreeWrites(Acquire, Settle(true, Failed, true), Record(Completed));
  }

  /** A cancellation that precedes the row leaves the default kind of the stream's end. */
  lemma EarlyCancellationIsLost()
    ensures After([Record(Cancelled), Acquire, Settle(false, Completed, true)], 3) == Some(Row(Done, Some(Completed)))
  {
    ThreeWrites(Record(Cancelled), Acquire, Settle(false, Completed, true));
  }
}
