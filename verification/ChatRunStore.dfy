/** The run registry itself: records updated step by step, and the sweep's loops. */
module ChatRunStore {
  import opened Options
  import opened RunHistory
  import opened ChatRuns

  class Store {
    const limits: Limits
    var records: map<string, Record>
    var created: nat
    var shuttingDown: bool

    /** What happened so far, including the durable writes of the routes. */
    ghost var history: History

    /** The registry's share of the world. */
    ghost function View(): World
      reads this
    {
      World(records, created, shuttingDown, {}, history)
    }

    constructor (limits: Limits)
      ensures View() == EMPTY && this.limits == limits
    {
      this.limits := limits;
      records, created, shuttingDown, history := map[], 0, false, Start;
    }

    /** Only the first transition out of `Running` wins. */
    method Settle(id: string, status: Status, now: int) returns (won: bool)
      modifies `records, `history
      ensures won <==> IsRunning(old(records), id)
      ensures records == if won then Settled(old(records), id, status, now) else old(records)
      ensures history == if won then Then(old(history), Exit(id, status)) else old(history)
    {
      if id !in records || !records[id].status.Running? {
        return false;
      }
      var rec := records[id];
      rec := rec.(armed := false);
      rec := rec.(status := status, updatedAt := now);
      records := records[id := rec];
      history := Then(history, Exit(id, status));
      return true;
    }

    method Create(id: string, now: int) returns (ghost swept: set<string>)
      requires id !in records
      modifies this
      ensures Sweeps(old(records), swept, now, limits)
      ensures View() == Created(Swept(old(View()), swept), id, now)
    {
      var pruned;
      pruned, swept := Sweep(now);
      if shuttingDown {
        records := records[id := Fresh(Cancelled, now, created)];
      } else {
        records := records[id := Fresh(Running, now, created)];
        history := Then(history, Opened(id));
      }
      created := created + 1;
    }

    /** The wall clock of a run rings. */
    method Ring(id: string, now: int)
      modifies `records, `history
      ensures View() == TimerFired(old(View()), id, now)
    {
      if id in records && records[id].armed && records[id].status.Running? {
        records := records[id := records[id].(timedOut := true, armed := false, updatedAt := now)];
        history := Then(history, TimedOut(id));
      }
    }

    method MarkDetached(id: string, now: int) returns (marked: bool)
      modifies `records
      ensures marked <==> IsRunning(old(records), id) && !IsDetached(old(records), id)
      ensures View() == Detached(old(View()), id, now)
    {
      if id !in records || !records[id].status.Running? || records[id].detachedAt.Some? {
        return false;
      }
      records := records[id := records[id].(detachedAt := Some(now), updatedAt := now)];
      return true;
    }

    method Attach(id: string, now: int) returns (attached: bool)
      modifies `records
      ensures attached <==> IsDetached(old(records), id)
      ensures View() == Attached(old(View()), id, now)
    {
      if id !in records || records[id].detachedAt.None? {
        return false;
      }
      records := records[id := records[id].(detachedAt := None, updatedAt := now)];
      return true;
    }

    /** Marks every running run for abortion and refuses new ones from now on. */
    method AbortAll(now: int) returns (aborted: nat)
      modifies this
      ensures aborted == |RunningOf(old(records), old(records).Keys)|
      ensures View() == AllAborted(old(View()), now)
    {
      AbortingDone(View(), now);
      shuttingDown := true;
      history := Then(history, AbortedAll);
      aborted := StopAll(now);
    }

    method StopAll(now: int) returns (aborted: nat)
      modifies `records
      ensures aborted == |RunningOf(old(records), old(records).Keys)|
      ensures records == AbortedAmong(old(records), old(records).Keys, now)
    {
      aborted := 0;
      var todo := records.Keys;
      ghost var before, done := records, {};
      while todo != {}
        invariant todo !! done && todo + done == before.Keys
        invariant records == AbortedAmong(before, done, now)
        invariant aborted == |RunningOf(before, done)|
        decreases todo
      {
        var id :| id in todo;
        OneMoreAborted(before, done, id, now);
        if records[id].status.Running? {
          records := records[id := records[id].(armed := false, timedOut := false, updatedAt := now)];
          aborted := aborted + 1;
        }
        todo, done := todo - {id}, done + {id};
      }
      assert done == before.Keys;
    }

    /** Drops expired terminal records, then the oldest terminal ones beyond the cap. */
    method Sweep(now: int) returns (pruned: nat, ghost swept: set<string>)
      modifies `records
      ensures Sweeps(old(records), swept, now, limits)
      ensures records == old(records) - swept && pruned == |swept|
    {
      ghost var before := records;
      ghost var expired := Expired(records, now, limits.ttl);
      var first := DropExpired(now);
      var second;
      ghost var excess;
      second, excess := DropExcess();
      pruned, swept := first + second, expired + excess;
      assert swept - expired == excess;
      assert before - expired - excess == before - swept;
    }

    method DropExpired(now: int) returns (pruned: nat)
      modifies `records
      ensures records == old(records) - Expired(old(records), now, limits.ttl)
      ensures pruned == |Expired(old(records), now, limits.ttl)|
    {
      pruned := 0;
      var todo := records.Keys;
      ghost var before, expired := records, Expired(records, now, limits.ttl);
      while todo != {}
        invariant todo <= before.Keys
        invariant records == before - (expired - todo) && pruned == |expired - todo|
        decreases todo
      {
        var id :| id in todo;
        OneMoreChecked(before, expired, todo, id);
        assert id in records && records[id] == before[id];
        todo := todo - {id};
        if records[id].status != Running && now - records[id].updatedAt > limits.ttl {
          records := records - {id};
          pruned := pruned + 1;
        }
      }
      assert expired - todo == expired;
    }

    /** Removes the oldest terminal records while the registry is over its cap. */
    method DropExcess() returns (pruned: nat, ghost dropped: set<string>)
      modifies `records
      ensures DropsToCap(old(records), dropped, limits.maxRecords)
      ensures records == old(records) - dropped && pruned == |dropped|
    {
      pruned, dropped := 0, {};
      if |records| <= limits.maxRecords {
        return;
      }
      var excess := |records| - limits.maxRecords;
      var terminal := Terminal(records);
      ghost var before := records;
      while pruned < excess && terminal != {}
        invariant records == before - dropped && pruned == |dropped| <= excess
        invariant terminal !! dropped && terminal + dropped == Terminal(before)
        invariant forall v, t :: v in dropped && t in terminal ==> NotYounger(before[v], before[t])
        decreases terminal
      {
        var id := OldestOf(terminal);
        terminal := terminal - {id};
        records := records - {id};
        dropped := dropped + {id};
        pruned := pruned + 1;
      }
      assert terminal == Terminal(before) - dropped;
    }

    method OldestOf(ids: set<string>) returns (oldest: string)
      requires ids != {} && ids <= records.Keys
      ensures oldest in ids && forall t :: t in ids ==> NotYounger(records[oldest], records[t])
    {
      oldest :| oldest in ids;
      var todo := ids - {oldest};
      while todo != {}
        invariant todo <= ids && oldest in ids
        invariant forall t :: t in ids - todo ==> NotYounger(records[oldest], records[t])
        decreases todo
      {
        var id :| id in todo;
        todo := todo - {id};
        if !NotYounger(records[oldest], records[id]) {
          oldest := id;
        }
      }
    }
  }
}
