/** The route handlers that drive chat runs; each is one atomic step. */
module ChatRoutes {
  import opened Options
  import opened RunHistory
  import opened ChatRuns
  import opened ChatRunStore

  class Routes {
    const store: Store
    var disconnected: set<string>

    ghost function World(): World
      reads this, store
    {
      store.View().(disconnected := disconnected)
    }

    constructor (limits: Limits)
      ensures fresh(store) && store.limits == limits && World() == EMPTY && Valid(World())
    {
      store := new Store(limits);
      disconnected := {};
    }

    /** A durable write about a run. */
    ghost method Note(e: Event)
      modifies store`history
      ensures store.history == Then(old(store.history), e)
    {
      store.history := Then(store.history, e);
    }

    method CreateRun(id: string, now: int) returns (ghost swept: set<string>)
      requires id !in store.records && !Has(store.history, Opened(id))
      modifies store
      ensures Possible(old(World()), Create(id, now, swept), store.limits)
      ensures World() == Apply(old(World()), Create(id, now, swept))
    {
      swept := store.Create(id, now);
    }

    method FireWallClock(id: string, now: int)
      modifies store
      ensures World() == Apply(old(World()), WallClock(id, now))
    {
      store.Ring(id, now);
    }

    /** Only the winner of the transition writes the verdict. */
    method SettleRun(id: string, status: Status, now: int) returns (won: bool)
      requires !status.Running?
      modifies store
      ensures won <==> IsRunning(old(store.records), id)
      ensures World() == Settle(old(World()), id, status, now)
    {
      var isTimeout := status.Cancelled? && id in store.records && store.records[id].timedOut;
      var effective := if isTimeout then Failed else status;
      won := store.Settle(id, effective, now);
      if won {
        Note(Verdict(id, effective));
      }
    }

    method SettleFromUiOutcome(id: string, outcome: Outcome, reason: Option<string>, now: int)
      returns (settlement: Status, won: bool)
      modifies store
      ensures settlement == SettlementOf(outcome, reason) && (won <==> IsRunning(old(store.records), id))
      ensures World() == Settle(old(World()), id, settlement, now)
    {
      if reason == Some("error") || !IsSuccess(reason) {
        if outcome.StreamAborted? && reason != Some("error") {
          settlement := Cancelled;
        } else {
          settlement := Failed;
        }
      } else if outcome.StreamCompleted? {
        settlement := Completed;
      } else if outcome.StreamAborted? {
        settlement := Cancelled;
      } else {
        settlement := Failed;
      }
      won := SettleRun(id, settlement, now);
    }

    /** The provider stream ended; `capture` is what becomes of persisting the reply. */
    method OnEnd(id: string, outcome: Outcome, reason: Option<string>, capture: Capture, now: int)
      modifies store
      ensures World() == Apply(old(World()), InnerEnd(id, outcome, reason, capture, now))
    {
      var wasDetached := id in store.records && store.records[id].detachedAt.Some?;
      var settlement, won := SettleFromUiOutcome(id, outcome, reason, now);
      if won && settlement.Completed? && capture.CaptureFails? {
        return;
      }
      if won && settlement.Completed? && capture.Captured? {
        Note(FinalMessage(id));
      }
      if !wasDetached || !won || !settlement.Completed? {
        return;
      }
      Note(Finalized(id));
    }

    /** The run's abort signal: a timeout or a cancellation, unless somebody was faster. */
    method OnAbort(id: string, now: int)
      modifies store
      ensures World() == Apply(old(World()), AbortHandler(id, now))
    {
      if id !in store.records || !store.records[id].status.Running? {
        return;
      }
      if store.records[id].timedOut {
        var won := store.Settle(id, Failed, now);
        if won {
          Note(Verdict(id, Failed));
        }
      } else {
        var won := store.Settle(id, Cancelled, now);
        if won {
          Note(Verdict(id, Cancelled));
        }
      }
    }

    /** The composed stream failed. A cancellation after the client left is not an error. */
    method OnError(id: string, isCancellation: bool, now: int)
      modifies store
      ensures World() == Apply(old(World()), ComposedError(id, isCancellation, now))
    {
      if !(id in disconnected && isCancellation) {
        var won := SettleRun(id, Failed, now);
      }
    }

    method FailResponse(id: string, now: int)
      modifies store
      ensures World() == Apply(old(World()), ResponseFailure(id, now))
    {
      var won := SettleRun(id, Failed, now);
    }

    /** Setup failures end the run without a durable verdict. */
    method FailSetup(id: string, now: int)
      modifies store
      ensures World() == Apply(old(World()), SetupFailure(id, now))
    {
      var won := store.Settle(id, Failed, now);
    }

    /** The cancel endpoint: settle, abort, then write the verdict. The abort handler that
        the abort runs in between finds a terminal record. */
    method Cancel(id: string, now: int) returns (cancelled: bool, ghost swept: set<string>)
      modifies store
      ensures Possible(old(World()), CancelRequest(id, now, swept), store.limits)
      ensures World() == Apply(old(World()), CancelRequest(id, now, swept))
      ensures cancelled <==> IsRunning(old(store.records), id) && !old(store.records)[id].timedOut
    {
      swept := {};
      if id !in store.records {
        return false, swept;
      }
      var rec := store.records[id];
      var pruned;
      pruned, swept := store.Sweep(now);
      SweepsOnlyTerminal(old(store.records), swept, now, store.limits);
      if !rec.status.Running? {
        return false, swept;
      }
      CancelRunning(id, rec.timedOut, now);
      return !rec.timedOut, swept;
    }

    method CancelRunning(id: string, timedOut: bool, now: int)
      requires IsRunning(store.records, id) && store.records[id].timedOut == timedOut
      modifies store
      ensures World() == Settle(old(World()), id, Cancelled, now)
    {
      var status := if timedOut then Failed else Cancelled;
      var settled := store.Settle(id, status, now);
      OnAbort(id, now);
      Note(Verdict(id, status));
    }

    /** The browser's connection dropped. */
    method OnDisconnect(id: string, now: int)
      modifies this, store
      ensures World() == Apply(old(World()), Disconnect(id, now))
    {
      disconnected := disconnected + {id};
      var marked := store.MarkDetached(id, now);
    }

    method OnReadError(id: string, now: int)
      modifies store
      ensures World() == Apply(old(World()), ReadError(id, now))
    {
      var marked := store.MarkDetached(id, now);
    }

    method OnResume(id: string, now: int) returns (ghost swept: set<string>)
      modifies store
      ensures Possible(old(World()), Resume(id, now, swept), store.limits)
      ensures World() == Apply(old(World()), Resume(id, now, swept))
    {
      var attached := store.Attach(id, now);
      var pruned;
      pruned, swept := store.Sweep(now);
    }

    method Shutdown(now: int) returns (aborted: nat)
      modifies store
      ensures World() == Apply(old(World()), AbortAll(now))
    {
      aborted := store.AbortAll(now);
    }
  }
}
