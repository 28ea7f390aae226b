/** The create route: its maps, and each stretch of code between two awaits. */
module CreateRoute {
  import opened Options
  import opened IdempotentCreate

  class Route {
    var inFlight: map<string, nat>
    var completed: map<string, Done>
    var creations: map<nat, Creation>
    var waiters: map<nat, nat>

    /** The conversation table's ids and key column. */
    var table: map<Id, Option<string>>

    ghost var ever: map<Id, Option<string>>
    ghost var conflicts: nat
    ghost var answers: seq<Answer>

    ghost function View(): World
      reads this
    {
      World(table, ever, conflicts, answers, inFlight, completed, creations, waiters)
    }

    constructor ()
      ensures View() == EMPTY && Valid(View())
    {
      inFlight, completed, creations, waiters, table := map[], map[], map[], map[], map[];
      ever, conflicts, answers := map[], 0, [];
    }

    /** Up to the first await, without interruption: join the flight of the key, or start
        one and register it. */
    method Arrive(waiter: nat, key: string, c: nat, now: int)
      requires Possible(View(), Step.Arrive(waiter, key, c, now))
      modifies this
      ensures View() == Apply(old(View()), Step.Arrive(waiter, key, c, now))
    {
      var mine := c;
      if key in inFlight {
        mine := inFlight[key];
      } else {
        if key in completed && now - completed[key].at <= CREATE_KEY_TTL_MS {
          creations := creations[c := Creation(key, Reading(completed[key].id))];
        } else {
          creations := creations[c := Creation(key, Finding)];
        }
        inFlight := inFlight[key := c];
      }
      waiters := waiters[waiter := mine];
    }

    /** The remembered row was looked up: replay it, or forget the key. */
    method ContinueAfterGet(c: nat)
      requires Possible(View(), AfterGet(c))
      modifies this
      ensures View() == Apply(old(View()), AfterGet(c))
    {
      var x := creations[c];
      if x.at.found {
        creations := creations[c := x.(at := Settled(Row(x.at.id, true)))];
      } else {
        completed := completed - {x.key};
        creations := creations[c := x.(at := Finding)];
      }
    }

    /** The column was searched: replay the row, or go on to create one. */
    method ContinueAfterFind(c: nat)
      requires Possible(View(), AfterFind(c))
      modifies this
      ensures View() == Apply(old(View()), AfterFind(c))
    {
      var x := creations[c];
      match x.at.row
      case Some(id) => creations := creations[c := x.(at := Settled(Row(id, true)))];
      case None => creations := creations[c := x.(at := Inserting)];
    }

    /** The row is committed: remember the key. */
    method ContinueAfterInsert(c: nat, now: int)
      requires Possible(View(), AfterInsert(c, now))
      modifies this
      ensures View() == Apply(old(View()), AfterInsert(c, now))
    {
      var x := creations[c];
      PruneCreateKeys(now);
      completed := completed[x.key := Done(x.at.id, now)];
      creations := creations[c := x.(at := ReadingBack(x.at.id))];
    }

    method ContinueAfterReadBack(c: nat)
      requires Possible(View(), AfterReadBack(c))
      modifies this
      ensures View() == Apply(old(View()), AfterReadBack(c))
    {
      var x := creations[c];
      var outcome := if x.at.found then Row(x.at.id, false) else Missing(x.at.id);
      creations := creations[c := x.(at := Settled(outcome))];
    }

    /** A request is answered; whoever comes first retires the flight. */
    method Resume(waiter: nat)
      requires Possible(View(), ResumeWaiter(waiter))
      modifies this
      ensures View() == Apply(old(View()), ResumeWaiter(waiter))
    {
      var c := waiters[waiter];
      var x := creations[c];
      answers := answers + [Answer(x.key, x.at.outcome)];
      waiters := waiters - {waiter};
      if x.key in inFlight && inFlight[x.key] == c {
        inFlight := inFlight - {x.key};
      }
    }

    /** Forgets expired keys once there are many. */
    method PruneCreateKeys(now: int)
      modifies `completed
      ensures completed == Pruned(old(completed), now)
    {
      if |completed| <= CREATE_KEYS_KEPT {
        return;
      }
      var todo := completed.Keys;
      ghost var before := completed;
      while todo != {}
        invariant todo <= before.Keys
        invariant completed == Kept(before, todo, now)
        decreases todo
      {
        var key :| key in todo;
        OneMoreKey(before, todo, key, now);
        if now - completed[key].at > CREATE_KEY_TTL_MS {
          completed := completed - {key};
        }
        todo := todo - {key};
      }
    }

    // ---- The table ----

    method Get(c: nat)
      requires Possible(View(), RunGet(c))
      modifies `creations
      ensures View() == Apply(old(View()), RunGet(c))
    {
      var x := creations[c];
      creations := creations[c := x.(at := Read(x.at.id, x.at.id in table))];
    }

    method GetBack(c: nat)
      requires Possible(View(), RunReadBack(c))
      modifies `creations
      ensures View() == Apply(old(View()), RunReadBack(c))
    {
      var x := creations[c];
      creations := creations[c := x.(at := ReadBack(x.at.id, x.at.id in table))];
    }

    /** The row that carries a key, if there is one. */
    method FindByKey(key: string) returns (row: Option<Id>)
      ensures row.Some? ==> Carries(table, row.value, key)
      ensures row.None? ==> NoneCarries(table, key)
    {
      var todo := table.Keys;
      while todo != {}
        invariant todo <= table.Keys && forall id :: id in table.Keys - todo ==> !Carries(table, id, key)
        decreases todo
      {
        var id :| id in todo;
        if table[id] == Some(key) {
          return Some(id);
        }
        todo := todo - {id};
      }
      return None;
    }

    method Find(c: nat) returns (row: Option<Id>)
      requires IsAt(View(), c) && creations[c].at.Finding?
      modifies `creations
      ensures Possible(old(View()), RunFind(c, row)) && View() == Apply(old(View()), RunFind(c, row))
    {
      row := FindByKey(creations[c].key);
      creations := creations[c := creations[c].(at := Found(row))];
    }

    /** The insert, with the unique index on the key column. */
    method Insert(c: nat, id: Id)
      requires Possible(View(), RunInsert(c, id))
      modifies this
      ensures View() == Apply(old(View()), RunInsert(c, id))
    {
      var x := creations[c];
      var clash := FindByKey(x.key);
      if clash.Some? {
        conflicts := conflicts + 1;
        creations := creations[c := x.(at := Settled(Failure))];
      } else {
        table, ever := table[id := Some(x.key)], ever[id := Some(x.key)];
        creations := creations[c := x.(at := Inserted(id))];
      }
    }
  }

  /** The keys that stay while those in `todo` have not been looked at. */
  function Kept(completed: map<string, Done>, todo: set<string>, now: int): map<string, Done> {
    map k | k in completed && (k in todo || now - completed[k].at <= CREATE_KEY_TTL_MS) :: completed[k]
  }

  lemma OneMoreKey(completed: map<string, Done>, todo: set<string>, key: string, now: int)
    requires key in todo && todo <= completed.Keys
    ensures var kept := Kept(completed, todo, now);
            && key in kept && kept[key] == completed[key]
            && Kept(completed, todo - {key}, now) ==
               if now - completed[key].at > CREATE_KEY_TTL_MS then kept - {key} else kept
  {}
}
