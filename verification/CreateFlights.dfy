/** Flights of keyed creation: when they end, what they are answered, and that they get there. */
module CreateFlights {
  import opened Options
  import opened IdempotentCreate

  // ---- What a creation's own steps touch ----

  /** The creation a step moves on, if it is one of a creation's own. */
  function Mover(step: Step): Option<nat> {
    match step
    case RunGet(c) => Some(c)
    case AfterGet(c) => Some(c)
    case RunFind(c, _) => Some(c)
    case AfterFind(c) => Some(c)
    case RunInsert(c, _) => Some(c)
    case AfterInsert(c, _) => Some(c)
    case RunReadBack(c) => Some(c)
    case AfterReadBack(c) => Some(c)
    case Fail(c) => Some(c)
    case _ => None
  }

  /** Of all that is in memory only creation `c` moved, and the table is the same unless it
      has just inserted its row. */
  ghost predicate MovesOnly(w: World, next: World, c: nat) {
    && c in w.creations && c in next.creations
    && next.creations == w.creations[c := w.creations[c].(at := next.creations[c].at)]
    && next.inFlight == w.inFlight && next.waiters == w.waiters && next.answers == w.answers
    && (next.live == w.live || next.creations[c].at.Inserted?)
  }

  predicate AsksDatabase(step: Step) {
    step.RunGet? || step.RunFind? || step.RunInsert? || step.RunReadBack?
  }

  lemma AskingMovesOnly(w: World, step: Step, c: nat)
    requires Possible(w, step) && Mover(step) == Some(c) && AsksDatabase(step)
    ensures MovesOnly(w, Apply(w, step), c)
  {
    match step
    case RunGet(_) =>
    case RunFind(_, _) =>
    case RunInsert(_, _) =>
    case _ =>
  }

  lemma MoveMovesOnly(w: World, c: nat, at: Point, completed: map<string, Done>)
    requires c in w.creations
    ensures MovesOnly(w, Move(w.(completed := completed), c, at), c)
  {}

  lemma ContinuingMovesOnly(w: World, step: Step, c: nat)
    requires Possible(w, step) && Mover(step) == Some(c) && !AsksDatabase(step)
    ensures MovesOnly(w, Apply(w, step), c)
  {
    var next := Apply(w, step);
    MoveMovesOnly(w, c, next.creations[c].at, next.completed);
  }

  lemma OwnStepMovesOnly(w: World, step: Step, c: nat)
    requires Possible(w, step) && Mover(step) == Some(c)
    ensures MovesOnly(w, Apply(w, step), c)
  {
    if AsksDatabase(step) {
      AskingMovesOnly(w, step, c);
    } else {
      ContinuingMovesOnly(w, step, c);
    }
  }

  /** Nothing else moves a creation but a restart, which ends it. */
  lemma OthersLeaveIt(w: World, step: Step, c: nat)
    requires c in w.creations && Possible(w, step) && !step.Restart? && Mover(step) != Some(c)
    ensures c in Apply(w, step).creations && Apply(w, step).creations[c] == w.creations[c]
  {
    if Mover(step).Some? {
      OwnStepMovesOnly(w, step, Mover(step).value);
    }
  }

  // ---- A flight is over once somebody was answered ----

  /** Whoever is answered gets the outcome of the creation waited for, and leaves no flight of
      it behind. */
  lemma AnsweredFlightIsRetired(w: World, waiter: nat)
    requires Valid(w) && Possible(w, ResumeWaiter(waiter))
    ensures var c, next := w.waiters[waiter], Apply(w, ResumeWaiter(waiter));
            && next.answers == w.answers + [Answer(w.creations[c].key, w.creations[c].at.outcome)]
            && waiter !in next.waiters
            && forall key :: key in next.inFlight ==> next.inFlight[key] != c
  {}

  /** Somebody waits for every flight, and everybody waits for a creation there is. */
  ghost predicate Attended(w: World) {
    && (forall waiter :: waiter in w.waiters ==> w.waiters[waiter] in w.creations)
    && (forall key :: key in w.inFlight ==> HasWaiter(w.waiters, w.inFlight[key]))
  }

  ghost predicate HasWaiter(waiters: map<nat, nat>, c: nat) {
    exists waiter :: waiter in waiters && waiters[waiter] == c
  }

  lemma WaiterAdded(waiters: map<nat, nat>, after: map<nat, nat>, waiter: nat, c: nat)
    requires waiter !in waiters && after == waiters[waiter := c]
    ensures HasWaiter(after, c) && forall d :: HasWaiter(waiters, d) ==> HasWaiter(after, d)
  {
    assert waiter in after && after[waiter] == c;
    forall d | HasWaiter(waiters, d) ensures HasWaiter(after, d) {
      var other :| other in waiters && waiters[other] == d;
      assert other in after && after[other] == d;
    }
  }

  lemma WaiterGone(waiters: map<nat, nat>, after: map<nat, nat>, waiter: nat)
    requires waiter in waiters && after == waiters - {waiter}
    ensures forall d :: HasWaiter(waiters, d) && d != waiters[waiter] ==> HasWaiter(after, d)
  {
    forall d | HasWaiter(waiters, d) && d != waiters[waiter] ensures HasWaiter(after, d) {
      var other :| other in waiters && waiters[other] == d;
      assert other in after && after[other] == d;
    }
  }

  lemma ArrivingIsAttended(w: World, waiter: nat, key: string, c: nat, now: int)
    requires Attended(w) && waiter !in w.waiters && c !in w.creations
    requires FlightsOk(w.inFlight, w.creations)
    ensures Attended(Arrived(w, waiter, key, c, now))
  {
    var joined := if key in w.inFlight then w.inFlight[key] else c;
    WaiterAdded(w.waiters, Arrived(w, waiter, key, c, now).waiters, waiter, joined);
  }

  lemma AnsweringIsAttended(w: World, waiter: nat)
    requires Valid(w) && Attended(w) && Possible(w, ResumeWaiter(waiter))
    ensures Attended(Answered(w, waiter))
  {
    WaiterGone(w.waiters, Answered(w, waiter).waiters, waiter);
    AnsweredFlightIsRetired(w, waiter);
  }

  lemma StepKeepsAttended(w: World, step: Step)
    requires Valid(w) && Attended(w) && Possible(w, step)
    ensures Attended(Apply(w, step))
  {
    if step.Arrive? {
      ArrivingIsAttended(w, step.w, step.key, step.c, step.now);
    } else if step.ResumeWaiter? {
      AnsweringIsAttended(w, step.w);
    } else if Mover(step).Some? {
      OwnStepMovesOnly(w, step, Mover(step).value);
      MovedIsAttended(w, Apply(w, step), Mover(step).value);
    }
  }

  lemma MovedIsAttended(w: World, next: World, c: nat)
    requires Attended(w) && MovesOnly(w, next, c)
    ensures Attended(next)
  {}

  lemma {:induction false} EveryRunIsAttended(steps: seq<Step>, n: nat)
    requires n <= |steps|
    ensures Attended(After(steps, n))
  {
    if n > 0 {
      EveryRunIsAttended(steps, n - 1);
      EveryRunIsValid(steps, n - 1);
      if Possible(After(steps, n - 1), steps[n - 1]) {
        StepKeepsAttended(After(steps, n - 1), steps[n - 1]);
      }
    }
  }

  /** Nobody waits for a creation under the key. */
  ghost predicate NobodyWaitsFor(w: World, key: string)
    requires Attended(w)
  {
    forall waiter :: waiter in w.waiters ==> w.creations[w.waiters[waiter]].key != key
  }

  /** Once everybody was answered, whether with a row or a failure, the next request under
      the key starts a creation of its own. Otherwise it joins the one creation there is. */
  lemma RetryStartsAfresh(steps: seq<Step>, n: nat, waiter: nat, key: string, c: nat, now: int)
    requires n <= |steps| && Possible(After(steps, n), Arrive(waiter, key, c, now))
    requires Attended(After(steps, n))
    ensures var w, next := After(steps, n), Apply(After(steps, n), Arrive(waiter, key, c, now));
            && (NobodyWaitsFor(w, key) ==> next.waiters[waiter] == c && IsAt(next, c) && next.creations[c].key == key)
            && (forall d :: IsAt(w, d) && w.creations[d].key == key ==>
                  next.waiters[waiter] == d && next.creations == w.creations)
  {
    var w := After(steps, n);
    EveryRunIsValid(steps, n);
    if key in w.inFlight {
      var other :| other in w.waiters && w.waiters[other] == w.inFlight[key];
    }
  }

  // ---- How long a key is remembered ----

  /** A request that starts a creation looks the remembered row up for ten minutes, and
      searches the key column otherwise. */
  lemma RememberedForTenMinutes(w: World, waiter: nat, key: string, c: nat, now: int)
    requires Possible(w, Arrive(waiter, key, c, now)) && key !in w.inFlight
    ensures Apply(w, Arrive(waiter, key, c, now)).creations[c].at ==
            if key in w.completed && now - w.completed[key].at <= 600_000 then Reading(w.completed[key].id) else Finding
  {}

  /** A committed row is remembered; among more than two hundred others, those older than ten
      minutes are forgotten, and none otherwise. */
  lemma CommittedRowIsRemembered(w: World, c: nat, now: int, key: string)
    requires Possible(w, AfterInsert(c, now))
    ensures var next, own := Apply(w, AfterInsert(c, now)), w.creations[c].key;
            && (key == own ==> key in next.completed && next.completed[key] == Done(w.creations[c].at.id, now))
            && (key != own ==>
                  (key in next.completed <==>
                     key in w.completed && (|w.completed| <= 200 || now - w.completed[key].at <= 600_000)))
            && (key != own && key in next.completed ==> next.completed[key] == w.completed[key])
  {}

  /** A remembered row that is gone is forgotten before the column is searched. */
  lemma GoneRowIsForgotten(w: World, c: nat)
    requires Possible(w, AfterGet(c)) && !w.creations[c].at.found
    ensures var next := Apply(w, AfterGet(c));
            next.completed == w.completed - {w.creations[c].key} && next.creations[c].at == Finding
  {}

  /** A restart forgets all that is in memory and keeps the table: the next request under any
      key searches the column. */
  lemma AfterRestartTheColumnDecides(w: World, waiter: nat, key: string, c: nat, now: int)
    ensures var restarted := Apply(w, Restart);
            && restarted.live == w.live && restarted.answers == w.answers
            && restarted.creations == map[] && restarted.waiters == map[]
            && Possible(restarted, Arrive(waiter, key, c, now))
            && Apply(restarted, Arrive(waiter, key, c, now)).creations == map[c := Creation(key, Finding)]
  {}

  /** A remembered row is replayed exactly if it is still there when it is looked up. */
  lemma ReplayedIfStillThere(w: World, c: nat)
    requires Possible(w, RunGet(c))
    ensures var looked := Apply(w, RunGet(c));
            && Possible(looked, AfterGet(c))
            && Apply(looked, AfterGet(c)).creations[c].at ==
               if w.creations[c].at.id in w.live then Settled(Row(w.creations[c].at.id, true)) else Finding
  {}

  /** A new row is answered exactly if it is still there when it is read back, and is reported
      missing otherwise. */
  lemma MissingIfGone(w: World, c: nat)
    requires Possible(w, RunReadBack(c))
    ensures var looked := Apply(w, RunReadBack(c));
            && Possible(looked, AfterReadBack(c))
            && Apply(looked, AfterReadBack(c)).creations[c].at ==
               Settled(if w.creations[c].at.id in w.live then Row(w.creations[c].at.id, false)
                       else Missing(w.creations[c].at.id))
  {}

  /** Deleting takes one row off the table and a keyless creation adds one without a key; both
      leave everything in memory alone. */
  lemma OthersChangeTheTable(w: World, id: Id)
    ensures var deleted := Apply(w, Delete(id));
            deleted == w.(live := deleted.live) && deleted.live == map row | row in w.live && row != id :: w.live[row]
    ensures id !in w.ever ==>
            var created := Apply(w, CreateKeyless(id));
            && created == w.(live := created.live, ever := created.ever)
            && created.live == w.live[id := None] && created.ever == w.ever[id := None]
  {}

  // ---- Every creation gets there ----

  /** How many steps a creation has before it at most. */
  function StepsLeft(at: Point): nat {
    match at
    case Reading(_) => 8
    case Read(_, _) => 7
    case Finding => 6
    case Found(_) => 5
    case Inserting => 4
    case Inserted(_) => 3
    case ReadingBack(_) => 2
    case ReadBack(_, _) => 1
    case Settled(_) => 0
  }

  /** Each of its steps brings a creation closer to its outcome. */
  lemma StepsBringCloser(w: World, step: Step, c: nat)
    requires Possible(w, step) && Mover(step) == Some(c)
    ensures var next := Apply(w, step);
            && c in w.creations && c in next.creations && next.creations[c].key == w.creations[c].key
            && StepsLeft(next.creations[c].at) < StepsLeft(w.creations[c].at)
  {
    OwnStepMovesOnly(w, step, c);
    var at, after := w.creations[c].at, Apply(w, step).creations[c].at;
    match step
    case RunGet(_) => assert at.Reading? && after.Read?;
    case AfterGet(_) => assert at.Read? && (after.Settled? || after.Finding?);
    case RunFind(_, _) => assert at.Finding? && after.Found?;
    case AfterFind(_) => assert at.Found? && (after.Settled? || after.Inserting?);
    case RunInsert(_, _) => assert at.Inserting? && (after.Settled? || after.Inserted?);
    case AfterInsert(_, _) => assert at.Inserted? && after.ReadingBack?;
    case RunReadBack(_) => assert at.ReadingBack? && after.ReadBack?;
    case AfterReadBack(_) => assert at.ReadBack? && after.Settled?;
    case Fail(_) => assert after.Settled?;
    case _ =>
  }

  /** A creation without an outcome can always go on, short of failing, and one with an
      outcome can answer whoever waits for it. */
  lemma NeverStuck(w: World, c: nat, id: Id, now: int) returns (step: Step)
    requires c in w.creations && id !in w.ever
    ensures IsAt(w, c) ==> Possible(w, step) && Mover(step) == Some(c) && !step.Fail?
    ensures !IsAt(w, c) ==> forall waiter :: waiter in w.waiters && w.waiters[waiter] == c ==>
              Possible(w, ResumeWaiter(waiter))
  {
    match w.creations[c].at
    case Reading(_) => step := RunGet(c);
    case Read(_, _) => step := AfterGet(c);
    case Finding =>
      if row: Id :| Carries(w.live, row, w.creations[c].key) {
        step := RunFind(c, Some(row));
      } else {
        step := RunFind(c, None);
      }
    case Found(_) => step := AfterFind(c);
    case Inserting => step := RunInsert(c, id);
    case Inserted(_) => step := AfterInsert(c, now);
    case ReadingBack(_) => step := RunReadBack(c);
    case ReadBack(_, _) => step := AfterReadBack(c);
    case Settled(_) => step := Restart;
  }

  // ---- What is answered ----

  ghost predicate NothingFailed(w: World) {
    && (forall c :: c in w.creations ==> w.creations[c].at != Settled(Failure))
    && (forall i :: 0 <= i < |w.answers| ==> !w.answers[i].outcome.Failure?)
  }

  lemma StepFailsNothing(w: World, step: Step)
    requires Valid(w) && NothingFailed(w) && Possible(w, step) && !step.Fail?
    ensures NothingFailed(Apply(w, step))
  {
    if Mover(step).Some? {
      var c := Mover(step).value;
      MoveFailsNothing(w, step, c);
      OwnStepMovesOnly(w, step, c);
      MovedFailsNothing(w, Apply(w, step), c);
    }
  }

  lemma MovedFailsNothing(w: World, next: World, c: nat)
    requires NothingFailed(w) && MovesOnly(w, next, c) && next.creations[c].at != Settled(Failure)
    ensures NothingFailed(next)
  {}

  lemma MoveFailsNothing(w: World, step: Step, c: nat)
    requires Valid(w) && Possible(w, step) && Mover(step) == Some(c) && !step.Fail?
    ensures c in Apply(w, step).creations && Apply(w, step).creations[c].at != Settled(Failure)
  {
    if step.RunInsert? {
      LeaderIsAlone(w, c);
    }
  }

  /** Requests fail only because the storage does: keys, races and restarts never make one. */
  lemma {:induction false} OnlyStorageFails(steps: seq<Step>, n: nat)
    requires n <= |steps| && forall k :: 0 <= k < n ==> !steps[k].Fail?
    ensures NothingFailed(After(steps, n))
  {
    if n > 0 {
      OnlyStorageFails(steps, n - 1);
      EveryRunIsValid(steps, n - 1);
      if Possible(After(steps, n - 1), steps[n - 1]) {
        StepFailsNothing(After(steps, n - 1), steps[n - 1]);
      }
    }
  }

  /** A creation that is to replay row `id`. */
  predicate Replays(at: Point, id: Id) {
    at in {Reading(id), Read(id, true), Finding, Found(Some(id)), Settled(Row(id, true))}
  }

  /** A creation that is to make a row of its own, or has made `id`. */
  predicate Makes(at: Point) {
    at in {Finding, Found(None), Inserting}
  }

  predicate Made(at: Point, id: Id) {
    at in {Inserted(id), ReadingBack(id), ReadBack(id, true), Settled(Row(id, false))}
  }

  /** A table that loses no row, and a creation that is not cut short. */
  predicate IsQuiet(step: Step) {
    !step.Delete? && !step.Restart? && !step.Fail?
  }

  /** Rows stay unless they are deleted. */
  lemma RowsStay(w: World, step: Step, id: Id, key: string)
    requires Valid(w) && Possible(w, step) && !step.Delete? && Carries(w.live, id, key)
    ensures Carries(Apply(w, step).live, id, key)
  {}

  lemma ReplayGoesOn(w: World, step: Step, c: nat, id: Id)
    requires Valid(w) && Possible(w, step) && IsQuiet(step) && c in w.creations
    requires Carries(w.live, id, w.creations[c].key) && Replays(w.creations[c].at, id)
    ensures var next := Apply(w, step);
            && Carries(next.live, id, w.creations[c].key)
            && c in next.creations && next.creations[c].key == w.creations[c].key && Replays(next.creations[c].at, id)
  {
    RowsStay(w, step, id, w.creations[c].key);
    if Mover(step) == Some(c) {
      ReplayMoves(w, step, c, id);
    } else {
      OthersLeaveIt(w, step, c);
    }
  }

  lemma ReplayMoves(w: World, step: Step, c: nat, id: Id)
    requires Valid(w) && Possible(w, step) && Mover(step) == Some(c) && !step.Fail?
    requires Carries(w.live, id, w.creations[c].key) && Replays(w.creations[c].at, id)
    ensures var next := Apply(w, step);
            c in next.creations && next.creations[c].key == w.creations[c].key && Replays(next.creations[c].at, id)
  {}

  /** Nobody else makes a row for the key of a creation in progress. */
  lemma NoRowAppears(w: World, step: Step, c: nat)
    requires Valid(w) && Possible(w, step) && Mover(step) != Some(c)
    requires IsAt(w, c) && NoneCarries(w.live, w.creations[c].key)
    ensures NoneCarries(Apply(w, step).live, w.creations[c].key)
  {
    var next := Apply(w, step);
    if step.RunInsert? {
      LeaderIsAlone(w, step.c);
      RowAdded(w.live, next.live, step.id, Some(w.creations[step.c].key));
    } else if step.CreateKeyless? {
      RowAdded(w.live, next.live, step.id, None);
    } else if step.Delete? {
      RowRemoved(w.live, next.live, step.id);
    } else if Mover(step).Some? {
      OwnStepMovesOnly(w, step, Mover(step).value);
    }
  }

  lemma MakingMoves(w: World, step: Step, c: nat)
    requires Valid(w) && Possible(w, step) && Mover(step) == Some(c) && !step.Fail?
    requires Makes(w.creations[c].at) && NoneCarries(w.live, w.creations[c].key)
    ensures var next := Apply(w, step);
            && c in next.creations && next.creations[c].key == w.creations[c].key
            && (if step.RunInsert?
                then Made(next.creations[c].at, step.id) && Carries(next.live, step.id, w.creations[c].key)
                else Makes(next.creations[c].at) && next.live == w.live)
  {}

  lemma MakingGoesOn(w: World, step: Step, c: nat)
    requires Valid(w) && Possible(w, step) && IsQuiet(step) && c in w.creations
    requires Makes(w.creations[c].at) && NoneCarries(w.live, w.creations[c].key)
    ensures var next := Apply(w, step);
            && c in next.creations && next.creations[c].key == w.creations[c].key
            && ((Makes(next.creations[c].at) && NoneCarries(next.live, w.creations[c].key)) ||
                (step.RunInsert? && step.c == c && Made(next.creations[c].at, step.id)
                 && Carries(next.live, step.id, w.creations[c].key)))
  {
    if Mover(step) == Some(c) {
      MakingMoves(w, step, c);
    } else {
      OthersLeaveIt(w, step, c);
      NoRowAppears(w, step, c);
    }
  }

  lemma MadeGoesOn(w: World, step: Step, c: nat, id: Id)
    requires Valid(w) && Possible(w, step) && IsQuiet(step) && c in w.creations
    requires Made(w.creations[c].at, id) && Carries(w.live, id, w.creations[c].key)
    ensures var next := Apply(w, step);
            && Carries(next.live, id, w.creations[c].key)
            && c in next.creations && next.creations[c].key == w.creations[c].key && Made(next.creations[c].at, id)
  {
    RowsStay(w, step, id, w.creations[c].key);
    if Mover(step) == Some(c) {
      MadeMoves(w, step, c, id);
    } else {
      OthersLeaveIt(w, step, c);
    }
  }

  lemma MadeMoves(w: World, step: Step, c: nat, id: Id)
    requires Possible(w, step) && Mover(step) == Some(c) && !step.Fail?
    requires Carries(w.live, id, w.creations[c].key) && Made(w.creations[c].at, id)
    ensures var next := Apply(w, step);
            c in next.creations && next.creations[c].key == w.creations[c].key && Made(next.creations[c].at, id)
  {}

  /** Step `k` starts creation `c` under `key`; from there to `n` rows are not deleted and
      the server neither fails nor restarts. */
  ghost predicate Starts(steps: seq<Step>, k: nat, n: nat, c: nat, key: string) {
    && k < n <= |steps| && steps[k].Arrive? && steps[k].key == key && steps[k].c == c
    && Possible(After(steps, k), steps[k]) && key !in After(steps, k).inFlight
    && (forall i :: 0 <= i < n ==> !steps[i].Delete?)
    && (forall i :: k < i < n ==> IsQuiet(steps[i]))
  }

  lemma NothingLostYet(steps: seq<Step>, n: nat)
    requires n <= |steps| && forall i :: 0 <= i < n ==> !steps[i].Delete?
    ensures After(steps, n).live == After(steps, n).ever
  {
    if n > 0 {
      NothingLostYet(steps, n - 1);
      if Possible(After(steps, n - 1), steps[n - 1]) {
        OnlyDeletesRemove(After(steps, n - 1), steps[n - 1]);
      }
    }
  }

  lemma {:induction false} ReplayIsKept(steps: seq<Step>, k: nat, n: nat, c: nat, key: string, id: Id)
    requires Starts(steps, k, n, c, key) && Carries(After(steps, k).live, id, key)
    ensures var w := After(steps, n);
            c in w.creations && w.creations[c].key == key && Carries(w.live, id, key) && Replays(w.creations[c].at, id)
  {
    EveryRunIsValid(steps, n - 1);
    if k == n - 1 {
      NothingLostYet(steps, k);
    } else {
      ReplayIsKept(steps, k, n - 1, c, key, id);
      if Possible(After(steps, n - 1), steps[n - 1]) {
        ReplayGoesOn(After(steps, n - 1), steps[n - 1], c, id);
      }
    }
  }

  /** One of these steps inserts row `id` for creation `c`. */
  ghost predicate Inserts(steps: seq<Step>, k: nat, n: nat, c: nat, id: Id) {
    exists i :: k < i < n <= |steps| && steps[i] == RunInsert(c, id)
  }

  lemma StoryGoesOn(w: World, step: Step, c: nat, before: Id) returns (id: Id)
    requires Valid(w) && Possible(w, step) && IsQuiet(step) && c in w.creations
    requires (Makes(w.creations[c].at) && NoneCarries(w.live, w.creations[c].key)) ||
             (Made(w.creations[c].at, before) && Carries(w.live, before, w.creations[c].key))
    ensures var next := Apply(w, step);
            && c in next.creations && next.creations[c].key == w.creations[c].key
            && ((Makes(next.creations[c].at) && NoneCarries(next.live, w.creations[c].key)) ||
                (Made(next.creations[c].at, id) && Carries(next.live, id, w.creations[c].key)))
    ensures Made(Apply(w, step).creations[c].at, id) ==>
              step == RunInsert(c, id) || (id == before && Made(w.creations[c].at, before))
  {
    if Makes(w.creations[c].at) {
      MakingGoesOn(w, step, c);
      id := if step.RunInsert? && step.c == c then step.id else before;
    } else {
      MadeGoesOn(w, step, c, before);
      id := before;
    }
  }

  lemma {:induction false} MakingIsKept(steps: seq<Step>, k: nat, n: nat, c: nat, key: string) returns (id: Id)
    requires Starts(steps, k, n, c, key) && NoneCarries(After(steps, k).live, key)
    ensures var w := After(steps, n);
            && c in w.creations && w.creations[c].key == key
            && ((Makes(w.creations[c].at) && NoneCarries(w.live, key)) ||
                (Made(w.creations[c].at, id) && Carries(w.live, id, key)))
    ensures Made(After(steps, n).creations[c].at, id) ==> Inserts(steps, k, n, c, id)
  {
    id := "";
    EveryRunIsValid(steps, n - 1);
    if k == n - 1 {
      NothingLostYet(steps, k);
    } else {
      id := MakingIsKept(steps, k, n - 1, c, key);
      var w, step := After(steps, n - 1), steps[n - 1];
      assert Inserts(steps, k, n - 1, c, id) ==> Inserts(steps, k, n, c, id);
      if Possible(w, step) {
        id := StoryGoesOn(w, step, c, id);
      }
    }
  }

  /** What a creation comes to, when nothing is deleted and nothing breaks: the row that
      carried the key when it started, as a replay; or the row it inserted, as a new one. */
  lemma OutcomeExactlyWhen(steps: seq<Step>, k: nat, n: nat, c: nat, key: string) returns (id: Id)
    requires Starts(steps, k, n, c, key)
    requires c in After(steps, n).creations && After(steps, n).creations[c].at.Settled?
    ensures var settled := After(steps, n).creations[c].at;
            if NoneCarries(After(steps, k).live, key)
            then settled == Settled(Row(id, false)) && Inserts(steps, k, n, c, id)
            else settled == Settled(Row(id, true)) && Carries(After(steps, k).live, id, key)
  {
    if row: Id :| Carries(After(steps, k).live, row, key) {
      id := row;
      ReplayIsKept(steps, k, n, c, key, id);
    } else {
      id := MakingIsKept(steps, k, n, c, key);
    }
  }
}
