/** Creating conversations under a client's key: one in-process flight per key, a map of
    completed keys, and a unique column that survives restarts. */
module IdempotentCreate {
  import opened Options

  const CREATE_KEY_TTL_MS := 600_000
  const CREATE_KEYS_KEPT := 200

  type Id = string

  datatype Outcome = Row(id: Id, replayed: bool) | Missing(id: Id) | Failure

  /** Where a creation stands. Each database call has a point before it runs and one after
      it ran but before the creation resumes. */
  datatype Point =
    | Reading(id: Id) | Read(id: Id, found: bool)
    | Finding | Found(row: Option<Id>)
    | Inserting | Inserted(id: Id)
    | ReadingBack(id: Id) | ReadBack(id: Id, found: bool)
    | Settled(outcome: Outcome)

  datatype Creation = Creation(key: string, at: Point)

  datatype Done = Done(id: Id, at: int)

  datatype Answer = Answer(key: string, outcome: Outcome)

  /** `live` is the table, with the key column of each row; `ever` also has deleted rows.
      `conflicts` counts inserts that the unique index rejected. */
  datatype World = World(
    live: map<Id, Option<string>>, ever: map<Id, Option<string>>, conflicts: nat, answers: seq<Answer>,
    inFlight: map<string, nat>, completed: map<string, Done>, creations: map<nat, Creation>, waiters: map<nat, nat>)

  const EMPTY := World(map[], map[], 0, [], map[], map[], map[], map[])

  datatype Step =
    | Arrive(w: nat, key: string, c: nat, now: int)
    | RunGet(c: nat) | AfterGet(c: nat)
    | RunFind(c: nat, row: Option<Id>) | AfterFind(c: nat)
    | RunInsert(c: nat, id: Id) | AfterInsert(c: nat, now: int)
    | RunReadBack(c: nat) | AfterReadBack(c: nat)
    | Fail(c: nat)
    | ResumeWaiter(w: nat)
    | Delete(id: Id)
    | CreateKeyless(id: Id)
    | Restart

  predicate Carries(rows: map<Id, Option<string>>, id: Id, key: string) {
    id in rows && rows[id] == Some(key)
  }

  ghost predicate NoneCarries(rows: map<Id, Option<string>>, key: string) {
    forall id :: !Carries(rows, id, key)
  }

  predicate IsAt(w: World, c: nat) {
    c in w.creations && !w.creations[c].at.Settled?
  }

  function Move(w: World, c: nat, at: Point): World
    requires c in w.creations
  {
    w.(creations := w.creations[c := w.creations[c].(at := at)])
  }

  /** A request joins the flight of its key, or starts one. */
  function Arrived(w: World, waiter: nat, key: string, c: nat, now: int): World {
    if key in w.inFlight then w.(waiters := w.waiters[waiter := w.inFlight[key]])
    else Started(w, key, c, now).(waiters := w.waiters[waiter := c])
  }

  /** A new flight replays a key that completed not too long ago, or searches the column. */
  function Started(w: World, key: string, c: nat, now: int): World {
    var replay := key in w.completed && now - w.completed[key].at <= CREATE_KEY_TTL_MS;
    var at := if replay then Reading(w.completed[key].id) else Finding;
    w.(creations := w.creations[c := Creation(key, at)], inFlight := w.inFlight[key := c])
  }

  function Pruned(completed: map<string, Done>, now: int): map<string, Done> {
    if |completed| <= CREATE_KEYS_KEPT then completed
    else map k | k in completed && now - completed[k].at <= CREATE_KEY_TTL_MS :: completed[k]
  }

  function WithRow(w: World, id: Id, column: Option<string>): World {
    w.(live := w.live[id := column], ever := w.ever[id := column])
  }

  /** A waiter gets its answer and retires the flight if it is still the current one. */
  function Answered(w: World, waiter: nat): World
    requires waiter in w.waiters && w.waiters[waiter] in w.creations && w.creations[w.waiters[waiter]].at.Settled?
  {
    var c := w.waiters[waiter];
    var x := w.creations[c];
    w.(answers := w.answers + [Answer(x.key, x.at.outcome)], waiters := w.waiters - {waiter},
       inFlight := if x.key in w.inFlight && w.inFlight[x.key] == c then w.inFlight - {x.key} else w.inFlight)
  }

  /** When a step can happen; what the database answers is part of the step. */
  ghost predicate Possible(w: World, step: Step) {
    match step
    case Arrive(waiter, key, c, now) => waiter !in w.waiters && c !in w.creations
    case RunGet(c) => IsAt(w, c) && w.creations[c].at.Reading?
    case AfterGet(c) => IsAt(w, c) && w.creations[c].at.Read?
    case RunFind(c, row) => IsAt(w, c) && w.creations[c].at.Finding?
        && (row.Some? ==> Carries(w.live, row.value, w.creations[c].key))
        && (row.None? ==> NoneCarries(w.live, w.creations[c].key))
    case AfterFind(c) => IsAt(w, c) && w.creations[c].at.Found?
    case RunInsert(c, id) => IsAt(w, c) && w.creations[c].at.Inserting? && id !in w.ever
    case AfterInsert(c, now) => IsAt(w, c) && w.creations[c].at.Inserted?
    case RunReadBack(c) => IsAt(w, c) && w.creations[c].at.ReadingBack?
    case AfterReadBack(c) => IsAt(w, c) && w.creations[c].at.ReadBack?
    case Fail(c) => IsAt(w, c)
    case ResumeWaiter(waiter) =>
      waiter in w.waiters && w.waiters[waiter] in w.creations && w.creations[w.waiters[waiter]].at.Settled?
    case Delete(id) => true
    case CreateKeyless(id) => id !in w.ever
    case Restart => true
  }

  ghost function Apply(w: World, step: Step): World
    requires Possible(w, step)
  {
    match step
    case Arrive(waiter, key, c, now) => Arrived(w, waiter, key, c, now)
    case RunGet(c) => Move(w, c, Read(w.creations[c].at.id, w.creations[c].at.id in w.live))
    case AfterGet(c) =>
      if w.creations[c].at.found then Move(w, c, Settled(Row(w.creations[c].at.id, true)))
      else Move(w.(completed := w.completed - {w.creations[c].key}), c, Finding)
    case RunFind(c, row) => Move(w, c, Found(row))
    case AfterFind(c) =>
      if w.creations[c].at.row.Some? then Move(w, c, Settled(Row(w.creations[c].at.row.value, true)))
      else Move(w, c, Inserting)
    case RunInsert(c, id) =>
      if NoneCarries(w.live, w.creations[c].key) then
        Move(WithRow(w, id, Some(w.creations[c].key)), c, Inserted(id))
      else Move(w.(conflicts := w.conflicts + 1), c, Settled(Failure))
    case AfterInsert(c, now) =>
      var id := w.creations[c].at.id;
      Move(w.(completed := Pruned(w.completed, now)[w.creations[c].key := Done(id, now)]), c, ReadingBack(id))
    case RunReadBack(c) => Move(w, c, ReadBack(w.creations[c].at.id, w.creations[c].at.id in w.live))
    case AfterReadBack(c) =>
      var x := w.creations[c].at;
      Move(w, c, Settled(if x.found then Row(x.id, false) else Missing(x.id)))
    case Fail(c) => Move(w, c, Settled(Failure))
    case ResumeWaiter(waiter) => Answered(w, waiter)
    case Delete(id) => w.(live := w.live - {id})
    case CreateKeyless(id) => w.(live := w.live[id := None], ever := w.ever[id := None])
    case Restart => w.(inFlight := map[], completed := map[], creations := map[], waiters := map[])
  }

  // ---- The invariant ----

  /** The table is part of all rows there ever were, and no two live rows share a key. */
  ghost predicate TableOk(live: map<Id, Option<string>>, ever: map<Id, Option<string>>) {
    && (forall id :: id in live ==> id in ever && ever[id] == live[id])
    && (forall a, b, key :: Carries(live, a, key) && Carries(live, b, key) ==> a == b)
  }

  /** A row that an outcome names was created under the key; a missing one is gone. */
  ghost predicate OutcomeOk(o: Outcome, key: string, live: map<Id, Option<string>>, ever: map<Id, Option<string>>) {
    match o
    case Row(id, replayed) => Carries(ever, id, key)
    case Missing(id) => Carries(ever, id, key) && id !in live
    case Failure => true
  }

  ghost predicate PointOk(at: Point, key: string, live: map<Id, Option<string>>, ever: map<Id, Option<string>>) {
    match at
    case Reading(id) => Carries(ever, id, key)
    case Read(id, found) => Carries(ever, id, key) && (!found ==> id !in live)
    case Finding => true
    case Found(row) => if row.Some? then Carries(ever, row.value, key) else NoneCarries(live, key)
    case Inserting => NoneCarries(live, key)
    case Inserted(id) => Carries(ever, id, key)
    case ReadingBack(id) => Carries(ever, id, key)
    case ReadBack(id, found) => Carries(ever, id, key) && (!found ==> id !in live)
    case Settled(o) => OutcomeOk(o, key, live, ever)
  }

  /** One unsettled creation per key, and the flight map knows it. */
  ghost predicate FlightsOk(inFlight: map<string, nat>, creations: map<nat, Creation>) {
    && (forall key :: key in inFlight ==> inFlight[key] in creations && creations[inFlight[key]].key == key)
    && (forall c :: c in creations && !creations[c].at.Settled? ==>
          creations[c].key in inFlight && inFlight[creations[c].key] == c)
  }

  ghost predicate Valid(w: World) {
    && TableOk(w.live, w.ever) && w.conflicts == 0 && FlightsOk(w.inFlight, w.creations)
    && (forall c :: c in w.creations ==> PointOk(w.creations[c].at, w.creations[c].key, w.live, w.ever))
    && (forall key :: key in w.completed ==> Carries(w.ever, w.completed[key].id, key))
    && (forall i :: 0 <= i < |w.answers| ==> OutcomeOk(w.answers[i].outcome, w.answers[i].key, w.live, w.ever))
  }

  /** A creation moves on to a point that is right for it. */
  lemma MovingKeeps(w: World, c: nat, at: Point)
    requires Valid(w) && IsAt(w, c) && PointOk(at, w.creations[c].key, w.live, w.ever)
    ensures Valid(Move(w, c, at))
  {}

  lemma RowAdded(rows: map<Id, Option<string>>, after: map<Id, Option<string>>, id: Id, column: Option<string>)
    requires after == rows[id := column]
    ensures forall other, key :: Carries(after, other, key) <==>
              (if other == id then column == Some(key) else Carries(rows, other, key))
  {}

  lemma RowRemoved(rows: map<Id, Option<string>>, after: map<Id, Option<string>>, id: Id)
    requires after == rows - {id}
    ensures forall other, key :: Carries(after, other, key) <==> other != id && Carries(rows, other, key)
  {}

  predicate ExpectsNoRow(at: Point) {
    at.Inserting? || (at.Found? && at.row.None?)
  }

  lemma PointSurvivesInsert(at: Point, key: string, live: map<Id, Option<string>>, ever: map<Id, Option<string>>,
                            id: Id, column: Option<string>)
    requires PointOk(at, key, live, ever) && id !in ever && TableOk(live, ever)
    requires column == Some(key) ==> !ExpectsNoRow(at)
    ensures PointOk(at, key, live[id := column], ever[id := column])
  {
    RowAdded(live, live[id := column], id, column);
  }

  lemma PointSurvivesDelete(at: Point, key: string, live: map<Id, Option<string>>,
                            ever: map<Id, Option<string>>, id: Id)
    requires PointOk(at, key, live, ever)
    ensures PointOk(at, key, live - {id}, ever)
  {
    RowRemoved(live, live - {id}, id);
  }

  lemma TableSurvivesInsert(live: map<Id, Option<string>>, ever: map<Id, Option<string>>, id: Id,
                            column: Option<string>)
    requires TableOk(live, ever) && id !in ever
    requires column.Some? ==> NoneCarries(live, column.value)
    ensures TableOk(live[id := column], ever[id := column])
  {
    RowAdded(live, live[id := column], id, column);
  }

  lemma TableSurvivesDelete(live: map<Id, Option<string>>, ever: map<Id, Option<string>>, id: Id)
    requires TableOk(live, ever)
    ensures TableOk(live - {id}, ever)
  {
    RowRemoved(live, live - {id}, id);
  }

  /** A new row is safe when no live row and no creation in progress minds its key. */
  lemma InsertingKeeps(w: World, id: Id, column: Option<string>)
    requires Valid(w) && id !in w.ever
    requires column.Some? ==> NoneCarries(w.live, column.value)
    requires forall c :: c in w.creations && column == Some(w.creations[c].key) ==> !ExpectsNoRow(w.creations[c].at)
    ensures Valid(WithRow(w, id, column))
  {
    TableSurvivesInsert(w.live, w.ever, id, column);
    forall c | c in w.creations
      ensures PointOk(w.creations[c].at, w.creations[c].key, w.live[id := column], w.ever[id := column])
    {
      PointSurvivesInsert(w.creations[c].at, w.creations[c].key, w.live, w.ever, id, column);
    }
    forall i | 0 <= i < |w.answers|
      ensures OutcomeOk(w.answers[i].outcome, w.answers[i].key, w.live[id := column], w.ever[id := column])
    {
      PointSurvivesInsert(Settled(w.answers[i].outcome), w.answers[i].key, w.live, w.ever, id, column);
    }
  }

  lemma MovedTwice(w: World, c: nat, id: Id, column: Option<string>, first: Point, second: Point)
    requires c in w.creations
    ensures Move(WithRow(Move(w, c, first), id, column), c, second) == Move(WithRow(w, id, column), c, second)
  {
    var x := w.creations;
    assert x[c := x[c].(at := first)][c := x[c].(at := second)] == x[c := x[c].(at := second)];
  }

  /** The leader's insert never meets the unique index: it is the only creation of its key,
      and there is no such row. */
  lemma LeaderIsAlone(w: World, c: nat)
    requires Valid(w) && IsAt(w, c) && w.creations[c].at.Inserting?
    ensures NoneCarries(w.live, w.creations[c].key)
    ensures forall other :: IsAt(w, other) && w.creations[other].key == w.creations[c].key ==> other == c
  {}

  lemma LeaderInserts(w: World, c: nat, id: Id)
    requires Valid(w) && IsAt(w, c) && w.creations[c].at.Inserting? && id !in w.ever
    ensures Valid(Move(WithRow(w, id, Some(w.creations[c].key)), c, Inserted(id)))
  {
    var key := w.creations[c].key;
    LeaderIsAlone(w, c);
    MovingKeeps(w, c, Finding);
    var moved := Move(w, c, Finding);
    assert forall other :: other in moved.creations && moved.creations[other].key == key ==>
        !ExpectsNoRow(moved.creations[other].at);
    InsertingKeeps(moved, id, Some(key));
    MovingKeeps(WithRow(moved, id, Some(key)), c, Inserted(id));
    MovedTwice(w, c, id, Some(key), Finding, Inserted(id));
  }

  lemma DeletingKeeps(w: World, id: Id)
    requires Valid(w)
    ensures Valid(Apply(w, Delete(id)))
  {
    TableSurvivesDelete(w.live, w.ever, id);
    forall c | c in w.creations ensures PointOk(w.creations[c].at, w.creations[c].key, w.live - {id}, w.ever) {
      PointSurvivesDelete(w.creations[c].at, w.creations[c].key, w.live, w.ever, id);
    }
    forall i | 0 <= i < |w.answers| ensures OutcomeOk(w.answers[i].outcome, w.answers[i].key, w.live - {id}, w.ever) {
      PointSurvivesDelete(Settled(w.answers[i].outcome), w.answers[i].key, w.live, w.ever, id);
    }
  }

  lemma ArrivingKeeps(w: World, waiter: nat, key: string, c: nat, now: int)
    requires Valid(w) && c !in w.creations
    ensures Valid(Arrived(w, waiter, key, c, now))
  {
    if key !in w.inFlight {
      StartingKeeps(w, key, c, now);
      WaitingKeeps(Started(w, key, c, now), waiter, c);
    } else {
      WaitingKeeps(w, waiter, w.inFlight[key]);
    }
  }

  lemma StartingKeeps(w: World, key: string, c: nat, now: int)
    requires Valid(w) && c !in w.creations && key !in w.inFlight
    ensures Valid(Started(w, key, c, now))
  {}

  lemma WaitingKeeps(w: World, waiter: nat, c: nat)
    requires Valid(w)
    ensures Valid(w.(waiters := w.waiters[waiter := c]))
  {}

  lemma ForgettingKeeps(w: World, key: string)
    requires Valid(w)
    ensures Valid(w.(completed := w.completed - {key}))
  {}

  lemma RestartingKeeps(w: World)
    requires Valid(w)
    ensures Valid(Apply(w, Restart))
  {}

  lemma CompletingKeeps(w: World, c: nat, now: int)
    requires Valid(w) && Possible(w, AfterInsert(c, now))
    ensures Valid(Apply(w, AfterInsert(c, now)))
  {
    var key, id := w.creations[c].key, w.creations[c].at.id;
    var noted := w.(completed := Pruned(w.completed, now)[key := Done(id, now)]);
    assert Valid(noted);
    MovingKeeps(noted, c, ReadingBack(id));
  }

  lemma AnsweringKeeps(w: World, waiter: nat)
    requires Valid(w) && Possible(w, ResumeWaiter(waiter))
    ensures Valid(Answered(w, waiter))
  {}

  lemma StepKeeps(w: World, step: Step)
    requires Valid(w) && Possible(w, step)
    ensures Valid(Apply(w, step))
  {
    match step
    case Arrive(waiter, key, c, now) => ArrivingKeeps(w, waiter, key, c, now);
    case RunGet(c) => MovingKeeps(w, c, Read(w.creations[c].at.id, w.creations[c].at.id in w.live));
    case AfterGet(c) =>
      if w.creations[c].at.found {
        MovingKeeps(w, c, Settled(Row(w.creations[c].at.id, true)));
      } else {
        ForgettingKeeps(w, w.creations[c].key);
        MovingKeeps(w.(completed := w.completed - {w.creations[c].key}), c, Finding);
      }
    case RunFind(c, row) => MovingKeeps(w, c, Found(row));
    case AfterFind(c) =>
      var row := w.creations[c].at.row;
      MovingKeeps(w, c, if row.Some? then Settled(Row(row.value, true)) else Inserting);
    case RunInsert(c, id) =>
      LeaderIsAlone(w, c);
      LeaderInserts(w, c, id);
    case AfterInsert(c, now) => CompletingKeeps(w, c, now);
    case RunReadBack(c) => MovingKeeps(w, c, ReadBack(w.creations[c].at.id, w.creations[c].at.id in w.live));
    case AfterReadBack(c) =>
      var x := w.creations[c].at;
      MovingKeeps(w, c, Settled(if x.found then Row(x.id, false) else Missing(x.id)));
    case Fail(c) => MovingKeeps(w, c, Settled(Failure));
    case ResumeWaiter(waiter) => AnsweringKeeps(w, waiter);
    case Delete(id) => DeletingKeeps(w, id);
    case CreateKeyless(id) => InsertingKeeps(w, id, None);
    case Restart => RestartingKeeps(w);
  }

  // ---- Whole runs ----

  /** The world after the first `n` steps, where a step that cannot happen is skipped. */
  ghost function After(steps: seq<Step>, n: nat): World
    requires n <= |steps|
  {
    if n == 0 then EMPTY else Next(After(steps, n - 1), steps[n - 1])
  }

  ghost function Next(w: World, step: Step): World {
    if Possible(w, step) then Apply(w, step) else w
  }

  lemma {:induction false} EveryRunIsValid(steps: seq<Step>, n: nat)
    requires n <= |steps|
    ensures Valid(After(steps, n))
  {
    if n > 0 {
      EveryRunIsValid(steps, n - 1);
      if Possible(After(steps, n - 1), steps[n - 1]) {
        StepKeeps(After(steps, n - 1), steps[n - 1]);
      }
    }
  }

  lemma OnlyDeletesRemove(w: World, step: Step)
    requires w.live == w.ever && Possible(w, step) && !step.Delete?
    ensures Apply(w, step).live == Apply(w, step).ever
  {}

  lemma {:induction false} NothingIsLost(steps: seq<Step>, n: nat)
    requires n <= |steps| && forall i :: 0 <= i < |steps| ==> !steps[i].Delete?
    ensures After(steps, n).live == After(steps, n).ever
  {
    if n > 0 {
      NothingIsLost(steps, n - 1);
      if Possible(After(steps, n - 1), steps[n - 1]) {
        OnlyDeletesRemove(After(steps, n - 1), steps[n - 1]);
      }
    }
  }

  /** The answer names one of these rows. */
  predicate Names(a: Answer, key: string, rows: map<Id, Option<string>>) {
    a.key == key && a.outcome.Row? && a.outcome.id in rows
  }

  /** Among these rows, all answers for a key name the same one. */
  ghost predicate AgreeOn(answers: seq<Answer>, rows: map<Id, Option<string>>) {
    forall a, b, key :: a in answers && b in answers && Names(a, key, rows) && Names(b, key, rows) ==>
      a.outcome.id == b.outcome.id
  }

  /** Over every run, with restarts, expiry, failures and deletes: the unique index never
      rejects an insert, no two live rows share a key, and all answers for a key that name
      rows still in the table name the same one. */
  lemma KeysNameOneRow(steps: seq<Step>)
    ensures var w := After(steps, |steps|);
            && w.conflicts == 0
            && (forall a, b, key :: Carries(w.live, a, key) && Carries(w.live, b, key) ==> a == b)
            && (forall a :: a in w.answers && a.outcome.Row? ==> Carries(w.ever, a.outcome.id, a.key))
            && AgreeOn(w.answers, w.live)
  {
    EveryRunIsValid(steps, |steps|);
    var w := After(steps, |steps|);
    forall a | a in w.answers && a.outcome.Row?
      ensures Carries(w.ever, a.outcome.id, a.key)
      ensures a.outcome.id in w.live ==> Carries(w.live, a.outcome.id, a.key)
    {
      assert OutcomeOk(a.outcome, a.key, w.live, w.ever);
    }
  }

  /** Without deletes every row answered for a key is the same row, and no answer reports
      a row as gone. */
  lemma WithoutDeletesAnswersAgree(steps: seq<Step>)
    requires forall i :: 0 <= i < |steps| ==> !steps[i].Delete?
    ensures var w := After(steps, |steps|);
            && (forall a :: a in w.answers ==> !a.outcome.Missing?)
            && AgreeOn(w.answers, w.ever)
  {
    EveryRunIsValid(steps, |steps|);
    NothingIsLost(steps, |steps|);
    KeysNameOneRow(steps);
    var w := After(steps, |steps|);
    forall a | a in w.answers ensures !a.outcome.Missing? {
      assert OutcomeOk(a.outcome, a.key, w.live, w.ever);
    }
  }
}
