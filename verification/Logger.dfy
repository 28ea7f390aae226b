/** The server log: level filter, per-scope rate control, ring, and live tails. */
module Logger {
  import opened Options
  import opened LogRing
  import opened Throttle

  function Rank(level: Level): nat {
    match level
    case Debug => 0
    case Info => 1
    case Warn => 2
    case Error => 3
  }

  /** Whether rate control applies at all. */
  predicate Governed(scope: string, level: Level) {
    (level.Debug? || level.Info?) && scope != "http"
  }

  function OffersOf(offers: map<string, seq<int>>, scope: string): seq<int> {
    if scope in offers then offers[scope] else []
  }

  function BucketOf(buckets: map<string, Bucket>, scope: string): Option<Bucket> {
    if scope in buckets then Some(buckets[scope]) else None
  }

  /** Buckets are what the offers made so far lead to. */
  ghost predicate BucketsFollow(buckets: map<string, Bucket>, offers: map<string, seq<int>>) {
    forall scope :: BucketOf(buckets, scope) == State(OffersOf(offers, scope), |OffersOf(offers, scope)|)
  }

  /** When the governed entries of a scope among the first `n` of the log were written. */
  function LowTimes(log: seq<Entry>, scope: string, n: nat): seq<int>
    requires n <= |log|
  {
    if n == 0 then [] else LowTimes(log, scope, n - 1) + LowTime(log[n - 1], scope)
  }

  function LowTime(e: Entry, scope: string): seq<int> {
    if e.scope == scope && Governed(scope, e.level) then [e.ts] else []
  }

  lemma {:induction false} LoggedPrefix(log: seq<Entry>, e: Entry, scope: string, n: nat)
    requires n <= |log|
    ensures LowTimes(log + [e], scope, n) == LowTimes(log, scope, n)
  {
    if n > 0 {
      LoggedPrefix(log, e, scope, n - 1);
    }
  }

  lemma OneMoreLogged(log: seq<Entry>, e: Entry, scope: string)
    ensures LowTimes(log + [e], scope, |log| + 1) == LowTimes(log, scope, |log|) + LowTime(e, scope)
  {
    LoggedPrefix(log, e, scope, |log|);
  }

  /** The log holds exactly the admitted entries of every governed scope. */
  ghost predicate AdmittedIsLogged(log: seq<Entry>, offers: map<string, seq<int>>) {
    forall scope :: LowTimes(log, scope, |log|) == AdmittedOf(offers, scope)
  }

  function AdmittedOf(offers: map<string, seq<int>>, scope: string): seq<int> {
    AdmittedTimes(OffersOf(offers, scope), |OffersOf(offers, scope)|)
  }

  lemma LoggingFreely(log: seq<Entry>, offers: map<string, seq<int>>, e: Entry)
    requires AdmittedIsLogged(log, offers) && !Governed(e.scope, e.level)
    ensures AdmittedIsLogged(log + [e], offers)
  {
    forall scope ensures LowTimes(log + [e], scope, |log| + 1) == LowTimes(log, scope, |log|) {
      OneMoreLogged(log, e, scope);
      assert LowTimes(log, scope, |log|) + [] == LowTimes(log, scope, |log|);
    }
  }

  /** The state after one more offer of a scope. */
  function Offered(offers: map<string, seq<int>>, scope: string, now: int): map<string, seq<int>> {
    offers[scope := OffersOf(offers, scope) + [now]]
  }

  function Answer(buckets: map<string, Bucket>, scope: string, now: int): (Bucket, Outcome) {
    Offer(Met(BucketOf(buckets, scope), now), now)
  }

  lemma OfferingFollows(buckets: map<string, Bucket>, offers: map<string, seq<int>>, scope: string, now: int)
    requires BucketsFollow(buckets, offers)
    ensures BucketsFollow(buckets[scope := Answer(buckets, scope, now).0], Offered(offers, scope, now))
  {
    OneMoreOffer(OffersOf(offers, scope), now);
    var (next, answered) := (Offered(offers, scope, now), buckets[scope := Answer(buckets, scope, now).0]);
    forall other | other != scope
      ensures OffersOf(next, other) == OffersOf(offers, other)
      ensures BucketOf(answered, other) == BucketOf(buckets, other) {}
    assert OffersOf(next, scope) == OffersOf(offers, scope) + [now];
    assert BucketOf(answered, scope) == State(OffersOf(next, scope), |OffersOf(next, scope)|);
  }

  lemma OneMoreAdmitted(buckets: map<string, Bucket>, offers: map<string, seq<int>>, scope: string, now: int,
                        other: string)
    requires BucketsFollow(buckets, offers)
    ensures AdmittedOf(Offered(offers, scope, now), other) ==
            AdmittedOf(offers, other) + (if other == scope && Admits(Answer(buckets, scope, now).1) then [now] else [])
  {
    if other == scope {
      OneMoreOffer(OffersOf(offers, scope), now);
      assert OffersOf(Offered(offers, scope, now), scope) == OffersOf(offers, scope) + [now];
    } else {
      assert OffersOf(Offered(offers, scope, now), other) == OffersOf(offers, other);
      assert AdmittedOf(offers, other) + [] == AdmittedOf(offers, other);
    }
  }

  lemma LoggingAdmitted(log: seq<Entry>, buckets: map<string, Bucket>, offers: map<string, seq<int>>, e: Entry,
                        now: int)
    requires BucketsFollow(buckets, offers) && AdmittedIsLogged(log, offers) && Governed(e.scope, e.level)
    requires e.ts == now && Admits(Answer(buckets, e.scope, now).1)
    ensures AdmittedIsLogged(log + [e], Offered(offers, e.scope, now))
  {
    forall scope ensures LowTimes(log + [e], scope, |log| + 1) == AdmittedOf(Offered(offers, e.scope, now), scope) {
      OneMoreAdmitted(buckets, offers, e.scope, now, scope);
      OneMoreLogged(log, e, scope);
    }
  }

  lemma Shedding(log: seq<Entry>, buckets: map<string, Bucket>, offers: map<string, seq<int>>, scope: string, now: int)
    requires BucketsFollow(buckets, offers) && AdmittedIsLogged(log, offers)
    requires !Admits(Answer(buckets, scope, now).1)
    ensures AdmittedIsLogged(log, Offered(offers, scope, now))
  {
    forall other ensures AdmittedOf(Offered(offers, scope, now), other) == AdmittedOf(offers, other) {
      OneMoreAdmitted(buckets, offers, scope, now, other);
      assert AdmittedOf(offers, other) + [] == AdmittedOf(offers, other);
    }
  }

  /** One more offer keeps the gate in step with the log. */
  lemma AnsweringKeepsTheGate(log: seq<Entry>, buckets: map<string, Bucket>, offers: map<string, seq<int>>,
                              e: Entry, now: int)
    requires BucketsFollow(buckets, offers) && AdmittedIsLogged(log, offers)
    requires Governed(e.scope, e.level) && e.ts == now
    ensures BucketsFollow(buckets[e.scope := Answer(buckets, e.scope, now).0], Offered(offers, e.scope, now))
    ensures AdmittedIsLogged(if Admits(Answer(buckets, e.scope, now).1) then log + [e] else log,
                             Offered(offers, e.scope, now))
  {
    OfferingFollows(buckets, offers, e.scope, now);
    if Admits(Answer(buckets, e.scope, now).1) {
      LoggingAdmitted(log, buckets, offers, e, now);
    } else {
      Shedding(log, buckets, offers, e.scope, now);
    }
  }

  // ---- Readers ----

  /** Every reader follows the log from its own start; while it listens it is up to date. */
  ghost predicate AllFollow(tails: seq<Tail>, starts: seq<nat>, log: seq<Entry>) {
    && |starts| == |tails|
    && forall i :: 0 <= i < |tails| ==> Follows(tails[i], starts[i], log)
  }

  /** Readers before `done` have seen the newest entry; the others lack at most that one. */
  ghost predicate UpToDate(tails: seq<Tail>, done: nat, newest: nat) {
    forall i :: 0 <= i < |tails| && tails[i].listening ==>
      (if i < done then tails[i].lastSent == newest else newest <= tails[i].lastSent + 1)
  }

  lemma LogGrows(tails: seq<Tail>, starts: seq<nat>, log: seq<Entry>, e: Entry)
    requires AllFollow(tails, starts, log) && UpToDate(tails, |tails|, |log|)
    ensures AllFollow(tails, starts, log + [e]) && UpToDate(tails, 0, |log| + 1)
  {
    forall i | 0 <= i < |tails| ensures Follows(tails[i], starts[i], log + [e]) {
      LongerLogIsFollowed(tails[i], starts[i], log, [e]);
    }
  }

  /** What a notification makes of one reader. */
  function Told(t: Tail, log: seq<Entry>, oldest: nat, breaks: bool): Tail {
    if t.listening then Drained(t, Due(log, oldest, t.lastSent), breaks) else t
  }

  /** Readers `..done` were told, the others are as they were. */
  ghost predicate Notified(before: seq<Tail>, after: seq<Tail>, log: seq<Entry>, oldest: nat, broken: set<nat>,
                           done: nat) {
    && |after| == |before|
    && (forall i :: 0 <= i < |before| && i < done ==> after[i] == Told(before[i], log, oldest, i in broken))
    && (forall i :: 0 <= i < |before| && done <= i ==> after[i] == before[i])
  }

  lemma OneMoreTold(before: seq<Tail>, after: seq<Tail>, log: seq<Entry>, oldest: nat, broken: set<nat>, i: nat)
    requires Notified(before, after, log, oldest, broken, i) && i < |before|
    ensures Notified(before, after[i := Told(after[i], log, oldest, i in broken)], log, oldest, broken, i + 1)
  {}

  lemma NotifyingCatchesUp(tails: seq<Tail>, after: seq<Tail>, starts: seq<nat>, log: seq<Entry>, oldest: nat,
                           broken: set<nat>)
    requires AllFollow(tails, starts, log) && UpToDate(tails, 0, |log|) && Numbered(log) && oldest < |log|
    requires Notified(tails, after, log, oldest, broken, |tails|)
    ensures AllFollow(after, starts, log) && UpToDate(after, |after|, |log|)
  {
    forall i | 0 <= i < |tails|
      ensures Follows(after[i], starts[i], log) && (after[i].listening ==> after[i].lastSent == |log|)
    {
      if tails[i].listening {
        DrainingFollows(tails[i], starts[i], log, oldest, i in broken);
      }
    }
  }

  /** Every listening reader took the new entry, or failed to. */
  ghost predicate AllServed(before: seq<Tail>, after: seq<Tail>, e: Entry, broken: set<nat>) {
    && |after| == |before|
    && forall i :: 0 <= i < |before| ==> after[i] == Served(before[i], e, i in broken)
  }

  /** What a call of the logger does to its readers: nothing unless it logs something. */
  ghost predicate Fed(before: seq<Tail>, after: seq<Tail>, was: seq<Entry>, log: seq<Entry>, broken: set<nat>) {
    if log == was then after == before else log != [] && AllServed(before, after, log[|log| - 1], broken)
  }

  lemma NotifyingServes(before: seq<Tail>, after: seq<Tail>, log: seq<Entry>, e: Entry, oldest: nat, broken: set<nat>)
    requires UpToDate(before, |before|, |log|) && oldest <= |log|
    requires Notified(before, after, log + [e], oldest, broken, |before|)
    ensures AllServed(before, after, e, broken)
  {
    forall i | 0 <= i < |before| ensures after[i] == Served(before[i], e, i in broken) {
      if before[i].listening {
        NewestIsDue(log, e, oldest, before[i].lastSent);
      }
    }
  }

  /** A notification about one new entry feeds all readers. */
  lemma FeedingReaders(before: seq<Tail>, after: seq<Tail>, starts: seq<nat>, log: seq<Entry>, e: Entry, oldest: nat,
                       broken: set<nat>)
    requires AllFollow(before, starts, log) && UpToDate(before, |before|, |log|)
    requires Numbered(log + [e]) && oldest <= |log|
    requires Notified(before, after, log + [e], oldest, broken, |before|)
    ensures AllFollow(after, starts, log + [e]) && UpToDate(after, |after|, |log| + 1)
    ensures Fed(before, after, log, log + [e], broken)
  {
    LogGrows(before, starts, log, e);
    NotifyingCatchesUp(before, after, starts, log + [e], oldest, broken);
    NotifyingServes(before, after, log, e, oldest, broken);
  }

  /** No call of the logger subscribes, unsubscribes or reopens a reader, and it closes
      exactly the listening readers that fail to take what it logged. */
  lemma FeedingKeepsConnections(before: seq<Tail>, after: seq<Tail>, was: seq<Entry>, log: seq<Entry>,
                                broken: set<nat>, i: nat)
    requires Fed(before, after, was, log, broken) && i < |before|
    ensures |after| == |before| && after[i].listening == before[i].listening
    ensures after[i].closed <==> before[i].closed || (log != was && before[i].listening && i in broken)
  {}

  /** A reader that is open before a call and does not fail during it is open after it and
      was sent every entry since its start exactly once, under consecutive numbers, whatever
      the ring has forgotten in the meantime. */
  lemma ReaderMissesNothing(before: seq<Tail>, after: seq<Tail>, starts: seq<nat>, was: seq<Entry>, log: seq<Entry>,
                            broken: set<nat>, i: nat)
    requires AllFollow(after, starts, log) && UpToDate(after, |after|, |log|) && Numbered(log)
    requires Fed(before, after, was, log, broken)
    requires i < |before| && IsOpen(before[i]) && i !in broken
    ensures |after| == |before| && IsOpen(after[i])
    ensures starts[i] <= |log| && after[i].sent == log[starts[i]..]
    ensures forall k :: 0 <= k < |after[i].sent| ==> after[i].sent[k].number == starts[i] + k + 1
  {
    FeedingKeepsConnections(before, after, was, log, broken, i);
    assert log[starts[i]..|log|] == log[starts[i]..];
  }

  /** The readers that are connected throughout have it all. */
  ghost predicate OpenReadersHaveAll(before: seq<Tail>, after: seq<Tail>, starts: seq<nat>, log: seq<Entry>,
                                     broken: set<nat>) {
    && |before| == |after| == |starts|
    && forall i :: 0 <= i < |before| && IsOpen(before[i]) && i !in broken ==>
         IsOpen(after[i]) && starts[i] <= |log| && after[i].sent == log[starts[i]..]
  }

  lemma ReadersMissNothing(before: seq<Tail>, after: seq<Tail>, starts: seq<nat>, was: seq<Entry>, log: seq<Entry>,
                           broken: set<nat>)
    requires AllFollow(after, starts, log) && UpToDate(after, |after|, |log|) && Numbered(log)
    requires Fed(before, after, was, log, broken)
    ensures OpenReadersHaveAll(before, after, starts, log, broken)
  {
    forall i | 0 <= i < |before| && IsOpen(before[i]) && i !in broken
      ensures IsOpen(after[i]) && starts[i] <= |log| && after[i].sent == log[starts[i]..]
    {
      ReaderMissesNothing(before, after, starts, was, log, broken, i);
    }
  }

  /** Nothing governed disappears silently: what was offered is in the log or was counted. */
  lemma OffersAreAccountedFor(log: seq<Entry>, buckets: map<string, Bucket>, offers: map<string, seq<int>>,
                              scope: string)
    requires BucketsFollow(buckets, offers) && AdmittedIsLogged(log, offers)
    ensures |OffersOf(offers, scope)| ==
            |LowTimes(log, scope, |log|)| + (if scope in buckets then buckets[scope].dropped else 0)
  {
    var times := OffersOf(offers, scope);
    DroppedIsTheRest(times, |times|);
    AdmittedTimesCount(times, |times|);
    assert BucketOf(buckets, scope) == State(times, |times|);
  }

  /** Under a clock that only rises, every stretch of a governed scope's entries in the log
      is at most a bucketful plus one entry per second between its first and its last. */
  lemma LogStaysWithinBudget(log: seq<Entry>, offers: map<string, seq<int>>, scope: string, i: nat, j: nat)
    requires AdmittedIsLogged(log, offers) && Rising(OffersOf(offers, scope))
    requires i < j <= |LowTimes(log, scope, |log|)|
    ensures var logged := LowTimes(log, scope, |log|);
            TOKEN * (j - i) <= BUCKET + (logged[j - 1] - logged[i])
  {
    assert LowTimes(log, scope, |log|) == AdmittedOf(offers, scope);
    AdmittedTimesKeepBudget(OffersOf(offers, scope), i, j);
  }

  // ---- The logger ----

  /** What one call adds to the log. */
  function Recorded(log: seq<Entry>, b: Option<Bucket>, enabled: bool, level: Level, scope: string, now: int,
                    body: Body): seq<Entry> {
    var (next, answer) := Offer(Met(b, now), now);
    if !enabled || (Governed(scope, level) && answer.Shed?) then log
    else if Governed(scope, level) && answer.ShedAndAnnounce? then
      log + [Entry(|log| + 1, Warn, scope, now, Throttled(next.dropped))]
    else log + [Entry(|log| + 1, level, scope, now, body)]
  }

  lemma PassingIsRecorded(log: seq<Entry>, b: Option<Bucket>, level: Level, scope: string, now: int, body: Body)
    requires !Governed(scope, level) || Admits(Offer(Met(b, now), now).1)
    ensures Recorded(log, b, true, level, scope, now, body) == log + [Entry(|log| + 1, level, scope, now, body)]
  {}

  // ---- What is logged, by level and scope alone ----

  /** The filter of a scope: 0 lets everything through, 3 errors only, 4 nothing. */
  predicate IsCaptured(level: Level, least: nat) {
    match level
    case Debug => least <= 0
    case Info => least <= 1
    case Warn => least <= 2
    case Error => least <= 3
  }

  predicate NeverShed(level: Level, scope: string) {
    level.Warn? || level.Error? || scope == "http"
  }

  /** Levels are ordered by severity: whatever captures one captures every more severe one,
      and what captures anything captures errors. */
  lemma LevelsAreOrdered(level: Level, least: nat)
    ensures Rank(Debug) < Rank(Info) < Rank(Warn) < Rank(Error)
    ensures Rank(level) >= least <==> IsCaptured(level, least)
    ensures IsCaptured(level, least) ==> IsCaptured(Error, least)
  {}

  /** Warnings, errors and the audit scope pass whatever the volume. Everything else needs a
      whole token, and the first time there is none a warning says so. */
  lemma RecordedExactlyWhen(log: seq<Entry>, b: Option<Bucket>, least: nat, level: Level, scope: string, now: int,
                            body: Body)
    ensures var after := Recorded(log, b, Rank(level) >= least, level, scope, now, body);
            var entry := Entry(|log| + 1, level, scope, now, body);
            && (!IsCaptured(level, least) ==> after == log)
            && (IsCaptured(level, least) && NeverShed(level, scope) ==> after == log + [entry])
            && (IsCaptured(level, least) && b.None? ==> after == log + [entry])
            && (IsCaptured(level, least) && !NeverShed(level, scope) && b.Some? ==>
                  after ==
                    if b.value.tokens >= 1_000 - (now - b.value.lastMs) then log + [entry]
                    else if b.value.throttled then log
                    else log + [Entry(|log| + 1, Warn, scope, now, Throttled(b.value.dropped + 1))])
  {}

  class Logger {
    /** The least rank that is captured, scope by scope. */
    var threshold: string -> nat

    var buffer: array<Entry>
    var head: nat
    var count: nat
    var newest: nat
    var ringSpliced: nat
    var levelFiltered: nat
    var buckets: map<string, Bucket>
    var tails: seq<Tail>

    /** Everything ever written, and the entries that resizing dropped. */
    ghost var log: seq<Entry>
    ghost var resized: nat
    ghost var offers: map<string, seq<int>>
    ghost var starts: seq<nat>

    /** The ring holds the newest entries of the log, and every entry of the log is in the
        ring, was overwritten, or fell to a resize. */
    ghost predicate RingValid()
      reads `buffer, `head, `count, `newest, `ringSpliced, `log, `resized, buffer
    {
      && newest == |log| == count + ringSpliced + resized
      && Refines(buffer[..], head, count, log)
    }

    ghost predicate GateValid()
      reads `buckets, `offers, `log
    {
      BucketsFollow(buckets, offers) && AdmittedIsLogged(log, offers)
    }

    ghost predicate TailsValid()
      reads `tails, `starts, `log
    {
      AllFollow(tails, starts, log) && UpToDate(tails, |tails|, |log|)
    }

    ghost predicate Valid()
      reads this, buffer
    {
      RingValid() && GateValid() && TailsValid()
    }

    constructor (threshold: string -> nat, size: int)
      ensures Valid() && fresh(buffer) && log == [] && tails == [] && buckets == map[] && this.threshold == threshold
      ensures buffer.Length == Capacity(size)
    {
      this.threshold := threshold;
      buffer := new Entry[Capacity(size)](_ => UNWRITTEN);
      head, count, newest, ringSpliced, levelFiltered, buckets, tails := 0, 0, 0, 0, 0, map[], [];
      log, resized, offers, starts := [], 0, map[], [];
    }

    static function Capacity(size: int): (capacity: nat)
      ensures capacity == 1 || capacity == size
      ensures size <= capacity && 1 <= capacity
    {
      if size >= 1 then size else 1
    }

    /** Puts one entry into the ring, over the oldest one when the ring is full. */
    method Store(level: Level, scope: string, now: int, body: Body)
      requires RingValid()
      modifies `head, `count, `newest, `ringSpliced, `log, buffer
      ensures RingValid()
      ensures log == old(log) + [Entry(|old(log)| + 1, level, scope, now, body)]
      ensures old(count) < buffer.Length ==> count == old(count) + 1 && ringSpliced == old(ringSpliced)
      ensures old(count) == buffer.Length ==> count == old(count) && ringSpliced == old(ringSpliced) + 1
    {
      newest := newest + 1;
      var entry := Entry(newest, level, scope, now, body);
      StoringRefines(buffer[..], head, count, log, entry);
      var capacity := buffer.Length;
      buffer[head] := entry;
      assert buffer[..] == old(buffer[..])[head := entry];
      head := (head + 1) % capacity;
      if count < capacity {
        count := count + 1;
      } else {
        ringSpliced := ringSpliced + 1;
      }
      log := log + [entry];
    }

    /** The `i`-th oldest entry of a ring. */
    static method Read(buffer: array<Entry>, head: nat, count: nat, i: nat, ghost log: seq<Entry>)
      returns (entry: Entry)
      requires Refines(buffer[..], head, count, log) && i < count
      ensures entry == log[|log| - count + i]
    {
      var capacity := buffer.Length;
      var oldest := (head + capacity - count) % capacity;
      SlotOf(capacity, head, count, i);
      return buffer[(oldest + i) % capacity];
    }

    /** The buffered entries after a number, oldest first. */
    method GetRecentEntries(since: nat) returns (out: seq<Entry>)
      requires RingValid()
      ensures out == Due(log, |log| - count, since)
    {
      out := Walk(buffer, head, count, since, log);
    }

    static method Walk(buffer: array<Entry>, head: nat, count: nat, since: nat, ghost log: seq<Entry>)
      returns (out: seq<Entry>)
      requires Refines(buffer[..], head, count, log)
      ensures out == Due(log, |log| - count, since)
    {
      ghost var oldest := |log| - count;
      out := [];
      var i := 0;
      while i < count
        invariant i <= count
        invariant out == Newer(log, oldest, since, i)
      {
        NewerStep(log, oldest, since, i);
        var entry := Read(buffer, head, count, i, log);
        if entry.number > since {
          out := out + [entry];
        }
        i := i + 1;
      }
      ReaderGetsTheRest(log, oldest, since);
    }

    /** The number of the newest entry, read off the slot behind the head. */
    method LastSeq() returns (last: nat)
      requires RingValid()
      ensures last == |log|
    {
      if count == 0 {
        return 0;
      }
      SlotOf(buffer.Length, head, count, count - 1);
      return buffer[(head + buffer.Length - 1) % buffer.Length].number;
    }

    /** Changes levels and capacity, and keeps the newest entries that fit. */
    method Configure(threshold: string -> nat, size: int)
      requires Valid()
      modifies `threshold, `buffer, `head, `count, `resized
      ensures Valid() && buffer.Length == Capacity(size) && this.threshold == threshold
      ensures buffer == old(buffer) || fresh(buffer)
      ensures count == if old(count) <= Capacity(size) then old(count) else Capacity(size)
    {
      this.threshold := threshold;
      var capacity := Capacity(size);
      if capacity != buffer.Length || count > capacity {
        Reclaim(capacity);
      }
    }

    method Reclaim(capacity: nat)
      requires RingValid() && capacity > 0
      modifies `buffer, `head, `count, `resized
      ensures RingValid() && fresh(buffer) && buffer.Length == capacity
      ensures count == if old(count) <= capacity then old(count) else capacity
    {
      var retained := GetRecentEntries(0);
      if |retained| > capacity {
        retained := retained[|retained| - capacity..];
      }
      var slots := Compacted(retained, capacity);
      CompactRefines(slots[..], log, |retained|);
      resized := resized + count - |retained|;
      buffer := slots;
      count := |retained|;
      head := |retained| % capacity;
    }

    /** A new buffer with the given entries in front. */
    static method Compacted(retained: seq<Entry>, capacity: nat) returns (slots: array<Entry>)
      requires |retained| <= capacity
      ensures fresh(slots) && slots.Length == capacity
      ensures forall k :: 0 <= k < |retained| ==> slots[k] == retained[k]
    {
      slots := new Entry[capacity](_ => UNWRITTEN);
      var i := 0;
      while i < |retained|
        invariant i <= |retained|
        invariant forall k :: 0 <= k < i ==> slots[k] == retained[k]
      {
        slots[i] := retained[i];
        i := i + 1;
      }
    }

    /** Sends one reader what it is due. */
    method Drain(i: nat, breaks: bool)
      requires RingValid() && i < |tails|
      modifies `tails
      ensures tails == old(tails)[i := Drained(old(tails)[i], Due(log, |log| - count, old(tails)[i].lastSent), breaks)]
    {
      var t := tails[i];
      var entries := GetRecentEntries(t.lastSent);
      if entries == [] {
        return;
      }
      t := t.(lastSent := entries[|entries| - 1].number);
      if !t.closed {
        t := if breaks then t.(closed := true) else t.(sent := t.sent + entries);
      }
      tails := tails[i := t];
    }

    /** Tells every listening reader; those in `broken` fail to take the data. */
    method Notify(broken: set<nat>)
      requires RingValid()
      modifies `tails
      ensures Notified(old(tails), tails, log, |log| - count, broken, |old(tails)|)
    {
      ghost var before, all, oldest := tails, log, |log| - count;
      var i := 0;
      while i < |tails|
        invariant i <= |tails| == |before|
        invariant RingValid() && log == all && count == |all| - oldest
        invariant Notified(before, tails, all, oldest, broken, i)
      {
        OneMoreTold(before, tails, all, oldest, broken, i);
        Tell(i, i in broken);
        i := i + 1;
      }
    }

    method Tell(i: nat, breaks: bool)
      requires RingValid() && i < |tails|
      modifies `tails
      ensures tails == old(tails)[i := Told(old(tails)[i], log, |log| - count, breaks)]
    {
      if tails[i].listening {
        Drain(i, breaks);
      }
    }

    /** The end of a write that passed every check. */
    method Append(level: Level, scope: string, now: int, body: Body, broken: set<nat>)
      requires RingValid() && TailsValid() && BucketsFollow(buckets, offers)
      requires AdmittedIsLogged(log + [Entry(|log| + 1, level, scope, now, body)], offers)
      modifies `head, `count, `newest, `ringSpliced, `log, `tails, buffer
      ensures Valid()
      ensures log == old(log) + [Entry(|old(log)| + 1, level, scope, now, body)]
      ensures Fed(old(tails), tails, old(log), log, broken)
    {
      StoreAndNotify(level, scope, now, body, broken);
    }

    method StoreAndNotify(level: Level, scope: string, now: int, body: Body, broken: set<nat>)
      requires RingValid() && TailsValid()
      modifies `head, `count, `newest, `ringSpliced, `log, `tails, buffer
      ensures RingValid() && TailsValid()
      ensures log == old(log) + [Entry(|old(log)| + 1, level, scope, now, body)]
      ensures Fed(old(tails), tails, old(log), log, broken)
    {
      ghost var before, was, entry := tails, log, Entry(|log| + 1, level, scope, now, body);
      Store(level, scope, now, body);
      Notify(broken);
      FeedingReaders(before, tails, starts, was, entry, |log| - count, broken);
    }

    predicate IsEnabled(level: Level, scope: string)
      reads `threshold
    {
      Rank(level) >= threshold(scope)
    }

    /** One call of the logger. `now` is the clock, `broken` are the readers that fail to
        take data while this call runs. */
    method Write(level: Level, scope: string, now: int, body: Body, broken: set<nat>)
      requires Valid()
      modifies this, buffer
      ensures Valid() && buffer == old(buffer) && threshold == old(threshold)
      ensures log == Recorded(old(log), BucketOf(old(buckets), scope), IsEnabled(level, scope), level, scope, now, body)
      ensures levelFiltered == old(levelFiltered) + (if IsEnabled(level, scope) then 0 else 1)
      ensures IsCaptured(level, threshold(scope)) && NeverShed(level, scope) ==>
                log == old(log) + [Entry(|old(log)| + 1, level, scope, now, body)]
      ensures !IsCaptured(level, threshold(scope)) ==> log == old(log)
      ensures Fed(old(tails), tails, old(log), log, broken) && starts == old(starts)
      ensures OpenReadersHaveAll(old(tails), tails, starts, log, broken)
      ensures resized == old(resized)
      ensures |log| - |old(log)| == (count - old(count)) + (ringSpliced - old(ringSpliced))
      ensures buckets == if IsEnabled(level, scope) && Governed(scope, level)
                         then old(buckets)[scope := Answer(old(buckets), scope, now).0] else old(buckets)
      ensures offers == if IsEnabled(level, scope) && Governed(scope, level)
                        then Offered(old(offers), scope, now) else old(offers)
      decreases if Governed(scope, level) then 1 else 0, 2
    {
      ghost var before, was := tails, log;
      if IsEnabled(level, scope) {
        Admit(level, scope, now, body, broken);
      } else {
        levelFiltered := levelFiltered + 1;
      }
      ReadersMissNothing(before, tails, starts, was, log, broken);
    }

    /** The part of a write behind the level filter. */
    method Admit(level: Level, scope: string, now: int, body: Body, broken: set<nat>)
      requires Valid() && IsEnabled(level, scope)
      modifies this, buffer
      ensures Valid() && buffer == old(buffer) && threshold == old(threshold)
      ensures log == Recorded(old(log), BucketOf(old(buckets), scope), true, level, scope, now, body)
      ensures levelFiltered == old(levelFiltered) && resized == old(resized)
      ensures Fed(old(tails), tails, old(log), log, broken) && starts == old(starts)
      ensures buckets == if Governed(scope, level)
                         then old(buckets)[scope := Answer(old(buckets), scope, now).0] else old(buckets)
      ensures offers == if Governed(scope, level) then Offered(old(offers), scope, now) else old(offers)
      decreases if Governed(scope, level) then 1 else 0, 1
    {
      ghost var before, readers, b := log, tails, BucketOf(buckets, scope);
      ghost var entry := Entry(|log| + 1, level, scope, now, body);
      var pass := Check(level, scope, now, entry, broken);
      if pass {
        assert tails == readers && log == before;
        PassingIsRecorded(before, b, level, scope, now, body);
        Append(level, scope, now, body, broken);
      }
    }

    /** Rate control. When it engages it announces itself with a nested write. */
    method Check(level: Level, scope: string, now: int, ghost entry: Entry, broken: set<nat>) returns (pass: bool)
      requires Valid() && IsEnabled(level, scope)
      requires entry.level == level && entry.scope == scope && entry.ts == now
      modifies this, buffer
      ensures RingValid() && TailsValid() && buffer == old(buffer) && threshold == old(threshold)
      ensures BucketsFollow(buckets, offers)
      ensures AdmittedIsLogged(if pass then log + [entry] else log, offers)
      ensures pass <==> !Governed(scope, level) || Admits(Answer(old(buckets), scope, now).1)
      ensures log == if pass then old(log)
                     else Recorded(old(log), BucketOf(old(buckets), scope), true, level, scope, now, entry.body)
      ensures levelFiltered == old(levelFiltered) && resized == old(resized)
      ensures Fed(old(tails), tails, old(log), log, broken) && starts == old(starts)
      ensures buckets == if Governed(scope, level)
                         then old(buckets)[scope := Answer(old(buckets), scope, now).0] else old(buckets)
      ensures offers == if Governed(scope, level) then Offered(old(offers), scope, now) else old(offers)
      decreases if Governed(scope, level) then 1 else 0, 0, 1
    {
      if !Governed(scope, level) {
        LoggingFreely(log, offers, entry);
        return true;
      }
      var answer := Ask(scope, now, entry);
      pass := Admits(answer);
      if answer.ShedAndAnnounce? {
        Announce(scope, now, buckets[scope].dropped, broken);
      }
    }

    /** Takes a token from the bucket of a scope, or counts a drop. */
    method Ask(scope: string, now: int, ghost entry: Entry) returns (answer: Outcome)
      requires GateValid() && entry.scope == scope && entry.ts == now && Governed(scope, entry.level)
      modifies `buckets, `offers
      ensures answer == Answer(old(buckets), scope, now).1
      ensures buckets == old(buckets)[scope := Answer(old(buckets), scope, now).0]
      ensures offers == Offered(old(offers), scope, now)
      ensures BucketsFollow(buckets, offers)
      ensures AdmittedIsLogged(if Admits(answer) then log + [entry] else log, offers)
    {
      AnsweringKeepsTheGate(log, buckets, offers, entry, now);
      var (b, given) := Answer(buckets, scope, now);
      answer := given;
      buckets := buckets[scope := b];
      offers := Offered(offers, scope, now);
    }

    method Announce(scope: string, now: int, dropped: nat, broken: set<nat>)
      requires Valid() && IsEnabled(Warn, scope)
      modifies this, buffer
      ensures Valid() && buffer == old(buffer) && threshold == old(threshold)
      ensures log == old(log) + [Entry(|old(log)| + 1, Warn, scope, now, Throttled(dropped))]
      ensures levelFiltered == old(levelFiltered) && resized == old(resized)
      ensures buckets == old(buckets) && offers == old(offers)
      ensures Fed(old(tails), tails, old(log), log, broken) && starts == old(starts)
      decreases 1, 0, 0
    {
      Write(Warn, scope, now, Throttled(dropped), broken);
    }

    /** A reader connects: it is sent the backlog, if there is one, and listens from then on. */
    method Subscribe(breaks: bool) returns (i: nat)
      requires Valid()
      modifies `tails, `starts
      ensures Valid() && i == |old(tails)| && |tails| == i + 1 && tails[..i] == old(tails)
      ensures starts == old(starts) + [|log| - count] && tails[i].listening
      ensures tails[i].closed <==> breaks && log != []
      ensures tails[i].lastSent == |log| && tails[i].sent == if tails[i].closed then [] else log[starts[i]..]
    {
      i := |tails|;
      BacklogIsFollowed(log, |log| - count, breaks);
      tails := tails + [Tail(0, [], false, true)];
      starts := starts + [|log| - count];
      Drain(i, breaks);
    }

    /** The keep-alive of a listening reader; a failure closes it. */
    method Heartbeat(i: nat, breaks: bool)
      requires Valid() && i < |tails| && tails[i].listening
      modifies `tails
      ensures Valid()
      ensures tails == old(tails)[i := old(tails)[i].(closed := old(tails)[i].closed || breaks)]
    {
      if tails[i].closed {
        return;
      }
      assert log[starts[i]..tails[i].lastSent] <= log[starts[i]..];
      tails := tails[i := tails[i].(closed := breaks)];
    }

    /** The client of a reader goes away. After a failed send this does nothing, so such a
        reader stays subscribed. */
    method Abort(i: nat)
      requires Valid() && i < |tails|
      modifies `tails
      ensures Valid()
      ensures tails == old(tails)[i := if old(tails)[i].closed then old(tails)[i]
                                       else old(tails)[i].(closed := true, listening := false)]
      ensures tails[i].listening <==> old(tails)[i].listening && old(tails)[i].closed
    {
      if !tails[i].closed {
        assert log[starts[i]..tails[i].lastSent] <= log[starts[i]..];
        tails := tails[i := tails[i].(closed := true, listening := false)];
      }
    }
  }

  /** A reader whose connection breaks during a send, and whose client then goes away: it
      is closed for good and still subscribed. */
  method BrokenReaderStaysSubscribed(size: int, now: int) returns (l: Logger)
    ensures fresh(l) && fresh(l.buffer) && l.Valid()
    ensures |l.tails| == 1 && l.tails[0].closed && l.tails[0].listening
  {
    l := new Logger(_ => 0, size);
    var i := l.Subscribe(false);
    l.Write(Error, "chat", now, Event("boom"), {i});
    FeedingKeepsConnections([Tail(0, [], false, true)], l.tails, [], l.log, {i}, i);
    l.Abort(i);
  }
}
