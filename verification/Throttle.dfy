/** Token-bucket rate control of one log scope, in thousandths of a token.

    One token returns per second, so one thousandth returns per millisecond. */
module Throttle {
  import opened Integers
  import opened Options

  const BUCKET := 100_000
  const TOKEN := 1_000

  datatype Bucket = Bucket(tokens: int, lastMs: int, throttled: bool, dropped: nat)

  /** What one offer to the bucket leads to. */
  datatype Outcome = Pass | PassAndLift | Shed | ShedAndAnnounce

  function Fresh(now: int): Bucket {
    Bucket(BUCKET, now, false, 0)
  }

  function Refilled(b: Bucket, now: int): int {
    Min(BUCKET, b.tokens + (now - b.lastMs))
  }

  function Offer(b: Bucket, now: int): (Bucket, Outcome) {
    var tokens := Refilled(b, now);
    if tokens >= TOKEN then
      var left := tokens - TOKEN;
      if b.throttled && left >= BUCKET then (Bucket(left, now, false, b.dropped), PassAndLift)
      else (Bucket(left, now, b.throttled, b.dropped), Pass)
    else
      (Bucket(tokens, now, true, b.dropped + 1), if b.throttled then Shed else ShedAndAnnounce)
  }

  predicate Admits(o: Outcome) {
    o.Pass? || o.PassAndLift?
  }

  /** The bucket of a scope after its first `n` offers, made at the given times. */
  function State(times: seq<int>, n: nat): Option<Bucket>
    requires n <= |times|
  {
    if n == 0 then None else Some(Offer(Met(State(times, n - 1), times[n - 1]), times[n - 1]).0)
  }

  /** The bucket an offer meets: the first offer of a scope creates it, full. */
  function Met(b: Option<Bucket>, now: int): Bucket {
    if b.None? then Fresh(now) else b.value
  }

  /** The level at which offer `k` is judged. */
  function Level(times: seq<int>, k: nat): int
    requires k < |times|
  {
    Refilled(Met(State(times, k), times[k]), times[k])
  }

  predicate Admitted(times: seq<int>, k: nat)
    requires k < |times|
  {
    Admits(Offer(Met(State(times, k), times[k]), times[k]).1)
  }

  /** How many of the offers `i..j` were admitted. */
  function AdmittedIn(times: seq<int>, i: nat, j: nat): nat
    requires j <= |times|
  {
    if j <= i then 0 else AdmittedIn(times, i, j - 1) + (if Admitted(times, j - 1) then 1 else 0)
  }

  /** When the admitted ones of the first `n` offers were made. */
  function AdmittedTimes(times: seq<int>, n: nat): seq<int>
    requires n <= |times|
  {
    if n == 0 then [] else AdmittedTimes(times, n - 1) + (if Admitted(times, n - 1) then [times[n - 1]] else [])
  }

  ghost predicate Rising(times: seq<int>) {
    forall i, j :: 0 <= i <= j < |times| ==> times[i] <= times[j]
  }

  /** What the window from offer `i` up to, but without, offer `k` leaves for offer `k`. */
  function Slack(times: seq<int>, i: nat, k: nat): int
    requires i <= k < |times|
  {
    BUCKET + (times[k] - times[i]) - TOKEN * AdmittedIn(times, i, k)
  }

  /** The announcement that throttling ended is unreachable: an admitted offer leaves the
      bucket below full. */
  lemma NeverLifts(b: Bucket, now: int)
    ensures !Offer(b, now).1.PassAndLift?
  {}

  lemma NextLevel(times: seq<int>, k: nat)
    requires 0 < k < |times|
    ensures Level(times, k) ==
            Min(BUCKET, Level(times, k - 1) - (if Admitted(times, k - 1) then TOKEN else 0) + (times[k] - times[k - 1]))
  {}

  /** Bucket and windows are two views of one quantity: the level is the least slack that
      any window ending now leaves. */
  lemma {:induction false} LevelIsLeastSlack(times: seq<int>, k: nat)
    requires k < |times| && Rising(times)
    ensures 0 <= Level(times, k) <= BUCKET
    ensures forall i :: 0 <= i <= k ==> Level(times, k) <= Slack(times, i, k)
    ensures exists i :: 0 <= i <= k && Level(times, k) == Slack(times, i, k)
  {
    assert Slack(times, k, k) == BUCKET;
    if k == 0 {
    } else {
      NextLevel(times, k);
      LevelIsLeastSlack(times, k - 1);
      forall i | 0 <= i < k ensures Slack(times, i, k) == Slack(times, i, k - 1) + (times[k] - times[k - 1])
                                     - (if Admitted(times, k - 1) then TOKEN else 0) {}
      var i :| 0 <= i <= k - 1 && Level(times, k - 1) == Slack(times, i, k - 1);
      assert Level(times, k) == Slack(times, i, k) || Level(times, k) == Slack(times, k, k);
    }
  }

  /** With a clock that never goes back, no window of any run admits more than a bucketful
      plus one entry per second. */
  lemma BudgetHolds(times: seq<int>, i: nat, j: nat)
    requires i < j <= |times| && Rising(times)
    ensures TOKEN * AdmittedIn(times, i, j) <= BUCKET + (times[j - 1] - times[i])
  {
    LevelIsLeastSlack(times, j - 1);
    assert Level(times, j - 1) <= Slack(times, i, j - 1);
  }

  /** And nothing is shed without need: an entry is shed exactly when admitting it would
      break the budget of some window. */
  lemma ShedExactlyWhenOverBudget(times: seq<int>, k: nat)
    requires k < |times| && Rising(times)
    ensures !Admitted(times, k) <==>
            exists i :: 0 <= i <= k && TOKEN * (AdmittedIn(times, i, k) + 1) > BUCKET + (times[k] - times[i])
  {
    LevelIsLeastSlack(times, k);
    if !Admitted(times, k) {
      var i :| 0 <= i <= k && Level(times, k) == Slack(times, i, k);
      assert TOKEN * (AdmittedIn(times, i, k) + 1) > BUCKET + (times[k] - times[i]);
    } else {
      forall i | 0 <= i <= k ensures TOKEN * (AdmittedIn(times, i, k) + 1) <= BUCKET + (times[k] - times[i]) {
        assert Level(times, k) <= Slack(times, i, k);
      }
    }
  }

  /** Every offer is either admitted or counted as dropped. */
  lemma {:induction false} DroppedIsTheRest(times: seq<int>, n: nat)
    requires n <= |times|
    ensures n == AdmittedIn(times, 0, n) + (if n == 0 then 0 else State(times, n).value.dropped)
  {
    if n > 0 {
      DroppedIsTheRest(times, n - 1);
    }
  }

  lemma {:induction false} AdmittedTimesCount(times: seq<int>, n: nat)
    requires n <= |times|
    ensures |AdmittedTimes(times, n)| == AdmittedIn(times, 0, n)
  {
    if n > 0 {
      AdmittedTimesCount(times, n - 1);
    }
  }

  lemma {:induction false} WindowsAdd(times: seq<int>, i: nat, j: nat)
    requires i <= j <= |times|
    ensures AdmittedIn(times, 0, i) + AdmittedIn(times, i, j) == AdmittedIn(times, 0, j)
  {
    if i < j {
      WindowsAdd(times, i, j - 1);
    }
  }

  /** The offer behind the `k`-th admitted time. */
  lemma {:induction false} OfferBehind(times: seq<int>, n: nat, k: nat) returns (p: nat)
    requires n <= |times| && k < |AdmittedTimes(times, n)|
    ensures p < n && Admitted(times, p)
    ensures AdmittedIn(times, 0, p) == k && times[p] == AdmittedTimes(times, n)[k]
  {
    AdmittedTimesCount(times, n - 1);
    if k < |AdmittedTimes(times, n - 1)| {
      p := OfferBehind(times, n - 1, k);
    } else {
      p := n - 1;
    }
  }

  lemma {:induction false} AdmittedGrows(times: seq<int>, i: nat, j: nat)
    requires i <= j <= |times|
    ensures AdmittedIn(times, 0, i) <= AdmittedIn(times, 0, j)
  {
    WindowsAdd(times, i, j);
  }

  /** Later admissions stem from later offers. */
  lemma OffersInOrder(times: seq<int>, p: nat, q: nat)
    requires p < |times| && q < |times| && Admitted(times, q)
    ensures q < p ==> AdmittedIn(times, 0, q) < AdmittedIn(times, 0, p)
  {
    if q < p {
      AdmittedGrows(times, q + 1, p);
    }
  }

  /** The budget of the window between two admitted offers, both included. */
  lemma BudgetBetween(times: seq<int>, p: nat, q: nat)
    requires Rising(times) && p <= q < |times| && Admitted(times, q)
    ensures TOKEN * (AdmittedIn(times, 0, q) + 1 - AdmittedIn(times, 0, p)) <= BUCKET + (times[q] - times[p])
  {
    WindowsAdd(times, p, q + 1);
    BudgetHolds(times, p, q + 1);
  }

  /** The budget, read off the admitted times alone. */
  lemma AdmittedTimesKeepBudget(times: seq<int>, i: nat, j: nat)
    requires Rising(times) && i < j <= |AdmittedTimes(times, |times|)|
    ensures var admitted := AdmittedTimes(times, |times|);
            TOKEN * (j - i) <= BUCKET + (admitted[j - 1] - admitted[i])
  {
    var p := OfferBehind(times, |times|, i);
    var q := OfferBehind(times, |times|, j - 1);
    OffersInOrder(times, p, q);
    BudgetBetween(times, p, q);
  }

  // ---- What is announced ----

  predicate Announced(times: seq<int>, k: nat)
    requires k < |times|
  {
    Offer(Met(State(times, k), times[k]), times[k]).1.ShedAndAnnounce?
  }

  /** How many of the first `n` offers announced that throttling engaged. */
  function Announcements(times: seq<int>, n: nat): nat
    requires n <= |times|
  {
    if n == 0 then 0 else Announcements(times, n - 1) + (if Announced(times, n - 1) then 1 else 0)
  }

  /** How many of the first `n` offers were shed. */
  function ShedIn(times: seq<int>, n: nat): nat
    requires n <= |times|
  {
    if n == 0 then 0 else ShedIn(times, n - 1) + (if Admitted(times, n - 1) then 0 else 1)
  }

  /** Throttling never ends, so a scope announces it once per process, with the first entry
      it sheds; every later engagement is silent. */
  lemma {:induction false} AnnouncedOnceExactlyWhen(times: seq<int>, n: nat)
    requires n <= |times|
    ensures Announcements(times, n) == (if ShedIn(times, n) > 0 then 1 else 0)
    ensures n > 0 ==> (State(times, n).value.throttled <==> ShedIn(times, n) > 0)
  {
    if n > 0 {
      AnnouncedOnceExactlyWhen(times, n - 1);
      NeverLifts(Met(State(times, n - 1), times[n - 1]), times[n - 1]);
    }
  }

  /** The announcement says that one entry was dropped. */
  lemma FirstDropIsAnnounced(times: seq<int>, k: nat)
    requires k < |times| && Announced(times, k)
    ensures State(times, k + 1).value.dropped == 1
  {
    AnnouncedOnceExactlyWhen(times, k);
    AnnouncedOnceExactlyWhen(times, k + 1);
    DroppedIsTheRest(times, k);
    ShedIsTheRest(times, k);
  }

  lemma {:induction false} ShedIsTheRest(times: seq<int>, n: nat)
    requires n <= |times|
    ensures n == AdmittedIn(times, 0, n) + ShedIn(times, n)
  {
    if n > 0 {
      ShedIsTheRest(times, n - 1);
    }
  }

  // ---- A hundred at once, then one per second ----

  lemma {:induction false} BurstDrains(times: seq<int>, k: nat)
    requires k < |times| && forall i :: 0 <= i <= k ==> times[i] == times[0]
    ensures Level(times, k) == if k < 100 then 100_000 - 1_000 * k else 0
  {
    if k > 0 {
      BurstDrains(times, k - 1);
      NextLevel(times, k);
    }
  }

  /** Of any number of entries in one millisecond the first hundred pass. */
  lemma HundredAtOnce(times: seq<int>, k: nat)
    requires k < |times| && forall i :: 0 <= i <= k ==> times[i] == times[0]
    ensures Admitted(times, k) <==> k < 100
  {
    BurstDrains(times, k);
  }

  /** After that the next one passes once a second is over. */
  lemma OneMoreAfterASecond(times: seq<int>, k: nat)
    requires 100 <= k < |times| && forall i :: 0 <= i < k ==> times[i] == times[0]
    ensures Admitted(times, k) <==> times[k] - times[0] >= 1_000
  {
    BurstDrains(times, k - 1);
    HundredAtOnce(times, k - 1);
    NextLevel(times, k);
  }

  // ---- One more offer ----

  lemma {:induction false} EarlierOffersStand(times: seq<int>, now: int, n: nat)
    requires n <= |times|
    ensures State(times + [now], n) == State(times, n)
    ensures AdmittedTimes(times + [now], n) == AdmittedTimes(times, n)
  {
    if n > 0 {
      EarlierOffersStand(times, now, n - 1);
    }
  }

  lemma OneMoreOffer(times: seq<int>, now: int)
    ensures var next := times + [now];
            var (b, o) := Offer(Met(State(times, |times|), now), now);
            && State(next, |next|) == Some(b)
            && AdmittedTimes(next, |next|) == AdmittedTimes(times, |times|) + (if Admits(o) then [now] else [])
  {
    EarlierOffersStand(times, now, |times|);
  }
}
