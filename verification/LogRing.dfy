/** The live log: a ring that forgets, refining a plain log that only grows.

    The value-level half: which slot holds which entry, and which entries a reader is due. */
module LogRing {
  import opened Integers

  datatype Level = Debug | Info | Warn | Error

  datatype Body = Event(text: string) | Throttled(dropped: nat)

  /** An entry after redaction; `number` is its sequence number. */
  datatype Entry = Entry(number: nat, level: Level, scope: string, ts: int, body: Body)

  /** A slot that was never written. */
  const UNWRITTEN := Entry(0, Debug, "", 0, Event(""))

  /** Sequence numbers count up from one. */
  ghost predicate Numbered(log: seq<Entry>) {
    forall k :: 0 <= k < |log| ==> log[k].number == k + 1
  }

  /** The slot of the `i`-th oldest of `count` entries, when `head` is written next. */
  function Slot(capacity: nat, head: nat, count: nat, i: nat): (slot: nat)
    requires head < capacity && count <= capacity && i < count
    ensures slot < capacity
  {
    if head + i < count then head + capacity + i - count else head + i - count
  }

  lemma SlotOf(capacity: nat, head: nat, count: nat, i: nat)
    requires head < capacity && count <= capacity && i < count
    ensures Slot(capacity, head, count, i) == ((head + capacity - count) % capacity + i) % capacity
    ensures Slot(capacity, head, count, count - 1) == (head + capacity - 1) % capacity
  {
    WrapOnce(head + capacity - count, capacity);
    WrapOnce((head + capacity - count) % capacity + i, capacity);
    WrapOnce(head + capacity - 1, capacity);
  }

  lemma WrapOnce(x: nat, capacity: nat)
    requires 0 < capacity && x < 2 * capacity
    ensures x % capacity == if x < capacity then x else x - capacity
  {
    if x >= capacity {
      assert x == capacity * 1 + (x - capacity);
    }
  }

  /** The ring refines the log: its `count` occupied slots hold the newest entries. */
  ghost predicate Refines(slots: seq<Entry>, head: nat, count: nat, log: seq<Entry>) {
    && head < |slots| && count <= |slots| && count <= |log| && (log != [] ==> count > 0)
    && Numbered(log)
    && forall i :: 0 <= i < count ==> slots[Slot(|slots|, head, count, i)] == log[|log| - count + i]
  }

  function Occupied(count: nat, capacity: nat): nat {
    if count < capacity then count + 1 else count
  }

  lemma StoringRefines(slots: seq<Entry>, head: nat, count: nat, log: seq<Entry>, e: Entry)
    requires Refines(slots, head, count, log) && e.number == |log| + 1
    ensures Refines(slots[head := e], (head + 1) % |slots|, Occupied(count, |slots|), log + [e])
  {
    var capacity, next, more := |slots|, (head + 1) % |slots|, Occupied(count, |slots|);
    WrapOnce(head + 1, capacity);
    forall i | 0 <= i < more
      ensures slots[head := e][Slot(capacity, next, more, i)] == (log + [e])[|log| + 1 - more + i]
    {
      if i < more - 1 {
        assert Slot(capacity, next, more, i) == Slot(capacity, head, count, i + 1 + count - more) != head;
      }
    }
  }

  lemma CompactRefines(slots: seq<Entry>, log: seq<Entry>, count: nat)
    requires 0 < |slots| && count <= |slots| && count <= |log| && (log != [] ==> count > 0) && Numbered(log)
    requires forall i :: 0 <= i < count ==> slots[i] == log[|log| - count + i]
    ensures Refines(slots, count % |slots|, count, log)
  {
    WrapOnce(count, |slots|);
    forall i | 0 <= i < count ensures Slot(|slots|, count % |slots|, count, i) == i {}
  }

  /** The first `n` entries after `from` that are newer than `since`. */
  function Newer(log: seq<Entry>, from: nat, since: nat, n: nat): seq<Entry>
    requires from + n <= |log|
  {
    if n == 0 then []
    else Newer(log, from, since, n - 1) + (if log[from + n - 1].number > since then [log[from + n - 1]] else [])
  }

  lemma NewerStep(log: seq<Entry>, from: nat, since: nat, n: nat)
    requires from + n < |log|
    ensures Newer(log, from, since, n + 1) ==
            Newer(log, from, since, n) + (if log[from + n].number > since then [log[from + n]] else [])
  {}

  /** What a reader that knows the log up to `since` gets from a ring that starts after
      `from`: the rest of the log, less what the ring forgot. */
  function Due(log: seq<Entry>, from: nat, since: nat): seq<Entry> {
    if Max(from, since) <= |log| then log[Max(from, since)..] else []
  }

  lemma {:induction false} NewerIsSlice(log: seq<Entry>, from: nat, since: nat, n: nat)
    requires Numbered(log) && from + n <= |log|
    ensures Newer(log, from, since, n) == if Max(from, since) <= from + n then log[Max(from, since)..from + n] else []
  {
    if n > 0 {
      NewerIsSlice(log, from, since, n - 1);
    }
  }

  lemma ReaderGetsTheRest(log: seq<Entry>, from: nat, since: nat)
    requires Numbered(log) && from <= |log|
    ensures Newer(log, from, since, |log| - from) == Due(log, from, since)
  {
    NewerIsSlice(log, from, since, |log| - from);
  }

  /** Due are exactly the retained entries with a number above the one that is known. */
  lemma DueExactlyWhen(log: seq<Entry>, from: nat, since: nat, e: Entry)
    requires Numbered(log)
    ensures e in Due(log, from, since) <==> e.number > since && exists k :: from <= k < |log| && log[k] == e
  {
    if k :| from <= k < |log| && log[k] == e && e.number > since {
      assert e == Due(log, from, since)[k - Max(from, since)];
    }
  }

  // ---- Live tails ----

  /** A live-tail reader: what it was sent, up to which number, and its connection. */
  datatype Tail = Tail(lastSent: nat, sent: seq<Entry>, closed: bool, listening: bool)

  /** What draining does to a reader; `breaks` says that handing over the data fails. */
  function Drained(t: Tail, entries: seq<Entry>, breaks: bool): Tail {
    if entries == [] then t
    else
      var at := entries[|entries| - 1].number;
      if t.closed then t.(lastSent := at)
      else if breaks then t.(lastSent := at, closed := true)
      else t.(lastSent := at, sent := t.sent + entries)
  }

  /** The reader has every entry after `from` up to `lastSent`, once and in order; a reader
      whose connection is gone has a prefix of that. */
  ghost predicate Follows(t: Tail, from: nat, log: seq<Entry>) {
    && from <= t.lastSent <= |log|
    && if t.closed then t.sent <= log[from..] else t.sent == log[from..t.lastSent]
  }

  lemma LongerLogIsFollowed(t: Tail, from: nat, log: seq<Entry>, more: seq<Entry>)
    requires Follows(t, from, log)
    ensures Follows(t, from, log + more)
  {
    assert (log + more)[from..] == log[from..] + more;
    if !t.closed {
      assert (log + more)[from..t.lastSent] == log[from..t.lastSent];
    }
  }

  /** Draining closes the gap, as long as the ring has forgotten nothing unsent. */
  lemma DrainingFollows(t: Tail, from: nat, log: seq<Entry>, oldest: nat, breaks: bool)
    requires Numbered(log) && Follows(t, from, log) && oldest <= t.lastSent
    ensures Follows(Drained(t, Due(log, oldest, t.lastSent), breaks), from, log)
    ensures Drained(t, Due(log, oldest, t.lastSent), breaks).lastSent == |log|
  {
    var due := Due(log, oldest, t.lastSent);
    assert due == log[t.lastSent..];
    if due != [] {
      assert due[|due| - 1] == log[|log| - 1];
      assert log[from..t.lastSent] + due == log[from..|log|] == log[from..];
    }
  }

  /** The first drain sends the backlog. */
  lemma BacklogIsFollowed(log: seq<Entry>, from: nat, breaks: bool)
    requires Numbered(log) && from <= |log| && (from == |log| ==> log == [])
    ensures var t := Drained(Tail(0, [], false, true), Due(log, from, 0), breaks);
            Follows(t, from, log) && t.lastSent == |log|
  {
    var due := Due(log, from, 0);
    if due != [] {
      assert due[|due| - 1] == log[|log| - 1];
      assert [] + due == log[from..|log|] == log[from..];
    }
  }

  predicate IsOpen(t: Tail) {
    t.listening && !t.closed
  }

  /** What one new entry makes of a reader that had all before it. */
  function Served(t: Tail, e: Entry, breaks: bool): Tail {
    if t.listening then Drained(t, [e], breaks) else t
  }

  /** Only the newest entry is due to a reader that had all before it. */
  lemma NewestIsDue(log: seq<Entry>, e: Entry, oldest: nat, since: nat)
    requires oldest <= |log| == since
    ensures Due(log + [e], oldest, since) == [e]
  {}
}
