/** Context windows remembered from provider rejections: a bounded cache under a
    length-prefixed key. */
module ObservedLimits {
  import opened Options
  import opened Decimal

  const MAX_OBSERVED_LIMIT_ENTRIES := 256
  const MAX_SAFE_INTEGER := 9007199254740991

  datatype LimitKey = LimitKey(providerId: string, modelId: string, endpoint: Option<string>, protocol: Option<string>)

  function OrEmpty(s: Option<string>): string {
    if s.Some? then s.value else ""
  }

  /** The four strings a key stands for; an absent one is the empty string. */
  function Fields(key: LimitKey): seq<string> {
    [key.providerId, key.modelId, OrEmpty(key.endpoint), OrEmpty(key.protocol)]
  }

  function Prefixed(value: string): string {
    Render(|value|) + ":" + value
  }

  function Join(fields: seq<string>): string
    requires fields != []
  {
    if |fields| == 1 then Prefixed(fields[0])
    else Prefixed(fields[0]) + "|" + Join(fields[1..])
  }

  function KeyOf(key: LimitKey): string {
    Join(Fields(key))
  }

  /** The length in front says where a field ends, whatever the field contains. */
  lemma PrefixIsDecodable(a: string, b: string, s: string, t: string)
    requires Prefixed(a) + s == Prefixed(b) + t
    ensures a == b && s == t
  {
    var m, n := Render(|a|), Render(|b|);
    var u := Prefixed(a) + s;
    RenderIsDigits(|a|);
    RenderIsDigits(|b|);
    assert u[|m|] == ':' && u[|n|] == ':';
    assert forall i :: 0 <= i < |m| ==> u[i] == m[i];
    assert forall i :: 0 <= i < |n| ==> u[i] == n[i];
    assert |m| == |n|;
    assert m == u[..|m|] == n;
    RenderIsInjective(|a|, |b|);
    assert a == u[|m| + 1..|m| + 1 + |a|] == b;
    assert s == u[|m| + 1 + |a|..] == t;
  }

  lemma {:induction false} JoinIsInjective(f: seq<string>, g: seq<string>)
    requires |f| == |g| > 0 && Join(f) == Join(g)
    ensures f == g
  {
    if |f| == 1 {
      PrefixIsDecodable(f[0], g[0], "", "");
    } else {
      var s, t := "|" + Join(f[1..]), "|" + Join(g[1..]);
      assert Join(f) == Prefixed(f[0]) + s && Join(g) == Prefixed(g[0]) + t;
      PrefixIsDecodable(f[0], g[0], s, t);
      assert Join(f[1..]) == s[1..] == t[1..] == Join(g[1..]);
      JoinIsInjective(f[1..], g[1..]);
      assert f == [f[0]] + f[1..] && g == [g[0]] + g[1..];
    }
  }

  /** An absent text counts as an empty one. */
  predicate SameText(a: Option<string>, b: Option<string>) {
    a == b || (a in {None, Some("")} && b in {None, Some("")})
  }

  /** Distinct providers, models, endpoints or protocols never share an entry. */
  lemma KeysCollideOnlyWhenEqual(j: LimitKey, k: LimitKey)
    ensures KeyOf(j) == KeyOf(k) <==>
            && j.providerId == k.providerId && j.modelId == k.modelId
            && SameText(j.endpoint, k.endpoint) && SameText(j.protocol, k.protocol)
  {
    if KeyOf(j) == KeyOf(k) {
      JoinIsInjective(Fields(j), Fields(k));
      assert Fields(j)[0] == Fields(k)[0] && Fields(j)[1] == Fields(k)[1];
      assert Fields(j)[2] == Fields(k)[2] && Fields(j)[3] == Fields(k)[3];
    }
  }

  // ---- The cache against its write log ----

  datatype Window = Window(limitTokens: int, observedAt: int)
  datatype Entry = Entry(id: string, window: Window)

  function IndexOfId(entries: seq<Entry>, id: string): (i: int)
    ensures -1 <= i < |entries|
    ensures i >= 0 ==> entries[i].id == id
    ensures i < 0 ==> forall k :: 0 <= k < |entries| ==> entries[k].id != id
  {
    if entries == [] then -1
    else if entries[|entries| - 1].id == id then |entries| - 1
    else IndexOfId(entries[..|entries| - 1], id)
  }

  /** What the write log says about `id`: its last write, and nothing about capacity. */
  function LastWrite(log: seq<Entry>, id: string): Option<Window> {
    if log == [] then None
    else if log[|log| - 1].id == id then Some(log[|log| - 1].window)
    else LastWrite(log[..|log| - 1], id)
  }

  /** The other keys written after the last write of `id`. */
  function NewerOthers(log: seq<Entry>, id: string): set<string> {
    if log == [] || log[|log| - 1].id == id then {}
    else NewerOthers(log[..|log| - 1], id) + {log[|log| - 1].id}
  }

  /** No write of `id` is at `from` or behind it. */
  ghost predicate NoneFrom(log: seq<Entry>, id: string, from: nat) {
    forall j :: from <= j < |log| ==> log[j].id != id
  }

  lemma NoneFromStep(log: seq<Entry>, id: string, from: nat)
    requires from < |log|
    ensures NoneFrom(log, id, from) <==> log[|log| - 1].id != id && NoneFrom(log[..|log| - 1], id, from)
  {}

  /** A key's last write is the entry of its own that no other of its own follows. */
  lemma {:induction false} LastWriteExactlyWhen(log: seq<Entry>, id: string, w: Window)
    ensures LastWrite(log, id) == Some(w) <==>
            exists k :: 0 <= k < |log| && log[k] == Entry(id, w) && NoneFrom(log, id, k + 1)
  {
    if log != [] {
      var last := |log| - 1;
      LastWriteExactlyWhen(log[..last], id, w);
      forall from | 0 < from <= last
        ensures NoneFrom(log, id, from) <==> log[last].id != id && NoneFrom(log[..last], id, from)
      {
        NoneFromStep(log, id, from);
      }
      assert NoneFrom(log, id, last + 1);
    }
  }

  /** A key is newer when it was written behind every write of `id`. */
  lemma {:induction false} NewerExactlyWhen(log: seq<Entry>, id: string, x: string)
    ensures x in NewerOthers(log, id) <==>
            exists k :: 0 <= k < |log| && log[k].id == x && NoneFrom(log, id, k)
  {
    if log != [] {
      var last := |log| - 1;
      NewerExactlyWhen(log[..last], id, x);
      forall from | 0 <= from <= last
        ensures NoneFrom(log, id, from) <==> log[last].id != id && NoneFrom(log[..last], id, from)
      {
        NoneFromStep(log, id, from);
      }
    }
  }

  /** The keys of the entries at `from` and behind it. */
  function IdsFrom(entries: seq<Entry>, from: nat): set<string>
    decreases |entries| - from
  {
    if from >= |entries| then {} else {entries[from].id} + IdsFrom(entries, from + 1)
  }

  lemma {:induction false} IdsFromAre(entries: seq<Entry>, from: nat)
    ensures forall x :: x in IdsFrom(entries, from) <==> exists i :: from <= i < |entries| && entries[i].id == x
    decreases |entries| - from
  {
    if from < |entries| {
      IdsFromAre(entries, from + 1);
    }
  }

  ghost predicate Distinct(entries: seq<Entry>) {
    forall i, j :: 0 <= i < j < |entries| ==> entries[i].id != entries[j].id
  }

  /** A stored entry holds its key's last write, and the newer keys are those behind it. */
  ghost predicate IsCurrent(entries: seq<Entry>, log: seq<Entry>, i: nat)
    requires i < |entries|
  {
    && LastWrite(log, entries[i].id) == Some(entries[i].window)
    && NewerOthers(log, entries[i].id) == IdsFrom(entries, i + 1)
  }

  /** A key that was written and is not stored has 256 newer keys. */
  ghost predicate IsRightlyGone(entries: seq<Entry>, log: seq<Entry>, id: string) {
    IndexOfId(entries, id) < 0 && LastWrite(log, id).Some? ==> |NewerOthers(log, id)| >= MAX_OBSERVED_LIMIT_ENTRIES
  }

  /** Insertion order is order of last write, and what is gone is rightly gone. */
  ghost predicate Newest(entries: seq<Entry>, log: seq<Entry>) {
    && Distinct(entries)
    && (forall i :: 0 <= i < |entries| ==> IsCurrent(entries, log, i))
    && (forall id :: IsRightlyGone(entries, log, id))
  }

  ghost predicate Refines(entries: seq<Entry>, log: seq<Entry>) {
    |entries| <= MAX_OBSERVED_LIMIT_ENTRIES && Newest(entries, log)
  }

  function Without(entries: seq<Entry>, id: string): seq<Entry> {
    var i := IndexOfId(entries, id);
    if i < 0 then entries else entries[..i] + entries[i + 1..]
  }

  lemma {:induction false} IdsOfDistinct(entries: seq<Entry>, from: nat)
    requires from <= |entries| && Distinct(entries)
    ensures |IdsFrom(entries, from)| == |entries| - from
    decreases |entries| - from
  {
    if from < |entries| {
      IdsOfDistinct(entries, from + 1);
      IdsFromAre(entries, from + 1);
    }
  }

  lemma LogGrows(log: seq<Entry>, e: Entry, id: string)
    ensures LastWrite(log + [e], id) == if e.id == id then Some(e.window) else LastWrite(log, id)
    ensures NewerOthers(log + [e], id) == if e.id == id then {} else NewerOthers(log, id) + {e.id}
  {
    assert (log + [e])[..|log|] == log;
  }

  /** Deleting and re-adding a key keeps the order of last writes. */
  lemma ReinsertKeepsNewest(entries: seq<Entry>, log: seq<Entry>, e: Entry)
    requires Refines(entries, log)
    ensures Newest(Without(entries, e.id) + [e], log + [e])
  {
    var next := Without(entries, e.id) + [e];
    WithoutIsDistinct(entries, e);
    forall i | 0 <= i < |next| ensures IsCurrent(next, log + [e], i) {
      if i < |next| - 1 {
        var j := Was(entries, e.id, i);
        KeptEntryIs(entries, e, i);
        assert IsCurrent(entries, log, j);
        KeptStaysCurrent(entries, log, e, i);
      } else {
        LogGrows(log, e, e.id);
      }
    }
    forall id ensures IsRightlyGone(next, log + [e], id) {
      assert IsRightlyGone(entries, log, id);
      StaysRightlyGone(entries, log, e, id);
    }
  }

  lemma WithoutIsDistinct(entries: seq<Entry>, e: Entry)
    requires Distinct(entries)
    ensures Distinct(Without(entries, e.id) + [e])
  {
    var at := IndexOfId(entries, e.id);
    forall i | 0 <= i < |Without(entries, e.id)|
      ensures Without(entries, e.id)[i] == entries[if at < 0 || i < at then i else i + 1]
    {}
  }

  lemma KeptStaysCurrent(entries: seq<Entry>, log: seq<Entry>, e: Entry, i: nat)
    requires Distinct(entries) && i < |Without(entries, e.id)|
    requires Was(entries, e.id, i) < |entries| && IsCurrent(entries, log, Was(entries, e.id, i))
    ensures IsCurrent(Without(entries, e.id) + [e], log + [e], i)
  {
    KeptEntry(entries, e, i);
    LogGrows(log, e, entries[Was(entries, e.id, i)].id);
  }

  lemma StaysRightlyGone(entries: seq<Entry>, log: seq<Entry>, e: Entry, id: string)
    requires IsRightlyGone(entries, log, id)
    ensures IsRightlyGone(Without(entries, e.id) + [e], log + [e], id)
  {
    LogGrows(log, e, id);
    StillAbsent(entries, e, id);
    SubsetSize(NewerOthers(log, id), NewerOthers(log, id) + {e.id});
  }

  lemma StillAbsent(entries: seq<Entry>, e: Entry, id: string)
    ensures IndexOfId(Without(entries, e.id) + [e], id) < 0 ==> IndexOfId(entries, id) < 0 && id != e.id
  {
    var next := Without(entries, e.id) + [e];
    var at, k := IndexOfId(entries, e.id), IndexOfId(entries, id);
    assert next[|next| - 1] == e;
    if k >= 0 && id != e.id {
      assert next[if at < 0 || k < at then k else k - 1] == entries[k];
    }
  }

  /** Where the `i`-th kept entry was. */
  function Was(entries: seq<Entry>, id: string, i: nat): nat {
    var at := IndexOfId(entries, id);
    if at < 0 || i < at then i else i + 1
  }

  lemma KeptEntryIs(entries: seq<Entry>, e: Entry, i: nat)
    requires i < |Without(entries, e.id)|
    ensures var j := Was(entries, e.id, i);
            j < |entries| && (Without(entries, e.id) + [e])[i] == entries[j]
  {
    var at := IndexOfId(entries, e.id);
    assert (Without(entries, e.id) + [e])[i] == Without(entries, e.id)[i];
    if at >= 0 {
      assert Without(entries, e.id)[i] == entries[Was(entries, e.id, i)];
    }
  }

  lemma IdsStep(entries: seq<Entry>, i: nat)
    requires i < |entries|
    ensures IdsFrom(entries, i) == {entries[i].id} + IdsFrom(entries, i + 1)
  {}

  lemma EndOfIds(entries: seq<Entry>, e: Entry)
    ensures IdsFrom(Without(entries, e.id) + [e], |Without(entries, e.id)|) == {e.id}
    ensures IdsFrom(entries, Was(entries, e.id, |Without(entries, e.id)|)) == {}
  {
    var next := Without(entries, e.id) + [e];
    IdsStep(next, |next| - 1);
    assert IdsFrom(next, |next|) == {};
  }

  lemma UnionShift<T>(x: T, e: T, behind: set<T>, kept: set<T>)
    requires behind == kept + {e}
    ensures {x} + behind == {x} + kept + {e}
  {}

  /** Re-inserting `e` puts its key behind every kept entry and changes nothing else there. */
  lemma {:induction false} IdsBehind(entries: seq<Entry>, e: Entry, i: nat)
    requires i <= |Without(entries, e.id)|
    ensures IdsFrom(Without(entries, e.id) + [e], i) == IdsFrom(entries, Was(entries, e.id, i)) + {e.id}
    decreases |Without(entries, e.id)| - i
  {
    if i == |Without(entries, e.id)| {
      EndOfIds(entries, e);
    } else {
      var next, j := Without(entries, e.id) + [e], Was(entries, e.id, i);
      KeptEntryIs(entries, e, i);
      IdsBehind(entries, e, i + 1);
      BehindWas(entries, e.id, i);
      IdsStep(next, i);
      IdsStep(entries, j);
      UnionShift(entries[j].id, e.id, IdsFrom(next, i + 1), IdsFrom(entries, j + 1));
    }
  }

  lemma BehindWas(entries: seq<Entry>, id: string, i: nat)
    requires i < |Without(entries, id)|
    ensures IdsFrom(entries, Was(entries, id, i + 1)) + {id} == IdsFrom(entries, Was(entries, id, i) + 1) + {id}
  {
    var at := IndexOfId(entries, id);
    if at == i + 1 {
      assert IdsFrom(entries, i + 1) == {id} + IdsFrom(entries, i + 2);
    }
  }

  lemma KeptEntry(entries: seq<Entry>, e: Entry, i: nat)
    requires i < |Without(entries, e.id)| && Distinct(entries)
    ensures var j := Was(entries, e.id, i);
            var next := Without(entries, e.id) + [e];
            && j < |entries| && next[i] == entries[j] && next[i].id != e.id
            && IdsFrom(next, i + 1) == IdsFrom(entries, j + 1) + {e.id}
  {
    KeptEntryIs(entries, e, i);
    IdsBehind(entries, e, i + 1);
    BehindWas(entries, e.id, i);
  }

  lemma SubsetSize<T>(a: set<T>, b: set<T>)
    requires a <= b
    ensures |a| <= |b|
  {
    assert b == a + (b - a);
  }

  lemma {:induction false} IdsBehindFirst(entries: seq<Entry>, from: nat)
    requires entries != []
    ensures IdsFrom(entries[1..], from) == IdsFrom(entries, from + 1)
    decreases |entries| - from
  {
    if from + 1 < |entries| {
      IdsBehindFirst(entries, from + 1);
      assert entries[1..][from] == entries[from + 1];
    }
  }

  lemma EvictedStaysCurrent(entries: seq<Entry>, log: seq<Entry>, i: nat)
    requires i + 1 < |entries| && IsCurrent(entries, log, i + 1)
    ensures IsCurrent(entries[1..], log, i)
  {
    assert entries[1..][i] == entries[i + 1];
    IdsBehindFirst(entries, i + 1);
  }

  /** The entry that is evicted has all the others, 256 of them, behind it. */
  lemma EvictedIsRightlyGone(entries: seq<Entry>, log: seq<Entry>, id: string)
    requires |entries| == MAX_OBSERVED_LIMIT_ENTRIES + 1 && Distinct(entries)
    requires IsCurrent(entries, log, 0) && IsRightlyGone(entries, log, id)
    ensures IsRightlyGone(entries[1..], log, id)
  {
    var k := IndexOfId(entries, id);
    if k > 0 {
      assert entries[1..][k - 1].id == id;
    } else if k == 0 {
      IdsOfDistinct(entries, 1);
    }
  }

  lemma EvictionKeepsRefinement(entries: seq<Entry>, log: seq<Entry>)
    requires Newest(entries, log) && |entries| == MAX_OBSERVED_LIMIT_ENTRIES + 1
    ensures Refines(entries[1..], log)
  {
    var next := entries[1..];
    forall i | 0 <= i < |next| ensures IsCurrent(next, log, i) {
      assert IsCurrent(entries, log, i + 1);
      EvictedStaysCurrent(entries, log, i);
    }
    forall id ensures IsRightlyGone(next, log, id) {
      assert IsCurrent(entries, log, 0) && IsRightlyGone(entries, log, id);
      EvictedIsRightlyGone(entries, log, id);
    }
    assert Distinct(next);
  }

  /** A stored window is there exactly while fewer than 256 other keys are newer. */
  lemma ReadAgrees(entries: seq<Entry>, log: seq<Entry>, id: string)
    requires Refines(entries, log)
    ensures IndexOfId(entries, id) >= 0 <==>
            LastWrite(log, id).Some? && |NewerOthers(log, id)| < 256
    ensures IndexOfId(entries, id) >= 0 ==>
            LastWrite(log, id) == Some(entries[IndexOfId(entries, id)].window)
  {
    var at := IndexOfId(entries, id);
    assert IsRightlyGone(entries, log, id);
    if at >= 0 {
      assert IsCurrent(entries, log, at);
      StoredIsRecent(entries, log, at);
    }
  }

  lemma StoredIsRecent(entries: seq<Entry>, log: seq<Entry>, at: nat)
    requires at < |entries| <= MAX_OBSERVED_LIMIT_ENTRIES && Distinct(entries) && IsCurrent(entries, log, at)
    ensures |NewerOthers(log, entries[at].id)| < MAX_OBSERVED_LIMIT_ENTRIES
  {
    IdsOfDistinct(entries, at + 1);
  }

  class Observations {
    var observations: seq<Entry>
    ghost var log: seq<Entry>

    ghost predicate Valid()
      reads this
    {
      Refines(observations, log)
    }

    constructor ()
      ensures Valid() && log == []
    {
      observations, log := [], [];
    }

    method ObserveContextWindow(key: LimitKey, limitTokens: int, now: int)
      requires Valid()
      modifies this
      ensures Valid()
      ensures log == if 0 < limitTokens <= 9007199254740991
                     then old(log) + [Entry(KeyOf(key), Window(limitTokens, now))]
                     else old(log)
    {
      if limitTokens > MAX_SAFE_INTEGER || limitTokens <= 0 {
        return;
      }
      var id := KeyOf(key);
      var e := Entry(id, Window(limitTokens, now));
      ReinsertKeepsNewest(observations, log, e);
      log := log + [e];
      var at := IndexOfId(observations, id);
      if at >= 0 {
        observations := observations[..at] + observations[at + 1..];
      }
      observations := observations + [e];
      while |observations| > MAX_OBSERVED_LIMIT_ENTRIES
        invariant if |observations| > MAX_OBSERVED_LIMIT_ENTRIES
                  then Newest(observations, log) && |observations| == MAX_OBSERVED_LIMIT_ENTRIES + 1
                  else Refines(observations, log)
        invariant log == old(log) + [e]
      {
        EvictionKeepsRefinement(observations, log);
        observations := observations[1..];
      }
    }

    /** A read finds the last value written under exactly this key, unless 256 other
        keys have been written since. */
    method ReadObservedContextWindow(key: LimitKey) returns (found: Option<Window>)
      requires Valid()
      ensures found == if |NewerOthers(log, KeyOf(key))| < 256
                       then LastWrite(log, KeyOf(key)) else None
    {
      var id := KeyOf(key);
      var at := IndexOfId(observations, id);
      ReadAgrees(observations, log, id);
      return if at < 0 then None else Some(observations[at].window);
    }

    method Clear()
      requires Valid()
      modifies this
      ensures Valid() && log == []
    {
      observations, log := [], [];
    }
  }
}
