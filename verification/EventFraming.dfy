/** Splitting a proxied server-sent-event stream into blocks, chunk by chunk. */
module EventFraming {
  import opened Texts

  const MAX_LOGGED_EVENTS := 20

  predicate SeparatorAt(s: string, i: nat) {
    i + 1 < |s| && s[i] == '\n' && s[i + 1] == '\n'
  }

  ghost predicate NoSeparator(s: string) {
    forall i: nat :: !SeparatorAt(s, i)
  }

  /** The lowest separator position at or after `from`, or -1. */
  function IndexOf(s: string, from: nat): (i: int)
    ensures i >= 0 ==> from <= i && SeparatorAt(s, i)
    ensures forall k: nat :: from <= k && (i < 0 || k < i) ==> !SeparatorAt(s, k)
    decreases |s| - from
  {
    if from + 1 >= |s| then -1
    else if SeparatorAt(s, from) then from
    else IndexOf(s, from + 1)
  }

  datatype Framing = Framing(blocks: seq<string>, residual: string)

  /** What is cut from a text that arrives whole. */
  function Frames(s: string): Framing
    decreases |s|
  {
    var i := IndexOf(s, 0);
    if i < 0 then Framing([], s)
    else
      var rest := Frames(s[i + 2..]);
      Framing([s[..i]] + rest.blocks, rest.residual)
  }

  function Rejoin(blocks: seq<string>, residual: string): string {
    if blocks == [] then residual else blocks[0] + "\n\n" + Rejoin(blocks[1..], residual)
  }

  /** The only way to cut a text: no separator is left in the residual, and none begins
      inside a block, not even on the line break that ends it. */
  ghost predicate CutsEverywhere(f: Framing) {
    NoSeparator(f.residual) && forall k :: 0 <= k < |f.blocks| ==> NoSeparator(f.blocks[k] + "\n")
  }

  lemma {:induction false} FramesRejoin(s: string)
    ensures Rejoin(Frames(s).blocks, Frames(s).residual) == s
    decreases |s|
  {
    var i := IndexOf(s, 0);
    if i >= 0 {
      FramesRejoin(s[i + 2..]);
      assert Frames(s).blocks[1..] == Frames(s[i + 2..]).blocks;
      assert s == s[..i] + "\n\n" + s[i + 2..];
    }
  }

  lemma {:induction false} FramesCutEverywhere(s: string)
    ensures CutsEverywhere(Frames(s))
    decreases |s|
  {
    var i := IndexOf(s, 0);
    if i >= 0 {
      FramesCutEverywhere(s[i + 2..]);
      forall k: nat ensures !SeparatorAt(s[..i] + "\n", k) {
        assert !SeparatorAt(s, k) || i <= k;
      }
    }
  }

  lemma FirstSeparator(block: string, tail: string)
    requires NoSeparator(block + "\n")
    ensures IndexOf(block + "\n\n" + tail, 0) == |block|
  {
    var s := block + "\n\n" + tail;
    assert SeparatorAt(s, |block|);
    forall k: nat | k < |block| ensures !SeparatorAt(s, k) {
      assert !SeparatorAt(block + "\n", k);
    }
  }

  /** A separator already found stays the first one. */
  lemma FirstSeparatorIsStable(a: string, b: string)
    requires IndexOf(a, 0) >= 0
    ensures IndexOf(a + b, 0) == IndexOf(a, 0)
  {
    var i := IndexOf(a, 0);
    assert SeparatorAt(a + b, i);
    forall k: nat | k < i ensures !SeparatorAt(a + b, k) {
      assert !SeparatorAt(a, k);
    }
  }

  function Prepend(block: string, f: Framing): Framing {
    Framing([block] + f.blocks, f.residual)
  }

  function Follow(f: Framing, g: Framing): Framing {
    Framing(f.blocks + g.blocks, g.residual)
  }

  lemma PrependFollows(block: string, f: Framing, g: Framing)
    ensures Follow(Prepend(block, f), g) == Prepend(block, Follow(f, g))
  {
    assert ([block] + f.blocks) + g.blocks == [block] + (f.blocks + g.blocks);
  }

  lemma CutOfConcat(a: string, b: string, i: nat)
    requires i + 2 <= |a|
    ensures (a + b)[..i] == a[..i] && (a + b)[i + 2..] == a[i + 2..] + b
  {}

  lemma FirstBlock(s: string)
    requires IndexOf(s, 0) >= 0
    ensures Frames(s) == Prepend(s[..IndexOf(s, 0)], Frames(s[IndexOf(s, 0) + 2..]))
  {}

  /** Text that arrives later only continues the residual. */
  lemma {:induction false} FramesOfChunks(a: string, b: string)
    ensures Frames(a + b) == Follow(Frames(a), Frames(Frames(a).residual + b))
    decreases |a|
  {
    var i := IndexOf(a, 0);
    if i < 0 {
      NothingBefore(a, b);
    } else {
      var tail, f, g := a[i + 2..], Frames(a[i + 2..]), Frames(Frames(a[i + 2..]).residual + b);
      FramesOfChunks(tail, b);
      FirstSeparatorIsStable(a, b);
      CutOfConcat(a, b, i);
      FirstBlock(a);
      FirstBlock(a + b);
      PrependFollows(a[..i], f, g);
    }
  }

  lemma NothingBefore(a: string, b: string)
    requires IndexOf(a, 0) < 0
    ensures Follow(Frames(a), Frames(Frames(a).residual + b)) == Frames(a + b)
  {
    assert Frames(a) == Framing([], a);
    assert [] + Frames(a + b).blocks == Frames(a + b).blocks;
  }

  lemma JoinedSplits(block: string, tail: string)
    ensures var s := block + "\n\n" + tail; s[..|block|] == block && s[|block| + 2..] == tail
  {}

  lemma RestOfCut(f: Framing)
    requires CutsEverywhere(f) && f.blocks != []
    ensures CutsEverywhere(Framing(f.blocks[1..], f.residual)) && NoSeparator(f.blocks[0] + "\n")
    ensures f == Prepend(f.blocks[0], Framing(f.blocks[1..], f.residual))
  {}

  /** Any cut that leaves no separator behind is the one `Frames` makes. */
  lemma {:induction false} FramesAreUnique(f: Framing)
    requires CutsEverywhere(f)
    ensures Frames(Rejoin(f.blocks, f.residual)) == f
    decreases |f.blocks|
  {
    if f.blocks == [] {
      assert IndexOf(f.residual, 0) < 0;
    } else {
      var block, rest := f.blocks[0], Framing(f.blocks[1..], f.residual);
      var tail := Rejoin(rest.blocks, rest.residual);
      RestOfCut(f);
      FramesAreUnique(rest);
      FirstSeparator(block, tail);
      FirstBlock(block + "\n\n" + tail);
      JoinedSplits(block, tail);
    }
  }

  function Feed(f: Framing, text: string): Framing {
    Follow(f, Frames(f.residual + text))
  }

  function FeedAll(f: Framing, chunks: seq<string>): Framing
    decreases |chunks|
  {
    if chunks == [] then f else FeedAll(Feed(f, chunks[0]), chunks[1..])
  }

  lemma FeedContinues(s: string, text: string)
    ensures Feed(Frames(s), text) == Frames(s + text)
  {
    FramesOfChunks(s, text);
  }

  lemma ConcatStep(s: string, chunks: seq<string>)
    requires chunks != []
    ensures s + Concat(chunks) == (s + chunks[0]) + Concat(chunks[1..])
  {}

  /** Two divisions of the same text into chunks end in the same blocks and residual. */
  lemma {:induction false} ChunkingIsIrrelevant(s: string, chunks: seq<string>)
    ensures FeedAll(Frames(s), chunks) == Frames(s + Concat(chunks))
    decreases |chunks|
  {
    if chunks == [] {
      assert s + Concat(chunks) == s;
    } else {
      var next := s + chunks[0];
      FeedContinues(s, chunks[0]);
      ConcatStep(s, chunks);
      ChunkingIsIrrelevant(next, chunks[1..]);
    }
  }

  // ---- The diagnostic lines ----

  datatype LogLine = FirstEvent(kind: string) | Event(index: nat, kind: string) | SamplingStarted(observed: nat)

  /** The lines the `n`-th event of a stream causes, counted from 1. */
  function LinesFor(n: nat, kind: string): seq<LogLine> {
    (if n == 1 then [FirstEvent(kind)] else []) +
    (if n <= MAX_LOGGED_EVENTS then [Event(n, kind)]
     else if n == MAX_LOGGED_EVENTS + 1 then [SamplingStarted(n)]
     else [])
  }

  function Lines(kindOf: string -> string, blocks: seq<string>): seq<LogLine> {
    if blocks == [] then []
    else Lines(kindOf, blocks[..|blocks| - 1]) + LinesFor(|blocks|, kindOf(blocks[|blocks| - 1]))
  }

  lemma {:induction false} LogIsBounded(kindOf: string -> string, blocks: seq<string>)
    ensures |Lines(kindOf, blocks)| ==
            (if |blocks| == 0 then 0 else if |blocks| <= 20 then |blocks| + 1 else 22)
  {
    if blocks != [] {
      LogIsBounded(kindOf, blocks[..|blocks| - 1]);
    }
  }

  /** The log tells the first event, then the first twenty with their numbers, and that the
      twenty-first is not told. */
  lemma {:induction false} LogIsExact(kindOf: string -> string, blocks: seq<string>)
    ensures var lines := Lines(kindOf, blocks);
            && (|blocks| > 0 ==> |lines| > 0 && lines[0] == FirstEvent(kindOf(blocks[0])))
            && (forall k :: 0 <= k < |blocks| && k < 20 ==>
                  k + 1 < |lines| && lines[k + 1] == Event(k + 1, kindOf(blocks[k])))
            && (|blocks| > 20 ==> |lines| == 22 && lines[21] == SamplingStarted(21))
  {
    LogIsBounded(kindOf, blocks);
    if blocks != [] {
      LogIsBounded(kindOf, blocks[..|blocks| - 1]);
      LogIsExact(kindOf, blocks[..|blocks| - 1]);
    }
  }

  /** The observer of one response body. */
  class Observer {
    const kindOf: string -> string
    var buffer: string
    var firstEvent: bool
    var eventCount: nat
    var samplingStarted: bool
    var log: seq<LogLine>

    ghost var received: string
    ghost var blocks: seq<string>

    /** Everything visible is a function of the text received so far, however it was
        divided into chunks. */
    ghost predicate Valid()
      reads this
    {
      Framing(blocks, buffer) == Frames(received) && Counted()
    }

    ghost predicate Counted()
      reads this
    {
      && eventCount == |blocks|
      && firstEvent == (eventCount > 0)
      && samplingStarted == (eventCount > MAX_LOGGED_EVENTS)
      && log == Lines(kindOf, blocks)
    }

    constructor (kindOf: string -> string)
      ensures Valid() && received == ""
    {
      this.kindOf := kindOf;
      buffer, firstEvent, eventCount, samplingStarted, log := "", false, 0, false, [];
      received, blocks := "", [];
    }

    method ParseEvents(text: string)
      requires Valid()
      modifies this
      ensures Valid() && received == old(received) + text
    {
      FramesOfChunks(received, text);
      received := received + text;
      buffer := buffer + text;
      var index := IndexOf(buffer, 0);
      while index >= 0
        invariant received == old(received) + text
        invariant index == IndexOf(buffer, 0)
        invariant Frames(received) == Framing(blocks + Frames(buffer).blocks, Frames(buffer).residual)
        invariant Counted()
        decreases |buffer|
      {
        var raw := buffer[..index];
        OneBlockFurther(blocks, buffer);
        buffer := buffer[index + 2..];
        CountEvent(raw);
        index := IndexOf(buffer, 0);
      }
      assert blocks + [] == blocks;
    }

    lemma OneBlockFurther(done: seq<string>, text: string)
      requires IndexOf(text, 0) >= 0
      ensures done + Frames(text).blocks
           == (done + [text[..IndexOf(text, 0)]]) + Frames(text[IndexOf(text, 0) + 2..]).blocks
    {}

    method CountEvent(raw: string)
      requires Counted()
      modifies `blocks, `firstEvent, `eventCount, `samplingStarted, `log
      ensures Counted() && blocks == old(blocks) + [raw]
    {
      var kind := kindOf(raw);
      if !firstEvent {
        firstEvent := true;
        log := log + [FirstEvent(kind)];
      }
      eventCount := eventCount + 1;
      if !samplingStarted {
        if eventCount <= MAX_LOGGED_EVENTS {
          log := log + [Event(eventCount, kind)];
        } else {
          samplingStarted := true;
          log := log + [SamplingStarted(eventCount)];
        }
      }
      blocks := blocks + [raw];
      assert blocks[..|blocks| - 1] == old(blocks);
    }
  }
}
