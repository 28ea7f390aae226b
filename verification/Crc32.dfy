/** Clocked linear registers, over any representation of the register contents.
    Keeping the representation abstract keeps the algebra free of bit vectors. */
module LinearRegister {

  /** `add` joins contents, `clock` is one step; `low` and `half` take the next input
      bit off an input word. */
  datatype Machine<!T> = Machine(add: (T, T) -> T, clock: T -> T, low: T -> T, half: T -> T)

  function Iter<T>(f: T -> T, c: T, n: nat): T {
    if n == 0 then c else f(Iter(f, c, n - 1))
  }

  /** `n` input bits, least significant first, each added into the low end of the
      register before a clock. */
  function FeedBits<T>(m: Machine<T>, c: T, bits: T, n: nat): T
    decreases n
  {
    if n == 0 then c else FeedBits(m, m.clock(m.add(c, m.low(bits))), m.half(bits), n - 1)
  }

  function Register<T>(m: Machine<T>, word: bv8 -> T, c: T, message: seq<bv8>): T
    decreases |message|
  {
    if message == [] then c
    else Register(m, word, FeedBits(m, c, word(message[0]), 8), message[1..])
  }

  ghost predicate Group<T(!new)>(add: (T, T) -> T) {
    && (forall x, y, z :: add(add(x, y), z) == add(x, add(y, z)))
    && (forall x, y :: add(x, y) == add(y, x))
    && (forall x, y :: add(x, add(x, y)) == y)
  }

  ghost predicate Additive<T(!new)>(m: Machine<T>) {
    forall x, y :: m.clock(m.add(x, y)) == m.add(m.clock(x), m.clock(y))
  }

  ghost predicate Reversible<T(!new)>(m: Machine<T>) {
    && (forall x, y :: m.clock(x) == m.clock(y) ==> x == y)
    && (forall x, y, z :: m.add(x, z) == m.add(y, z) ==> x == y)
  }

  ghost predicate SplitsLowBit<T(!new)>(m: Machine<T>) {
    forall c, bits :: m.clock(m.add(c, bits)) == m.add(m.clock(m.add(c, m.low(bits))), m.half(bits))
  }

  function Halved<T>(m: Machine<T>, bits: T, n: nat): T {
    if n == 0 then bits else Halved(m, m.half(bits), n - 1)
  }

  lemma {:induction false} IterDistributes<T(!new)>(m: Machine<T>, x: T, y: T, n: nat)
    requires Additive(m)
    ensures Iter(m.clock, m.add(x, y), n) == m.add(Iter(m.clock, x, n), Iter(m.clock, y, n))
  {
    if n > 0 {
      IterDistributes(m, x, y, n - 1);
    }
  }

  lemma {:induction false} IterIsInjective<T(!new)>(m: Machine<T>, x: T, y: T, n: nat)
    requires Reversible(m)
    requires Iter(m.clock, x, n) == Iter(m.clock, y, n)
    ensures x == y
  {
    if n > 0 {
      IterIsInjective(m, x, y, n - 1);
    }
  }

  lemma {:induction false} IterInside<T>(f: T -> T, c: T, n: nat)
    ensures Iter(f, f(c), n) == f(Iter(f, c, n))
  {
    if n > 0 {
      IterInside(f, c, n - 1);
    }
  }

  /** Feeding bits one at a time is adding them all at once and clocking `n` times. */
  lemma {:induction false} FeedBitsAddsThenClocks<T(!new)>(m: Machine<T>, c: T, bits: T, n: nat)
    requires SplitsLowBit(m)
    requires forall x :: m.add(x, Halved(m, bits, n)) == x
    ensures FeedBits(m, c, bits, n) == Iter(m.clock, m.add(c, bits), n)
    decreases n
  {
    if n == 0 {
      assert m.add(c, Halved(m, bits, n)) == c;
    } else {
      assert Halved(m, bits, n) == Halved(m, m.half(bits), n - 1);
      var next := m.clock(m.add(c, m.low(bits)));
      FeedBitsAddsThenClocks(m, next, m.half(bits), n - 1);
      assert m.clock(m.add(c, bits)) == m.add(next, m.half(bits));
      IterInside(m.clock, m.add(c, bits), n - 1);
    }
  }

  lemma {:induction false} RegisterConcat<T>(m: Machine<T>, word: bv8 -> T, c: T, u: seq<bv8>, v: seq<bv8>)
    ensures Register(m, word, c, u + v) == Register(m, word, Register(m, word, c, u), v)
    decreases |u|
  {
    if u == [] {
      assert u + v == v;
    } else {
      assert (u + v)[1..] == u[1..] + v;
      RegisterConcat(m, word, FeedBits(m, c, word(u[0]), 8), u[1..], v);
    }
  }

  // ---- Undoing the register over a short window ----

  /** What the bytes of a window look like as register contents: `up` makes room for
      one more byte, `below(w, k)` says that `w` holds at most `k` bytes. */
  datatype Window<!T> = Window(word: bv8 -> T, zero: T, up: T -> T, below: (T, nat) -> bool)

  ghost predicate FeedsWholeBytes<T(!new)>(m: Machine<T>, s: Window<T>) {
    forall c, b :: FeedBits(m, c, s.word(b), 8) == Iter(m.clock, m.add(c, s.word(b)), 8)
  }

  ghost predicate Undoes<T(!new)>(m: Machine<T>, s: Window<T>) {
    forall w, k: nat :: k < 4 && s.below(w, k) ==> Iter(m.clock, s.up(w), 8) == w
  }

  ghost predicate Appends<T(!new)>(m: Machine<T>, s: Window<T>, w: T, k: nat, a: bv8, b: bv8) {
    var longer := m.add(s.up(w), m.add(s.word(a), s.word(b)));
    s.below(longer, k + 1) && (longer == s.zero ==> w == s.zero && a == b)
  }

  ghost predicate AppendsAlways<T(!new)>(m: Machine<T>, s: Window<T>) {
    && s.below(s.zero, 0)
    && forall w, k: nat, a, b :: k < 4 && s.below(w, k) ==> Appends(m, s, w, k, a, b)
  }

  /** The byte differences of two windows as one little-endian word. */
  function Difference<T>(m: Machine<T>, s: Window<T>, u: seq<bv8>, v: seq<bv8>): T
    requires |u| == |v|
  {
    if u == [] then s.zero
    else m.add(s.up(Difference(m, s, u[1..], v[1..])), m.add(s.word(u[0]), s.word(v[0])))
  }

  lemma {:induction false} DifferenceIsFaithful<T(!new)>(m: Machine<T>, s: Window<T>, u: seq<bv8>, v: seq<bv8>)
    requires AppendsAlways(m, s) && |u| == |v| <= 4
    ensures s.below(Difference(m, s, u, v), |u|)
    ensures Difference(m, s, u, v) == s.zero ==> u == v
  {
    if u != [] {
      DifferenceIsFaithful(m, s, u[1..], v[1..]);
      assert Appends(m, s, Difference(m, s, u[1..], v[1..]), |u| - 1, u[0], v[0]);
      assert u == [u[0]] + u[1..] && v == [v[0]] + v[1..];
    }
  }

  lemma MoveAcross<T(!new)>(add: (T, T) -> T, c: T, a: T, c': T, a': T, w: T)
    requires Group(add) && add(add(c, a), add(c', a')) == w
    ensures add(c, c') == add(w, add(a, a'))
  {
    assert add(add(c, a), add(c', a')) == add(add(c, c'), add(a, a')) by {
      assert add(add(c, a), add(c', a')) == add(c, add(a, add(c', a')));
      assert add(a, add(c', a')) == add(add(a, c'), a') == add(add(c', a), a') == add(c', add(a, a'));
    }
  }

  /** One byte back: what the registers before two bytes differ by. */
  lemma ByteUndo<T(!new)>(m: Machine<T>, s: Window<T>, c: T, a: bv8, c': T, a': bv8, w: T, k: nat)
    requires Group(m.add) && Additive(m) && Reversible(m) && FeedsWholeBytes(m, s) && Undoes(m, s)
    requires k < 4 && s.below(w, k)
    requires m.add(FeedBits(m, c, s.word(a), 8), FeedBits(m, c', s.word(a'), 8)) == w
    ensures m.add(c, c') == m.add(s.up(w), m.add(s.word(a), s.word(a')))
  {
    var x, x' := m.add(c, s.word(a)), m.add(c', s.word(a'));
    IterDistributes(m, x, x', 8);
    IterIsInjective(m, m.add(x, x'), s.up(w), 8);
    MoveAcross(m.add, c, s.word(a), c', s.word(a'), s.up(w));
  }

  /** Registers that agree after windows of up to four bytes differed, before them, by
      exactly the word of the byte differences. */
  lemma {:induction false} AgreementDeterminesDifference<T(!new)>(
      m: Machine<T>, s: Window<T>, c: T, u: seq<bv8>, c': T, v: seq<bv8>)
    requires Group(m.add) && Additive(m) && Reversible(m) && FeedsWholeBytes(m, s) && Undoes(m, s)
    requires AppendsAlways(m, s) && (forall x :: m.add(x, x) == s.zero) && |u| == |v| <= 4
    requires Register(m, s.word, c, u) == Register(m, s.word, c', v)
    ensures m.add(c, c') == Difference(m, s, u, v)
    decreases |u|
  {
    if u != [] {
      AgreementDeterminesDifference(m, s, FeedBits(m, c, s.word(u[0]), 8), u[1..],
                                    FeedBits(m, c', s.word(v[0]), 8), v[1..]);
      DifferenceIsFaithful(m, s, u[1..], v[1..]);
      ByteUndo(m, s, c, u[0], c', v[0], Difference(m, s, u[1..], v[1..]), |u| - 1);
    }
  }

  lemma {:induction false} RegisterIsInjective<T(!new)>(m: Machine<T>, s: Window<T>, c: T, c': T, message: seq<bv8>)
    requires Reversible(m) && FeedsWholeBytes(m, s)
    requires Register(m, s.word, c, message) == Register(m, s.word, c', message)
    ensures c == c'
    decreases |message|
  {
    if message != [] {
      var x, x' := m.add(c, s.word(message[0])), m.add(c', s.word(message[0]));
      RegisterIsInjective(m, s, FeedBits(m, c, s.word(message[0]), 8),
                          FeedBits(m, c', s.word(message[0]), 8), message[1..]);
      IterIsInjective(m, x, x', 8);
    }
  }

  lemma WindowDetermined<T(!new)>(
      m: Machine<T>, s: Window<T>, c: T, u: seq<bv8>, v: seq<bv8>, after: seq<bv8>)
    requires Group(m.add) && Additive(m) && Reversible(m) && FeedsWholeBytes(m, s) && Undoes(m, s)
    requires AppendsAlways(m, s) && (forall x :: m.add(x, x) == s.zero) && |u| == |v| <= 4
    requires Register(m, s.word, c, u + after) == Register(m, s.word, c, v + after)
    ensures u == v
  {
    RegisterConcat(m, s.word, c, u, after);
    RegisterConcat(m, s.word, c, v, after);
    RegisterIsInjective(m, s, Register(m, s.word, c, u), Register(m, s.word, c, v), after);
    AgreementDeterminesDifference(m, s, c, u, c, v);
    DifferenceIsFaithful(m, s, u, v);
  }
}

/** The PNG checksum of the icon generator: the table-driven loop computes the
    bit-serial register of section 3.4 of RFC 2083, and every change confined to
    four consecutive bytes changes the checksum. */
module Crc32 {
  import opened LinearRegister

  const POLYNOMIAL: bv32 := 0xedb8_8320
  const ONES: bv32 := 0xffff_ffff

  /** One clock of the (reflected) shift register. */
  function Shift(c: bv32): bv32 {
    if c & 1 == 1 then POLYNOMIAL ^ (c >> 1) else c >> 1
  }

  function Xor(x: bv32, y: bv32): bv32 { x ^ y }

  function LowBit(x: bv32): bv32 { x & 1 }

  function Half(x: bv32): bv32 { x >> 1 }

  function Widen(b: bv8): bv32 { b as bv32 }

  const MACHINE: Machine<bv32> := Machine(Xor, Shift, LowBit, Half)

  /** The specification: preset to all ones, feed every byte from its least to its most
      significant bit, take the ones complement. */
  function BitSerialCrc(message: seq<bv8>): bv32 {
    Register(MACHINE, Widen, ONES, message) ^ ONES
  }

  // ---- The bit vectors satisfy the laws ----

  lemma XorAssociates(x: bv32, y: bv32, z: bv32)
    ensures Xor(Xor(x, y), z) == Xor(x, Xor(y, z))
  {}

  lemma XorCommutes(x: bv32, y: bv32)
    ensures Xor(x, y) == Xor(y, x)
  {}

  lemma XorCancels(x: bv32, y: bv32)
    ensures Xor(x, Xor(x, y)) == y
  {}

  lemma XorZero(x: bv32)
    ensures Xor(x, 0) == x && Xor(x, x) == 0
  {}

  lemma XorIsGroup()
    ensures Group(Xor)
  {
    forall x, y, z ensures Xor(Xor(x, y), z) == Xor(x, Xor(y, z)) { XorAssociates(x, y, z); }
    forall x, y ensures Xor(x, y) == Xor(y, x) { XorCommutes(x, y); }
    forall x, y ensures Xor(x, Xor(x, y)) == y { XorCancels(x, y); }
  }

  lemma XorLow(x: bv32, y: bv32)
    ensures (x ^ y) & 1 == (x & 1) ^ (y & 1)
  {}

  lemma XorHalf(x: bv32, y: bv32)
    ensures (x ^ y) >> 1 == (x >> 1) ^ (y >> 1)
  {}

  lemma XorRearrange(p: bv32, a: bv32, b: bv32)
    ensures p ^ (a ^ b) == (p ^ a) ^ b == a ^ (p ^ b)
    ensures a ^ b == (p ^ a) ^ (p ^ b)
  {}

  lemma LowBitValues(x: bv32)
    ensures x & 1 == 0 || x & 1 == 1
  {}

  lemma ShiftDistributes(x: bv32, y: bv32)
    ensures Shift(x ^ y) == Shift(x) ^ Shift(y)
  {
    XorLow(x, y);
    XorHalf(x, y);
    LowBitValues(x);
    LowBitValues(y);
    XorRearrange(POLYNOMIAL, x >> 1, y >> 1);
  }

  lemma ShiftIsInjective(x: bv32, y: bv32)
    requires Shift(x) == Shift(y)
    ensures x == y
  {}

  lemma XorIsInjective(x: bv32, y: bv32, z: bv32)
    requires Xor(x, z) == Xor(y, z)
    ensures x == y
  {}

  lemma ClockIsAdditive()
    ensures Additive(MACHINE)
  {
    forall x, y ensures Shift(Xor(x, y)) == Xor(Shift(x), Shift(y)) { ShiftDistributes(x, y); }
  }

  lemma ClockIsReversible()
    ensures Reversible(MACHINE)
  {
    forall x, y | Shift(x) == Shift(y) ensures x == y { ShiftIsInjective(x, y); }
    forall x, y, z | Xor(x, z) == Xor(y, z) ensures x == y { XorIsInjective(x, y, z); }
  }

  function Even(x: bv32): bv32 { x & 0xffff_fffe }

  lemma SplitLowBit(c: bv32, bits: bv32)
    ensures Xor(c, bits) == Xor(Xor(c, LowBit(bits)), Even(bits))
  {}

  lemma ShiftEven(bits: bv32)
    ensures Shift(Even(bits)) == Half(bits)
  {}

  lemma ClockSplitsLowBit()
    ensures SplitsLowBit(MACHINE)
  {
    ClockIsAdditive();
    forall c, bits ensures Shift(Xor(c, bits)) == Xor(Shift(Xor(c, LowBit(bits))), Half(bits)) {
      SplitLowBit(c, bits);
      ShiftEven(bits);
      assert Shift(Xor(Xor(c, LowBit(bits)), Even(bits))) == Xor(Shift(Xor(c, LowBit(bits))), Shift(Even(bits)));
    }
  }

  lemma ByteShiftedOut(b: bv8)
    ensures Half(Half(Half(Half(Half(Half(Half(Half(Widen(b))))))))) == 0
  {}

  lemma HalvedFour<T>(m: Machine<T>, x: T, n: nat)
    ensures Halved(m, x, n + 4) == Halved(m, m.half(m.half(m.half(m.half(x)))), n)
  {
    assert Halved(m, x, n + 4) == Halved(m, m.half(x), n + 3);
    assert Halved(m, m.half(x), n + 3) == Halved(m, m.half(m.half(x)), n + 2);
    assert Halved(m, m.half(m.half(x)), n + 2) == Halved(m, m.half(m.half(m.half(x))), n + 1);
  }

  lemma ByteHalved(b: bv8)
    ensures Halved(MACHINE, Widen(b), 8) == 0
  {
    HalvedFour(MACHINE, Widen(b), 4);
    HalvedFour(MACHINE, Half(Half(Half(Half(Widen(b))))), 0);
    ByteShiftedOut(b);
  }

  lemma FeedByte(c: bv32, b: bv8)
    ensures FeedBits(MACHINE, c, Widen(b), 8) == Iter(Shift, Xor(c, Widen(b)), 8)
  {
    ClockSplitsLowBit();
    ByteHalved(b);
    forall x ensures Xor(x, 0) == x { XorZero(x); }
    FeedBitsAddsThenClocks(MACHINE, c, Widen(b), 8);
  }

  function Down(x: bv32): bv32 { x >> 8 }

  function HighPart(x: bv32): bv32 { x & 0xffff_ff00 }

  function LowByte(x: bv32): bv32 { x & 0xff }

  lemma ShiftOfEven(y: bv32)
    requires LowBit(y) == 0
    ensures Shift(y) == Half(y)
  {}

  lemma HighPartBits(x: bv32)
    ensures LowBit(HighPart(x)) == 0 && LowBit(Half(HighPart(x))) == 0
    ensures LowBit(Half(Half(HighPart(x)))) == 0 && LowBit(Half(Half(Half(HighPart(x))))) == 0
  {}

  lemma HighPartLaterBits(x: bv32)
    ensures LowBit(Half(Half(Half(Half(HighPart(x)))))) == 0
    ensures LowBit(Half(Half(Half(Half(Half(HighPart(x))))))) == 0
    ensures LowBit(Half(Half(Half(Half(Half(Half(HighPart(x)))))))) == 0
    ensures LowBit(Half(Half(Half(Half(Half(Half(Half(HighPart(x))))))))) == 0
  {}

  lemma HighPartShiftedOut(x: bv32)
    ensures Half(Half(Half(Half(Half(Half(Half(Half(HighPart(x))))))))) == Down(x)
  {}

  lemma EightClocksOfHighBits(x: bv32)
    ensures Iter(Shift, HighPart(x), 8) == Down(x)
  {
    var a := HighPart(x);
    var b := Half(a); var c := Half(b); var d := Half(c); var e := Half(d);
    var g := Half(e); var h := Half(g); var i := Half(h);
    HighPartBits(x);
    HighPartLaterBits(x);
    HighPartShiftedOut(x);
    ShiftOfEven(a); ShiftOfEven(b); ShiftOfEven(c); ShiftOfEven(d);
    ShiftOfEven(e); ShiftOfEven(g); ShiftOfEven(h); ShiftOfEven(i);
    IterEight(Shift, a, b, c, d, e, g, h, i, Down(x));
  }

  lemma IterEight<T>(f: T -> T, a: T, b: T, c: T, d: T, e: T, g: T, h: T, i: T, j: T)
    requires f(a) == b && f(b) == c && f(c) == d && f(d) == e
    requires f(e) == g && f(g) == h && f(h) == i && f(i) == j
    ensures Iter(f, a, 8) == j
  {
    assert Iter(f, a, 2) == c;
    assert Iter(f, a, 4) == e;
    assert Iter(f, a, 6) == h;
  }

  // ---- Which checksum it is ----

  /** The coefficient of the power `e`, in the reflected order of bits. */
  function Term(e: nat): bv32
    requires e < 32
  {
    (1 as bv32) << (31 - e)
  }

  /** The generator polynomial of section 3.4 of RFC 2083, less its highest power. */
  lemma PolynomialHasTheseTerms()
    ensures POLYNOMIAL == Term(26) | Term(23) | Term(22) | Term(16) | Term(12) | Term(11) | Term(10) | Term(8)
                        | Term(7) | Term(5) | Term(4) | Term(2) | Term(1) | Term(0)
  {}

  /** One byte of a message, from one register value to the next. */
  lemma ByteLeadsTo(c: bv32, b: bv8, next: bv32)
    requires Shift(Shift(Shift(Shift(Shift(Shift(Shift(Shift(c ^ Widen(b))))))))) == next
    ensures FeedBits(MACHINE, c, Widen(b), 8) == next
  {
    var x := c ^ Widen(b);
    var y := Shift(Shift(Shift(Shift(x))));
    FeedByte(c, b);
    IterEight(Shift, x, Shift(x), Shift(Shift(x)), Shift(Shift(Shift(x))), y, Shift(y), Shift(Shift(y)),
              Shift(Shift(Shift(y))), next);
  }

  /** The register after a byte `b` that leads from `c` to `next`, and after the rest. */
  lemma OneByteFed(c: bv32, b: bv8, rest: seq<bv8>, next: bv32, last: bv32)
    requires FeedBits(MACHINE, c, Widen(b), 8) == next && Register(MACHINE, Widen, next, rest) == last
    ensures Register(MACHINE, Widen, c, [b] + rest) == last
  {
    assert ([b] + rest)[1..] == rest;
  }

  /** The register while the digits 1 to 9 go by. */
  const REGISTERS: seq<bv32> := [
    0xffff_ffff, 0x7c23_1048, 0xb0ac_bb32, 0x77b7_9c2d, 0x641c_1f5c,
    0x340a_c5e3, 0xf68d_2c9e, 0xaffc_9660, 0x651f_2550, 0x340b_c6d9]

  const DIGITS: seq<bv8> := [0x31, 0x32, 0x33, 0x34, 0x35, 0x36, 0x37, 0x38, 0x39]

  lemma DigitLeadsOn(i: nat)
    requires i < 9
    ensures FeedBits(MACHINE, REGISTERS[i], Widen(DIGITS[i]), 8) == REGISTERS[i + 1]
  {
    ByteLeadsTo(REGISTERS[i], DIGITS[i], REGISTERS[i + 1]);
  }

  lemma {:induction false} DigitsLeadOn(i: nat)
    requires i <= 9
    ensures Register(MACHINE, Widen, REGISTERS[i], DIGITS[i..]) == REGISTERS[9]
    decreases 9 - i
  {
    if i < 9 {
      DigitsLeadOn(i + 1);
      DigitLeadsOn(i);
      OneByteFed(REGISTERS[i], DIGITS[i], DIGITS[i + 1..], REGISTERS[i + 1], REGISTERS[9]);
      assert DIGITS[i..] == [DIGITS[i]] + DIGITS[i + 1..];
    }
  }

  /** The checksum of the digits 1 to 9 is the one by which this checksum is known. */
  lemma CheckValue()
    ensures BitSerialCrc([0x31, 0x32, 0x33, 0x34, 0x35, 0x36, 0x37, 0x38, 0x39]) == 0xcbf4_3926
  {
    DigitsLeadOn(0);
    assert DIGITS[0..] == DIGITS;
  }

  // ---- The table-driven form ----

  lemma SplitLowByte(c: bv32, b: bv8)
    ensures Xor(c, Widen(b)) == Xor(LowByte(Xor(c, Widen(b))), HighPart(c))
  {}

  /** One table lookup and one shift are eight clocks. */
  lemma LookupIsEightClocks(c: bv32, b: bv8)
    ensures Xor(Iter(Shift, LowByte(Xor(c, Widen(b))), 8), Down(c)) == FeedBits(MACHINE, c, Widen(b), 8)
  {
    SplitLowByte(c, b);
    FeedByte(c, b);
    EightClocksOfHighBits(c);
    ClockIsAdditive();
    IterDistributes(MACHINE, LowByte(Xor(c, Widen(b))), HighPart(c), 8);
  }

  lemma LowByteIsIndex(x: bv32)
    ensures LowByte(x) < 256
  {}

  lemma IndexRoundTrip(y: bv32)
    requires y < 256
    ensures 0 <= y as int < 256
    ensures (y as int) as bv32 == y
  {}

  /** What the table holds for one index. */
  function Entry(k: nat): bv32
    requires k < 256
  {
    Clocked(k as bv32)
  }

  function Clocked(c: bv32): bv32 {
    Iter(Shift, c, BITS)
  }

  const BITS: nat := 8

  ghost predicate IsTable(table: seq<bv32>) {
    |table| == 256 && forall k :: 0 <= k < 256 ==> table[k] == Entry(k)
  }

  lemma EntryAt(table: seq<bv32>, x: bv32)
    requires IsTable(table)
    ensures 0 <= LowByte(x) as int < 256
    ensures table[LowByte(x) as int] == Clocked(LowByte(x))
  {
    LowByteIsIndex(x);
    IndexRoundTrip(LowByte(x));
  }

  method TableEntry(n: bv32) returns (entry: bv32)
    ensures entry == Clocked(n)
  {
    var c := n;
    for k := 0 to BITS
      invariant c == Iter(Shift, n, k)
    {
      c := if c & 1 == 1 then POLYNOMIAL ^ (c >> 1) else c >> 1;
    }
    return c;
  }

  method MakeTable() returns (table: array<bv32>)
    ensures fresh(table) && IsTable(table[..])
  {
    table := new bv32[256];
    for n := 0 to 256
      invariant forall k :: 0 <= k < n ==> table[k] == Entry(k)
    {
      table[n] := TableEntry(n as bv32);
    }
  }

  method FoldByte(table: array<bv32>, crc: bv32, b: bv8) returns (next: bv32)
    requires IsTable(table[..])
    ensures next == FeedBits(MACHINE, crc, Widen(b), 8)
  {
    var x := Xor(crc, Widen(b));
    EntryAt(table[..], x);
    LookupIsEightClocks(crc, b);
    next := Xor(table[LowByte(x) as int], Down(crc));
  }

  lemma RegisterSnoc<T>(m: Machine<T>, word: bv8 -> T, c: T, message: seq<bv8>, i: nat)
    requires i < |message|
    ensures Register(m, word, c, message[..i + 1])
         == FeedBits(m, Register(m, word, c, message[..i]), word(message[i]), 8)
  {
    assert message[..i + 1] == message[..i] + [message[i]];
    RegisterConcat(m, word, c, message[..i], [message[i]]);
    assert [message[i]][1..] == [];
  }

  /** The generator's checksum: fill the table, then fold the bytes through it. */
  method Crc(buf: seq<bv8>) returns (crc: bv32)
    ensures crc == BitSerialCrc(buf)
  {
    var table := MakeTable();
    crc := ONES;
    for i := 0 to |buf|
      invariant IsTable(table[..])
      invariant crc == Register(MACHINE, Widen, ONES, buf[..i])
    {
      crc := FoldByte(table, crc, buf[i]);
      RegisterSnoc(MACHINE, Widen, ONES, buf, i);
    }
    assert buf[..|buf|] == buf;
    crc := crc ^ ONES;
  }

  // ---- What the checksum detects ----

  function Up(w: bv32): bv32 { w << 8 }

  predicate Below(w: bv32, bytes: nat) {
    match bytes
    case 0 => w == 0
    case 1 => w < 0x100
    case 2 => w < 0x1_0000
    case 3 => w < 0x100_0000
    case _ => true
  }

  const WINDOW: Window<bv32> := Window(Widen, 0, Up, Below)

  lemma BelowThree(w: bv32, bytes: nat)
    requires bytes < 4 && Below(w, bytes)
    ensures w < 0x100_0000
  {}

  lemma AppendByte(w: bv32, a: bv8, b: bv8)
    requires w < 0x100_0000
    ensures (w << 8) ^ ((a as bv32) ^ (b as bv32)) == 0 ==> w == 0 && a == b
    ensures w == 0 ==> (w << 8) ^ ((a as bv32) ^ (b as bv32)) < 0x100
    ensures w < 0x100 ==> (w << 8) ^ ((a as bv32) ^ (b as bv32)) < 0x1_0000
    ensures w < 0x1_0000 ==> (w << 8) ^ ((a as bv32) ^ (b as bv32)) < 0x100_0000
  {}

  lemma WordShiftedUp(w: bv32)
    requires w < 0x100_0000
    ensures HighPart(Up(w)) == Up(w) && Down(Up(w)) == w
  {}

  lemma BytesAppend(w: bv32, k: nat, a: bv8, b: bv8)
    requires k < 4 && Below(w, k)
    ensures Appends(MACHINE, WINDOW, w, k, a, b)
  {
    BelowThree(w, k);
    AppendByte(w, a, b);
  }

  lemma WindowUndone(w: bv32, k: nat)
    requires k < 4 && Below(w, k)
    ensures Iter(Shift, Up(w), 8) == w
  {
    BelowThree(w, k);
    WordShiftedUp(w);
    EightClocksOfHighBits(Up(w));
  }

  lemma BytesFormWindows()
    ensures FeedsWholeBytes(MACHINE, WINDOW) && Undoes(MACHINE, WINDOW) && AppendsAlways(MACHINE, WINDOW)
  {
    forall c, b ensures FeedBits(MACHINE, c, Widen(b), 8) == Iter(Shift, Xor(c, Widen(b)), 8) {
      FeedByte(c, b);
    }
    forall w, k: nat | k < 4 && Below(w, k) ensures Iter(Shift, Up(w), 8) == w {
      WindowUndone(w, k);
    }
    forall w, k: nat, a, b | k < 4 && Below(w, k) ensures Appends(MACHINE, WINDOW, w, k, a, b) {
      BytesAppend(w, k, a, b);
    }
  }

  lemma ComplementIsInjective(x: bv32, y: bv32)
    ensures x ^ ONES == y ^ ONES ==> x == y
  {}

  /** Messages that differ only inside one window of at most four bytes have equal
      checksums exactly when they are equal. */
  lemma BurstDetected(before: seq<bv8>, u: seq<bv8>, v: seq<bv8>, after: seq<bv8>)
    requires |u| == |v| <= 4
    ensures BitSerialCrc(before + (u + after)) == BitSerialCrc(before + (v + after)) <==> u == v
  {
    if BitSerialCrc(before + (u + after)) == BitSerialCrc(before + (v + after)) {
      ComplementIsInjective(Register(MACHINE, Widen, ONES, before + (u + after)),
                            Register(MACHINE, Widen, ONES, before + (v + after)));
      RegisterConcat(MACHINE, Widen, ONES, before, u + after);
      RegisterConcat(MACHINE, Widen, ONES, before, v + after);
      XorIsGroup();
      ClockIsAdditive();
      ClockIsReversible();
      BytesFormWindows();
      forall x ensures Xor(x, x) == 0 { XorZero(x); }
      WindowDetermined(MACHINE, WINDOW, Register(MACHINE, Widen, ONES, before), u, v, after);
    }
  }
}
