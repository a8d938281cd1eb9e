/** The shift register of the Modbus CRC-16, fed one bit at a time: linear, injective, and with
    certain traces for bursts and for odd numbers of bits. */
module CrcRegister {

  /** Exclusive or, by name: the solver rewrites under a name, not under a bit operator. */
  function Xor(a: bv16, b: bv16): bv16 { a ^ b }

  function Shift(c: bv16): bv16 {
    if c & 1 != 0 then (c >> 1) ^ 0xA001 else c >> 1
  }

  function Shifts(c: bv16, n: nat): bv16
    decreases n
  {
    if n == 0 then c else Shifts(Shift(c), n - 1)
  }

  lemma XorIs(a: bv16, b: bv16)
    ensures Xor(a, b) == a ^ b
  {
  }

  // ---------- Linear ----------

  lemma LinearEvenEven(a: bv16, b: bv16)
    requires a & 1 == 0 && b & 1 == 0
    ensures Shift(Xor(a, b)) == Xor(Shift(a), Shift(b))
  {
  }

  lemma LinearEvenOdd(a: bv16, b: bv16)
    requires a & 1 == 0 && b & 1 != 0
    ensures Shift(Xor(a, b)) == Xor(Shift(a), Shift(b))
    ensures Shift(Xor(b, a)) == Xor(Shift(b), Shift(a))
  {
  }

  lemma LinearOddOdd(a: bv16, b: bv16)
    requires a & 1 != 0 && b & 1 != 0
    ensures Shift(Xor(a, b)) == Xor(Shift(a), Shift(b))
  {
  }

  lemma ShiftLinear(a: bv16, b: bv16)
    ensures Shift(Xor(a, b)) == Xor(Shift(a), Shift(b))
  {
    hide Shift, Xor;
    if a & 1 == 0 && b & 1 == 0 { LinearEvenEven(a, b); }
    else if a & 1 == 0 { LinearEvenOdd(a, b); }
    else if b & 1 == 0 { LinearEvenOdd(b, a); }
    else { LinearOddOdd(a, b); }
  }

  lemma {:induction false} ShiftsLinear(a: bv16, b: bv16, n: nat)
    ensures Shifts(Xor(a, b), n) == Xor(Shifts(a, n), Shifts(b, n))
    decreases n
  {
    hide Shift, Xor;
    if n > 0 {
      ShiftLinear(a, b);
      ShiftsLinear(Shift(a), Shift(b), n - 1);
    }
  }

  lemma XorComm(a: bv16, b: bv16)
    ensures Xor(a, b) == Xor(b, a)
  {
  }

  lemma XorAssoc(a: bv16, b: bv16, c: bv16)
    ensures Xor(Xor(a, b), c) == Xor(a, Xor(b, c))
  {
  }

  lemma XorSelf(a: bv16, b: bv16)
    ensures Xor(Xor(a, b), b) == a && Xor(a, a) == 0
  {
  }

  lemma XorZero(c: bv16)
    ensures Xor(0, c) == c && Xor(c, 0) == c
  {
  }

  lemma XorSwap(a: bv16, b: bv16, c: bv16, d: bv16)
    ensures Xor(Xor(a, b), Xor(c, d)) == Xor(Xor(a, c), Xor(b, d))
  {
    hide Xor;
    XorAssoc(a, b, Xor(c, d)); XorAssoc(b, c, d); XorComm(b, c);
    XorAssoc(c, b, d); XorAssoc(a, c, Xor(b, d));
  }

  // ---------- Injective ----------

  /** The register's own inverse step: the polynomial's top bit tells which branch was taken. */
  function Unshift(c: bv16): bv16 {
    if c & 0x8000 != 0 then ((c ^ 0xA001) << 1) | 1 else c << 1
  }

  lemma UnshiftShift(c: bv16)
    ensures Unshift(Shift(c)) == c
  {
  }

  lemma ShiftUnshiftClear(c: bv16)
    requires c & 0x8000 == 0
    ensures Shift(Unshift(c)) == c
  {
  }

  lemma {:induction false} ShiftsInjective(a: bv16, b: bv16, n: nat)
    requires Shifts(a, n) == Shifts(b, n)
    ensures a == b
    decreases n
  {
    hide Shift, Unshift;
    if n > 0 {
      ShiftsInjective(Shift(a), Shift(b), n - 1);
      UnshiftShift(a); UnshiftShift(b);
    }
  }

  lemma {:induction false} ZeroShifts(n: nat)
    ensures Shifts(0, n) == 0
  {
    if n > 0 {
      assert Shift(0) == 0;
      ZeroShifts(n - 1);
    }
  }

  // ---------- Bit by bit ----------

  type Bits = seq<bool>

  function Bit(b: bool): bv16 { if b then 1 else 0 }

  function FeedBit(c: bv16, b: bool): bv16 { Shift(Xor(c, Bit(b))) }

  /** The register fed one bit at a time. */
  function Stream(c: bv16, bits: Bits): bv16
    decreases |bits|
  {
    if bits == [] then c else Stream(FeedBit(c, bits[0]), bits[1..])
  }

  function LowBits(x: bv16, n: nat): (r: Bits)
    ensures |r| == n
    decreases n
  {
    if n == 0 then [] else [x & 1 != 0] + LowBits(x >> 1, n - 1)
  }

  function Dropped(x: bv16, n: nat): bv16
    decreases n
  {
    if n == 0 then x else Dropped(x >> 1, n - 1)
  }

  lemma SplitBit(x: bv16)
    ensures Xor(Bit(x & 1 != 0), x & 0xFFFE) == x
  {
  }

  lemma RestShifts(x: bv16)
    ensures Shift(x & 0xFFFE) == x >> 1
  {
  }

  lemma PeelBit(c: bv16, x: bv16)
    ensures Shift(Xor(c, x)) == Xor(FeedBit(c, x & 1 != 0), x >> 1)
  {
    hide Xor, Shift;
    var low, rest := Bit(x & 1 != 0), x & 0xFFFE;
    SplitBit(x);
    XorAssoc(c, low, rest);
    ShiftLinear(Xor(c, low), rest);
    RestShifts(x);
  }

  /** Adding a word at once and shifting is feeding its bits one by one. */
  lemma {:induction false} WordIsBits(c: bv16, x: bv16, n: nat)
    ensures Shifts(Xor(c, x), n) == Xor(Stream(c, LowBits(x, n)), Dropped(x, n))
    decreases n
  {
    hide Shift, Xor, FeedBit;
    if n > 0 {
      PeelBit(c, x);
      WordIsBits(FeedBit(c, x & 1 != 0), x >> 1, n - 1);
    }
  }

  lemma {:induction false} StreamConcat(c: bv16, a: Bits, b: Bits)
    ensures Stream(c, a + b) == Stream(Stream(c, a), b)
    decreases |a|
  {
    hide FeedBit;
    if a == [] {
      assert a + b == b;
    } else {
      assert (a + b)[1..] == a[1..] + b;
      StreamConcat(FeedBit(c, a[0]), a[1..], b);
    }
  }

  // ---------- Bursts ----------

  ghost predicate NoneSet(bits: Bits) { forall k :: 0 <= k < |bits| ==> !bits[k] }

  lemma {:induction false} QuietStream(c: bv16, bits: Bits)
    requires NoneSet(bits)
    ensures Stream(c, bits) == Shifts(c, |bits|)
    decreases |bits|
  {
    if bits != [] {
      hide Shift, Xor;
      XorZero(c);
      QuietStream(Shift(c), bits[1..]);
    }
  }

  /** The first bits of a stream read back as a word. */
  function Word(bits: Bits): bv16
    decreases |bits|
  {
    if bits == [] then 0 else Pack(Word(bits[1..]), bits[0])
  }

  function Pack(rest: bv16, b: bool): bv16 { (rest << 1) | Bit(b) }

  /** The bits of weight 2ⁿ and up. */
  function Mask(n: nat): bv16 { if n == 0 then 0xFFFF else Up(Mask(n - 1)) }

  function Up(m: bv16): bv16 { m << 1 }

  predicate Fits(u: bv16, m: bv16) { u & m == 0 }

  lemma PackFits(u: bv16, m: bv16, b: bool)
    requires Fits(u, m)
    ensures Fits(Pack(u, b), Up(m))
  {
  }

  lemma {:induction false} WordFits(bits: Bits)
    ensures Fits(Word(bits), Mask(|bits|))
    decreases |bits|
  {
    if bits != [] {
      hide Pack, Up, Fits;
      WordFits(bits[1..]);
      PackFits(Word(bits[1..]), Mask(|bits| - 1), bits[0]);
    } else {
      assert (0 as bv16) & 0xFFFF == 0;
    }
  }

  predicate TopClear(u: bv16) { u & 0x8000 == 0 }

  lemma TopBitMasked(n: nat)
    requires n <= 15
    ensures !TopClear(Mask(n))
  {
    assert Mask(4) == 0xFFF0;
    assert Mask(8) == 0xFF00;
    assert Mask(12) == 0xF000;
  }

  lemma TopBitClear(u: bv16, m: bv16)
    requires Fits(u, m) && !TopClear(m)
    ensures TopClear(u)
  {
  }

  lemma FeedUndone(c: bv16, b: bool, u: bv16)
    requires TopClear(u)
    ensures FeedBit(c, b) == u <==> c == Pack(u, b)
  {
    hide Shift, Xor, Pack;
    var x := Xor(c, Bit(b));
    assert Unshift(u) == u << 1;
    UnshiftShift(x);
    ShiftUnshiftClear(u);
    PackIsXor(u, b);
    XorSelf(c, Bit(b));
    XorSelf(u << 1, Bit(b));
  }

  lemma PackIsXor(u: bv16, b: bool)
    ensures Pack(u, b) == Xor(u << 1, Bit(b))
  {
    if b { assert (u << 1) | 1 == (u << 1) ^ 1; } else { assert (u << 1) | 0 == (u << 1) ^ 0; }
  }

  /** Up to sixteen bits empty the register exactly when it held those very bits. */
  lemma {:induction false} EmptiedByOwnBits(c: bv16, bits: Bits)
    requires |bits| <= 16
    ensures Stream(c, bits) == 0 <==> c == Word(bits)
    decreases |bits|
  {
    if bits != [] {
      hide Shift, Xor, Pack, FeedBit, Fits, TopClear, Mask;
      EmptiedByOwnBits(FeedBit(c, bits[0]), bits[1..]);
      ShortWordTopClear(bits[1..]);
      FeedUndone(c, bits[0], Word(bits[1..]));
    }
  }

  lemma ShortWordTopClear(bits: Bits)
    requires |bits| <= 15
    ensures TopClear(Word(bits))
  {
    hide Word, Fits, TopClear, Mask;
    WordFits(bits);
    TopBitMasked(|bits|);
    TopBitClear(Word(bits), Mask(|bits|));
  }

  lemma PackZero(u: bv16, b: bool)
    requires Pack(u, b) == 0 && TopClear(u)
    ensures u == 0 && !b
  {
  }

  lemma {:induction false} WordZero(bits: Bits)
    requires |bits| <= 16 && Word(bits) == 0
    ensures NoneSet(bits)
    decreases |bits|
  {
    if bits != [] {
      hide Pack, Fits, TopClear, Mask;
      var rest := bits[1..];
      ShortWordTopClear(rest);
      PackZero(Word(rest), bits[0]);
      WordZero(rest);
    }
  }

  /** All set bits lie within sixteen consecutive ones from p on, and there is one. */
  ghost predicate Burst(bits: Bits, p: nat) {
    && (forall k :: 0 <= k < |bits| && bits[k] ==> p <= k < p + 16)
    && exists k :: 0 <= k < |bits| && bits[k]
  }

  /** Nothing set keeps an empty register empty and a full one full. */
  lemma QuietKeeps(c: bv16, bits: Bits)
    requires NoneSet(bits)
    ensures Stream(c, bits) == 0 <==> c == 0
  {
    hide Stream, Shifts;
    QuietStream(c, bits);
    ZeroShifts(|bits|);
    if Shifts(c, |bits|) == 0 { ShiftsInjective(c, 0, |bits|); }
  }

  lemma QuietThenWindow(a: Bits, w: Bits, z: Bits)
    requires NoneSet(a) && NoneSet(z) && |w| <= 16 && !NoneSet(w)
    ensures Stream(0, a + (w + z)) != 0
  {
    hide Stream, Word, NoneSet;
    StreamConcat(0, a, w + z);
    StreamConcat(Stream(0, a), w, z);
    QuietKeeps(0, a);
    QuietKeeps(Stream(0, w), z);
    EmptiedByOwnBits(0, w);
    if Word(w) == 0 { WordZero(w); }
  }

  lemma BurstLeavesTrace(bits: Bits, p: nat)
    requires Burst(bits, p)
    ensures Stream(0, bits) != 0
  {
    hide Stream;
    var k :| 0 <= k < |bits| && bits[k];
    var q := if p + 16 <= |bits| then p + 16 else |bits|;
    var a, w, z := bits[..p], bits[p..q], bits[q..];
    assert w[k - p];
    QuietThenWindow(a, w, z);
    assert bits == a + (w + z);
  }

  // ---------- Odd errors ----------

  /** The parity of the lowest n bits. */
  function LowParity(c: bv16, n: nat): bool
    decreases n
  {
    if n == 0 then false else (c & 1 != 0) != LowParity(c >> 1, n - 1)
  }

  function Parity(c: bv16): bool { LowParity(c, 16) }

  lemma XorLowBit(a: bv16, b: bv16)
    ensures (Xor(a, b) & 1 != 0) == ((a & 1 != 0) != (b & 1 != 0))
  {
  }

  lemma XorHalf(a: bv16, b: bv16)
    ensures Xor(a, b) >> 1 == Xor(a >> 1, b >> 1)
  {
    hide Xor;
    XorIs(a, b);
    XorIs(a >> 1, b >> 1);
    assert (a ^ b) >> 1 == (a >> 1) ^ (b >> 1);
  }

  lemma {:induction false} XorParity(a: bv16, b: bv16, n: nat)
    ensures LowParity(Xor(a, b), n) == (LowParity(a, n) != LowParity(b, n))
    decreases n
  {
    hide Xor;
    if n > 0 {
      XorLowBit(a, b); XorHalf(a, b);
      XorParity(a >> 1, b >> 1, n - 1);
    }
  }

  lemma {:induction false} NothingAbove(c: bv16, n: nat)
    requires Dropped(c, n) == 0
    ensures LowParity(c, n + 1) == LowParity(c, n)
    decreases n
  {
    if n == 0 {
      assert LowParity(c, 1) == ((c & 1 != 0) != LowParity(c >> 1, 0));
    } else {
      NothingAbove(c >> 1, n - 1);
    }
  }

  lemma DropFour(x: bv16, y: bv16, n: nat)
    requires n >= 4 && y == x >> 4
    ensures Dropped(x, n) == Dropped(y, n - 4)
  {
    assert Dropped(x, n) == Dropped(x >> 1, n - 1) == Dropped((x >> 1) >> 1, n - 2);
    assert (x >> 1) >> 1 == x >> 2;
    assert Dropped(x >> 2, n - 2) == Dropped((x >> 2) >> 1, n - 3) == Dropped(((x >> 2) >> 1) >> 1, n - 4);
    assert ((x >> 2) >> 1) >> 1 == y;
  }

  lemma HalfDropped(c: bv16)
    ensures Dropped(c >> 1, 15) == 0
  {
    var x := c >> 1;
    var x1 := x >> 4;
    var x2 := x1 >> 4;
    var x3 := x2 >> 4;
    DropFour(x, x1, 15); DropFour(x1, x2, 11); DropFour(x2, x3, 7);
    hide Dropped;
    DropThree(x3);
    NothingLeft(c);
  }

  lemma DropThree(x: bv16)
    ensures Dropped(x, 3) == ((x >> 1) >> 1) >> 1
  {
    assert Dropped(x, 3) == Dropped(x >> 1, 2) == Dropped((x >> 1) >> 1, 1);
  }

  lemma NothingLeft(c: bv16)
    ensures (((((((c >> 1) >> 4) >> 4) >> 4) >> 1) >> 1) >> 1) == 0
  {
  }

  lemma HalfParity(c: bv16)
    ensures Parity(c >> 1) == (Parity(c) != (c & 1 != 0))
  {
    HalfDropped(c);
    NothingAbove(c >> 1, 15);
  }

  lemma {:induction false} ZeroParity(n: nat)
    ensures !LowParity(0, n)
    decreases n
  {
    if n > 0 {
      assert (0 as bv16) >> 1 == 0 && (0 as bv16) & 1 == 0;
      ZeroParity(n - 1);
    }
  }

  /** The feedback has an odd number of taps. */
  lemma TapsParity()
    ensures Parity(0xA001)
  {
  }

  lemma BitParity(b: bool)
    ensures Parity(Bit(b)) == b
  {
    HalfParity(0x0001);
    ZeroParity(16);
  }

  function OddOnes(bits: Bits): bool
    decreases |bits|
  {
    if bits == [] then false else bits[0] != OddOnes(bits[1..])
  }

  lemma ShiftIs(c: bv16)
    ensures Shift(c) == if c & 1 != 0 then Xor(c >> 1, 0xA001) else c >> 1
  {
  }

  /** So shifting keeps the parity. */
  lemma ShiftParity(c: bv16)
    ensures Parity(Shift(c)) == Parity(c)
  {
    hide LowParity, Xor, Shift;
    ShiftIs(c);
    HalfParity(c);
    TapsParity();
    XorParity(c >> 1, 0xA001, 16);
  }

  lemma FeedBitParity(c: bv16, b: bool)
    ensures Parity(FeedBit(c, b)) == (Parity(c) != b)
  {
    hide LowParity, Shift, Xor;
    ShiftParity(Xor(c, Bit(b)));
    XorParity(c, Bit(b), 16);
    BitParity(b);
  }

  lemma {:induction false} StreamParity(c: bv16, bits: Bits)
    ensures Parity(Stream(c, bits)) == (Parity(c) != OddOnes(bits))
    decreases |bits|
  {
    if bits != [] {
      hide Parity, FeedBit, LowParity;
      FeedBitParity(c, bits[0]);
      StreamParity(FeedBit(c, bits[0]), bits[1..]);
    }
  }
}
