/** The bitwise CRC-16 of Modbus RTU (MODBUS over Serial Line V1.02, section 6.2.2) and the
    transmission errors it is certain to catch. */
module ModbusCrc {
  import opened CrcRegister

  type Byte = bv8
  type Frame = seq<Byte>

  // ---------- The register ----------

  function XorByte(a: Byte, b: Byte): Byte { a ^ b }

  /** One byte fed into the register. */
  function Feed(c: bv16, b: Byte): bv16 { Shifts(Xor(c, b as bv16), 8) }

  function Register(start: bv16, data: Frame): bv16
    decreases |data|
  {
    if data == [] then start else Feed(Register(start, data[..|data| - 1]), data[|data| - 1])
  }

  function Crc(data: Frame): bv16 { Register(0xFFFF, data) }

  /** The byte loop around the bit loop. */
  method CalculateCrc(data: Frame) returns (crc: bv16)
    ensures crc == Crc(data)
  {
    hide Xor, Shift, Register;
    crc := 0xFFFF;
    assert Register(0xFFFF, data[..0]) == 0xFFFF by { RegisterEmpty(0xFFFF); }
    for k := 0 to |data|
      invariant crc == Register(0xFFFF, data[..k])
    {
      ghost var start := Xor(crc, data[k] as bv16);
      RegisterSnoc(0xFFFF, data, k);
      XorIs(crc, data[k] as bv16);
      crc := crc ^ (data[k] as bv16);
      for i := 0 to 8
        invariant Shifts(crc, 8 - i) == Shifts(start, 8)
      {
        ShiftBranches(crc);
        if crc & 0x0001 != 0 {
          crc := crc >> 1;
          crc := crc ^ 0xA001;
        } else {
          crc := crc >> 1;
        }
      }
    }
    assert data[..|data|] == data;
  }

  lemma ShiftBranches(c: bv16)
    ensures Shift(c) == if c & 0x0001 != 0 then (c >> 1) ^ 0xA001 else c >> 1
  {
  }

  lemma RegisterEmpty(c: bv16)
    ensures Register(c, []) == c
  {
  }

  lemma RegisterSnoc(c: bv16, data: Frame, k: nat)
    requires k < |data|
    ensures Register(c, data[..k + 1]) == Feed(Register(c, data[..k]), data[k])
  {
    assert data[..k + 1][..k] == data[..k];
  }

  lemma ByteXor(a: Byte, b: Byte)
    ensures Xor(a as bv16, b as bv16) == XorByte(a, b) as bv16
  {
  }

  lemma FeedLinear(c: bv16, d: bv16, a: Byte, b: Byte)
    ensures Feed(Xor(c, d), XorByte(a, b)) == Xor(Feed(c, a), Feed(d, b))
  {
    hide Shifts, Xor, XorByte;
    ByteXor(a, b);
    XorSwap(c, d, a as bv16, b as bv16);
    ShiftsLinear(Xor(c, a as bv16), Xor(d, b as bv16), 8);
  }

  function XorFrame(a: Frame, b: Frame): (r: Frame)
    requires |a| == |b|
    ensures |r| == |a| && forall i :: 0 <= i < |a| ==> r[i] == XorByte(a[i], b[i])
  {
    seq(|a|, i requires 0 <= i < |a| => XorByte(a[i], b[i]))
  }

  /** The register is linear in its start value and its input together. */
  lemma {:induction false} RegisterLinear(c: bv16, d: bv16, a: Frame, b: Frame)
    requires |a| == |b|
    ensures Register(Xor(c, d), XorFrame(a, b)) == Xor(Register(c, a), Register(d, b))
    decreases |a|
  {
    if a != [] {
      hide Feed, Xor, XorByte;
      var n := |a| - 1;
      RegisterLinear(c, d, a[..n], b[..n]);
      assert XorFrame(a, b)[..n] == XorFrame(a[..n], b[..n]);
      FeedLinear(Register(c, a[..n]), Register(d, b[..n]), a[n], b[n]);
    }
  }

  /** Different registers stay different, whatever byte follows. */
  lemma FeedInjective(c: bv16, d: bv16, b: Byte)
    requires Feed(c, b) == Feed(d, b)
    ensures c == d
  {
    hide Shifts, Xor;
    ShiftsInjective(Xor(c, b as bv16), Xor(d, b as bv16), 8);
    XorSelf(c, b as bv16); XorSelf(d, b as bv16);
  }

  // ---------- The value ----------

  lemma {:induction false} RegisterFirst(c: bv16, b: Byte, data: Frame)
    ensures Register(c, [b] + data) == Register(Feed(c, b), data)
    decreases |data|
  {
    hide Feed;
    var all := [b] + data;
    if data == [] {
      assert all[..0] == [];
      RegisterEmpty(c);
    } else {
      var n := |data| - 1;
      RegisterFirst(c, b, data[..n]);
      assert all[..|all| - 1] == [b] + data[..n];
    }
  }

  /** Different registers stay different, whatever bytes follow. */
  lemma {:induction false} RegisterInjective(c: bv16, d: bv16, data: Frame)
    requires Register(c, data) == Register(d, data)
    ensures c == d
    decreases |data|
  {
    if data != [] {
      hide Feed;
      var n := |data| - 1;
      FeedInjective(Register(c, data[..n]), Register(d, data[..n]), data[n]);
      RegisterInjective(c, d, data[..n]);
    }
  }

  /** The register starts with every bit set, and so a zero byte in front is noticed: it changes
      the CRC of every message. */
  lemma LeadingZeroCounts(data: Frame)
    ensures Crc([]) == 0xFFFF
    ensures Crc([0] + data) != Crc(data)
  {
    hide Feed;
    RegisterEmpty(0xFFFF);
    RegisterFirst(0xFFFF, 0, data);
    FeedZero();
    if Crc([0] + data) == Crc(data) { RegisterInjective(Feed(0xFFFF, 0), 0xFFFF, data); }
  }

  lemma FeedZero()
    ensures Feed(0xFFFF, 0) == 0x40BF
  {
    ShiftsAlong([0xFFFF, 0xDFFE, 0x6FFF, 0x97FE, 0x4BFF, 0x85FE, 0x42FF, 0x817E, 0x40BF], 0);
    XorZero(0xFFFF);
  }

  lemma {:induction false} ShiftsAlong(v: seq<bv16>, i: nat)
    requires |v| == 9 && i <= 8 && forall k :: 0 <= k < 8 ==> v[k + 1] == Shift(v[k])
    ensures Shifts(v[i], 8 - i) == v[8]
    decreases 8 - i
  {
    if i < 8 { ShiftsAlong(v, i + 1); }
  }

  /** The worked example of section 6.2.2: device 2, function 7. */
  lemma StandardExample()
    ensures Crc([0x02, 0x07]) == 0x1241
    ensures Sealed([0x02, 0x07]) == [0x02, 0x07, 0x41, 0x12]
  {
    hide Feed;
    var message: Frame := [0x02, 0x07];
    assert message[..1][..0] == [];
    RegisterEmpty(0xFFFF);
    assert Crc(message[..1]) == Feed(0xFFFF, 0x02);
    FeedTwo();
    FeedSeven();
  }

  lemma FeedTwo()
    ensures Feed(0xFFFF, 0x02) == 0x813E
  {
    ShiftsAlong([0xFFFD, 0xDFFF, 0xCFFE, 0x67FF, 0x93FE, 0x49FF, 0x84FE, 0x427F, 0x813E], 0);
    assert Xor(0xFFFF, 0x02) == 0xFFFD;
  }

  lemma FeedSeven()
    ensures Feed(0x813E, 0x07) == 0x1241
  {
    ShiftsAlong([0x8139, 0xE09D, 0xD04F, 0xC826, 0x6413, 0x9208, 0x4904, 0x2482, 0x1241], 0);
    assert Xor(0x813E, 0x07) == 0x8139;
  }

  // ---------- A frame carries its CRC, low byte first ----------

  function Low(c: bv16): Byte { (c & 0xFF) as bv8 }
  function High(c: bv16): Byte { (c >> 8) as bv8 }
  function Joined(lo: Byte, hi: Byte): bv16 { (lo as bv16) | ((hi as bv16) << 8) }

  function Sealed(data: Frame): Frame { data + [Low(Crc(data)), High(Crc(data))] }

  /** The check a received buffer must pass. */
  predicate Accepts(buffer: Frame) {
    var n := |buffer|;
    n >= 2 && Joined(buffer[n - 2], buffer[n - 1]) == Crc(buffer[..n - 2])
  }

  lemma LowByteShiftsOut(c: bv16)
    ensures Feed(c, Low(c)) == c >> 8
  {
  }

  lemma JoinedParts(c: bv16)
    ensures Joined(Low(c), High(c)) == c
    ensures (High(c) as bv16) == c >> 8
    ensures Xor(c >> 8, High(c) as bv16) == 0
  {
  }

  lemma PartsOfJoined(lo: Byte, hi: Byte)
    ensures Low(Joined(lo, hi)) == lo && High(Joined(lo, hi)) == hi
  {
  }

  lemma OwnBytes(c: bv16)
    ensures Feed(Feed(c, Low(c)), High(c)) == 0
  {
    hide Shifts, Xor;
    LowByteShiftsOut(c);
    JoinedParts(c);
    ZeroShifts(8);
  }

  /** Feeding a register its own two bytes empties it, and no other two bytes do. */
  lemma OwnBytesEmpty(c: bv16, lo: Byte, hi: Byte)
    ensures Feed(Feed(c, lo), hi) == 0 <==> Joined(lo, hi) == c
  {
    hide Feed, Joined, Low, High;
    OwnBytes(c);
    if Joined(lo, hi) == c {
      PartsOfJoined(lo, hi);
    }
    if Feed(Feed(c, lo), hi) == 0 {
      var d := Joined(lo, hi);
      PartsOfJoined(lo, hi);
      OwnBytes(d);
      FeedInjective(Feed(c, lo), Feed(d, lo), hi);
      FeedInjective(c, d, lo);
    }
  }

  /** A buffer of at least two bytes is accepted exactly when the register run over all of it,
      its CRC included, ends at zero. */
  lemma AcceptsIffEmpty(buffer: Frame)
    requires |buffer| >= 2
    ensures Accepts(buffer) <==> Crc(buffer) == 0
  {
    hide Feed, Joined;
    var n := |buffer|;
    assert buffer[..n - 1][..n - 2] == buffer[..n - 2];
    assert Crc(buffer) == Feed(Crc(buffer[..n - 1]), buffer[n - 1]);
    assert Crc(buffer[..n - 1]) == Feed(Crc(buffer[..n - 2]), buffer[n - 2]);
    OwnBytesEmpty(Crc(buffer[..n - 2]), buffer[n - 2], buffer[n - 1]);
  }

  /** Every sent frame is accepted, and its CRC, taken over all of it, is zero. */
  lemma SealedAccepted(data: Frame)
    ensures Accepts(Sealed(data)) && Crc(Sealed(data)) == 0
  {
    var n := |Sealed(data)|;
    assert Sealed(data)[..n - 2] == data;
    JoinedParts(Crc(data));
    AcceptsIffEmpty(Sealed(data));
  }

  // ---------- Altered frames ----------

  /** The register an error pattern leaves behind on its own. */
  function Syndrome(e: Frame): bv16 { Register(0, e) }

  /** An altered valid frame is accepted exactly when the error pattern alone leaves nothing in
      the register: the frame itself does not matter. */
  lemma AlteredAcceptedIff(f: Frame, e: Frame)
    requires |f| == |e| && Accepts(f)
    ensures Accepts(XorFrame(f, e)) <==> Syndrome(e) == 0
  {
    hide Accepts, Register, Xor;
    assert |f| >= 2 by { AcceptedLength(f); }
    AcceptsIffEmpty(f);
    AcceptsIffEmpty(XorFrame(f, e));
    RegisterLinear(0xFFFF, 0, f, e);
    XorZero(0xFFFF);
    XorZero(Syndrome(e));
  }

  lemma AcceptedLength(f: Frame)
    requires Accepts(f)
    ensures |f| >= 2
  {
  }

  /** A byte in transmission order, least significant bit first. */
  function BitsOfByte(b: Byte): (r: Bits)
    ensures |r| == 8
  {
    LowBits(b as bv16, 8)
  }

  function BitsOf(data: Frame): (r: Bits)
    ensures |r| == 8 * |data|
    decreases |data|
  {
    if data == [] then [] else BitsOf(data[..|data| - 1]) + BitsOfByte(data[|data| - 1])
  }

  lemma FeedIsBits(c: bv16, b: Byte)
    ensures Feed(c, b) == Stream(c, BitsOfByte(b))
  {
    hide Shifts, Xor, Stream;
    WordIsBits(c, b as bv16, 8);
    ByteDropped(b as bv16);
    XorZero(Stream(c, BitsOfByte(b)));
  }

  lemma ByteDropped(x: bv16)
    requires x < 256
    ensures Dropped(x, 8) == 0
  {
  }

  /** The byte register is the bit register over the bits in transmission order. */
  lemma {:induction false} RegisterIsStream(c: bv16, data: Frame)
    ensures Register(c, data) == Stream(c, BitsOf(data))
    decreases |data|
  {
    if data != [] {
      hide Feed, Stream, BitsOfByte;
      var before := data[..|data| - 1];
      RegisterIsStream(c, before);
      StreamConcat(c, BitsOf(before), BitsOfByte(data[|data| - 1]));
      FeedIsBits(Register(c, before), data[|data| - 1]);
    } else {
      assert Stream(c, []) == c;
    }
  }

  /** The receive check rejects every valid frame, of any length, altered by an error whose wrong
      bits lie within sixteen consecutive transmitted bits, wherever they start. */
  lemma BurstsAreCaught(f: Frame, e: Frame, p: nat)
    requires |f| == |e| && Accepts(f) && Burst(BitsOf(e), p)
    ensures !Accepts(XorFrame(f, e))
  {
    hide Accepts, Register, Stream, Burst;
    AlteredAcceptedIff(f, e);
    RegisterIsStream(0, e);
    BurstLeavesTrace(BitsOf(e), p);
  }

  lemma LowBitsOfZero(n: nat)
    ensures NoneSet(LowBits(0, n))
  {
  }

  lemma {:induction false} BitsAt(data: Frame, i: nat)
    requires i < |data|
    ensures BitsOf(data)[8 * i..8 * i + 8] == BitsOfByte(data[i])
    decreases |data|
  {
    hide BitsOfByte;
    var n := |data| - 1;
    var front, last := BitsOf(data[..n]), BitsOfByte(data[n]);
    assert BitsOf(data) == front + last;
    if i < n {
      BitsAt(data[..n], i);
      SliceOfFront(front, last, 8 * i, 8 * i + 8);
    } else {
      assert (front + last)[|front|..] == last;
    }
  }

  lemma SliceOfFront(a: Bits, b: Bits, i: nat, j: nat)
    requires i <= j <= |a|
    ensures (a + b)[i..j] == a[i..j]
  {
  }

  lemma NonzeroHasBit(b: Byte) returns (j: nat)
    requires b != 0
    ensures j < 8 && BitsOfByte(b)[j]
  {
    if NoneSet(BitsOfByte(b)) {
      ByteDropped(b as bv16);
      NoLowBits(b as bv16, 8);
      assert false;
    }
    j :| 0 <= j < 8 && BitsOfByte(b)[j];
  }

  lemma {:induction false} NoLowBits(x: bv16, n: nat)
    requires NoneSet(LowBits(x, n)) && Dropped(x, n) == 0
    ensures x == 0
    decreases n
  {
    if n > 0 {
      var r := LowBits(x, n);
      assert !r[0];
      NoneSetTail(r);
      NoLowBits(x >> 1, n - 1);
      HalfZero(x);
    }
  }

  lemma HalfZero(x: bv16)
    requires x & 1 == 0 && x >> 1 == 0
    ensures x == 0
  {
  }

  lemma NoneSetTail(r: Bits)
    requires NoneSet(r) && r != []
    ensures NoneSet(r[1..])
  {
  }

  /** In particular every nonzero error confined to two neighbouring bytes is caught, those of
      the CRC included. */
  lemma NeighbouringBytesAreCaught(f: Frame, e: Frame, i: nat)
    requires |f| == |e| && Accepts(f)
    requires forall k :: 0 <= k < |e| && k != i && k != i + 1 ==> e[k] == 0
    requires exists k :: 0 <= k < |e| && e[k] != 0
    ensures !Accepts(XorFrame(f, e))
  {
    hide Accepts, Register, BitsOf, XorByte;
    var bits := BitsOf(e);
    forall k | 0 <= k < |bits| && bits[k] ensures 8 * i <= k < 8 * i + 16 {
      var m := k / 8;
      BitsAt(e, m);
      assert bits[8 * m..8 * m + 8][k - 8 * m] == bits[k];
      if m != i && m != i + 1 { LowBitsOfZero(8); }
    }
    var k :| 0 <= k < |e| && e[k] != 0;
    var j := NonzeroHasBit(e[k]);
    BitsAt(e, k);
    assert bits[8 * k + j] == bits[8 * k..8 * k + 8][j];
    BurstsAreCaught(f, e, 8 * i);
  }

  /** Every error that flips an odd number of bits, anywhere in a frame of any length, is caught. */
  lemma OddErrorsAreCaught(f: Frame, e: Frame)
    requires |f| == |e| && Accepts(f) && OddOnes(BitsOf(e))
    ensures !Accepts(XorFrame(f, e))
  {
    hide Accepts, Register, Stream, OddOnes;
    AlteredAcceptedIff(f, e);
    RegisterIsStream(0, e);
    StreamParity(0, BitsOf(e));
    ZeroParity(16);
  }
}
