/** Modbus RTU requests as the gripper SDK builds them, responses as it takes them apart, and the
    device's side of both (MODBUS Application Protocol V1.1b3, sections 6.3, 6.6 and 6.12). */
module ModbusFrames {
  import opened Wrappers
  import opened ByteCut
  import opened CrcRegister
  import opened ModbusCrc

  datatype Error = TooShort | BadCrc | LengthMismatch | WrongFunction

  const READ: Byte := 0x03
  const WRITE_ONE: Byte := 0x06
  const WRITE_MANY: Byte := 0x10

  // ---------- Numbers as bytes, high byte first ----------

  function HighByte(w: bv16): Byte { (w >> 8) as bv8 }
  function LowByte(w: bv16): Byte { (w & 0xFF) as bv8 }
  function BigEndian(hi: Byte, lo: Byte): bv16 { ((hi as bv16) << 8) | (lo as bv16) }

  lemma BigEndianRoundTrip(w: bv16)
    ensures BigEndian(HighByte(w), LowByte(w)) == w
  {
  }

  /** A negative count is cut in two's complement. */
  function CountField(n: int): Frame { [ByteOf(n / 256), ByteOf(n)] }

  function CountOf(hi: Byte, lo: Byte): nat { 256 * (hi as nat) + lo as nat }

  lemma CountFieldValue(n: int)
    ensures CountOf(CountField(n)[0], CountField(n)[1]) == n % 65536
  {
    hide ByteOf;
    ByteOfCut(n / 256);
    ByteOfCut(n);
    TwoDigits(n, n / 256, n / 256 / 256);
  }

  lemma TwoDigits(n: int, q: int, t: int)
    requires q == n / 256 && t == q / 256
    ensures n % 65536 == 256 * (q % 256) + n % 256
  {
    Remainder(n, t, 256 * (q % 256) + n % 256);
  }

  lemma Remainder(n: int, t: int, r: int)
    requires n == 65536 * t + r && 0 <= r < 65536
    ensures n % 65536 == r
  {
  }

  function Payload(values: seq<bv16>): (r: Frame)
    ensures |r| == 2 * |values|
  {
    if values == [] then []
    else Payload(values[..|values| - 1]) + [HighByte(values[|values| - 1]), LowByte(values[|values| - 1])]
  }

  function Words(bytes: Frame): (r: seq<bv16>)
    requires |bytes| % 2 == 0
    ensures |r| == |bytes| / 2
  {
    seq(|bytes| / 2, i requires 0 <= i < |bytes| / 2 => BigEndian(bytes[2 * i], bytes[2 * i + 1]))
  }

  lemma {:induction false} PayloadRoundTrip(values: seq<bv16>)
    ensures Words(Payload(values)) == values
    decreases |values|
  {
    if values != [] {
      hide Words, BigEndian, HighByte, LowByte;
      var n := |values| - 1;
      PayloadRoundTrip(values[..n]);
      BigEndianRoundTrip(values[n]);
      OneWordMore(Payload(values[..n]), HighByte(values[n]), LowByte(values[n]));
    } else {
      hide BigEndian;
    }
  }

  lemma OneWordMore(bytes: Frame, hi: Byte, lo: Byte)
    requires |bytes| % 2 == 0
    ensures |bytes + [hi, lo]| % 2 == 0 && Words(bytes + [hi, lo]) == Words(bytes) + [BigEndian(hi, lo)]
  {
    hide BigEndian;
  }

  // ---------- Requests ----------

  function WriteOneFrame(id: Byte, addr: bv16, value: bv16): Frame {
    Sealed([id, WRITE_ONE, HighByte(addr), LowByte(addr), HighByte(value), LowByte(value)])
  }

  function WriteManyHeader(id: Byte, addr: bv16, n: nat): Frame {
    [id, WRITE_MANY, HighByte(addr), LowByte(addr)] + CountField(n) + [ByteOf(2 * n)]
  }

  function WriteManyFrame(id: Byte, addr: bv16, values: seq<bv16>): Frame {
    Sealed(WriteManyHeader(id, addr, |values|) + Payload(values))
  }

  function ReadFrame(id: Byte, addr: bv16, count: int): Frame {
    Sealed([id, READ, HighByte(addr), LowByte(addr)] + CountField(count))
  }

  method SealFrame(body: Frame) returns (frame: Frame)
    ensures frame == Sealed(body)
  {
    var crc := CalculateCrc(body);
    frame := body + [Low(crc)];
    frame := frame + [High(crc)];
  }

  method BuildWriteRegister(id: Byte, addr: bv16, value: bv16) returns (frame: Frame)
    ensures frame == WriteOneFrame(id, addr, value)
  {
    frame := [id];
    frame := frame + [WRITE_ONE];
    frame := frame + [HighByte(addr)];
    frame := frame + [LowByte(addr)];
    frame := frame + [HighByte(value)];
    frame := frame + [LowByte(value)];
    assert frame == [id, WRITE_ONE, HighByte(addr), LowByte(addr), HighByte(value), LowByte(value)];
    frame := SealFrame(frame);
  }

  method BuildWriteRegisters(id: Byte, addr: bv16, values: seq<bv16>) returns (frame: Frame)
    ensures frame == WriteManyFrame(id, addr, values)
  {
    frame := [id, WRITE_MANY, HighByte(addr), LowByte(addr)];
    frame := frame + CountField(|values|);
    frame := frame + [ByteOf(|values| * 2)];
    for i := 0 to |values|
      invariant frame == WriteManyHeader(id, addr, |values|) + Payload(values[..i])
    {
      frame := frame + [HighByte(values[i])];
      frame := frame + [LowByte(values[i])];
      assert values[..i + 1][..i] == values[..i];
    }
    assert values[..|values|] == values;
    frame := SealFrame(frame);
  }

  method BuildReadRegisters(id: Byte, addr: bv16, count: int) returns (frame: Frame)
    ensures frame == ReadFrame(id, addr, count)
  {
    frame := [id, READ, HighByte(addr), LowByte(addr)];
    frame := frame + CountField(count);
    frame := SealFrame(frame);
  }

  // ---------- Every byte of a request ----------

  /** The words of a frame stand high byte first. */
  ghost predicate WordAt(f: Frame, i: nat, w: bv16) {
    i + 1 < |f| && f[i] == (w >> 8) as bv8 && f[i + 1] == (w & 0xFF) as bv8
  }

  /** And the counts, as numbers. */
  ghost predicate NumberAt(f: Frame, i: nat, n: int) {
    i + 1 < |f| && 256 * (f[i] as int) + f[i + 1] as int == n
  }

  lemma WriteOneBytes(id: Byte, addr: bv16, value: bv16)
    ensures var f := WriteOneFrame(id, addr, value);
            |f| == 8 && f[0] == id && f[1] == 0x06 && WordAt(f, 2, addr) && WordAt(f, 4, value)
  {
    hide Crc, Low, High;
  }

  lemma ReadBytes(id: Byte, addr: bv16, count: int)
    ensures var f := ReadFrame(id, addr, count);
            |f| == 8 && f[0] == id && f[1] == 0x03 && WordAt(f, 2, addr) && NumberAt(f, 4, count % 65536)
  {
    hide Crc, Low, High, ByteOf;
    CountFieldValue(count);
  }

  lemma {:induction false} PayloadAt(values: seq<bv16>, k: nat)
    requires k < |values|
    ensures WordAt(Payload(values), 2 * k, values[k])
  {
    if k < |values| - 1 { PayloadAt(values[..|values| - 1], k); }
  }

  /** A block write: its function code, address, count and byte count, then each value in turn. */
  lemma WriteManyBytes(id: Byte, addr: bv16, values: seq<bv16>, k: nat)
    requires k < |values|
    ensures var f, n := WriteManyFrame(id, addr, values), |values|;
            && |f| == 9 + 2 * n && f[0] == id && f[1] == 0x10 && WordAt(f, 2, addr)
            && NumberAt(f, 4, n % 65536) && f[6] as int == 2 * n % 256 && WordAt(f, 7 + 2 * k, values[k])
  {
    hide Crc, Low, High, ByteOf, Payload, CountField, WriteManyFrame;
    var f, p := WriteManyFrame(id, addr, values), Payload(values);
    WriteManyLayout(id, addr, values);
    CountFieldValue(|values|);
    ByteOfCut(2 * |values|);
    PayloadAt(values, k);
    assert f[7..7 + |p|][2 * k] == p[2 * k] && f[7..7 + |p|][2 * k + 1] == p[2 * k + 1];
  }

  // ---------- The device's reading of a request ----------

  datatype Request =
    | WriteOne(id: Byte, addr: bv16, value: bv16)
    | WriteMany(id: Byte, addr: bv16, values: seq<bv16>)
    | Read(id: Byte, addr: bv16, count: nat)

  /** What the standard lets a device act on: a valid CRC, matching lengths, 1 to 123 registers
      written or 1 to 125 read. */
  function Decode(f: Frame): Option<Request> {
    if !Accepts(f) || |f| < 8 then None
    else
      var addr, n := BigEndian(f[2], f[3]), CountOf(f[4], f[5]);
      if f[1] == WRITE_ONE && |f| == 8 then Some(WriteOne(f[0], addr, BigEndian(f[4], f[5])))
      else if f[1] == READ && |f| == 8 && 1 <= n <= 125 then Some(Read(f[0], addr, n))
      else if f[1] == WRITE_MANY && 1 <= n <= 123 && |f| == 9 + 2 * n && f[6] as int == 2 * n then
        Some(WriteMany(f[0], addr, Words(f[7..7 + 2 * n])))
      else None
  }

  /** A single write reaches the device as it was meant. */
  lemma WriteOneRoundTrip(id: Byte, addr: bv16, value: bv16)
    ensures Decode(WriteOneFrame(id, addr, value)) == Some(WriteOne(id, addr, value))
  {
  }

  /** A read request is understood exactly when its count, cut to sixteen bits, is 1 to 125. */
  lemma ReadRoundTripIff(id: Byte, addr: bv16, count: int)
    ensures Decode(ReadFrame(id, addr, count)) ==
            if 1 <= count % 65536 <= 125 then Some(Read(id, addr, count % 65536)) else None
  {
    hide Accepts, HighByte, LowByte, BigEndian, Crc, Low, High, CountOf, ByteOf;
    SealedAccepted([id, READ, HighByte(addr), LowByte(addr)] + CountField(count));
    BigEndianRoundTrip(addr);
    CountFieldValue(count);
  }

  /** Where everything lies in a block write. */
  lemma WriteManyLayout(id: Byte, addr: bv16, values: seq<bv16>)
    ensures var f, n := WriteManyFrame(id, addr, values), |values|;
            && |f| == 9 + 2 * n && f[0] == id && f[1] == WRITE_MANY
            && f[2] == HighByte(addr) && f[3] == LowByte(addr)
            && f[4] == CountField(n)[0] && f[5] == CountField(n)[1] && f[6] == ByteOf(2 * n)
            && f[7..7 + 2 * n] == Payload(values)
  {
    hide HighByte, LowByte, Crc, Low, High, ByteOf, Payload;
    var h, p := WriteManyHeader(id, addr, |values|), Payload(values);
    assert |h| == 7;
    var f := WriteManyFrame(id, addr, values);
    assert f == h + p + f[7 + |p|..];
  }

  /** A block write reaches the device as it was meant exactly when it holds 1 to 123 values; any
      other number gives a frame the device ignores. */
  lemma WriteManyRoundTripIff(id: Byte, addr: bv16, values: seq<bv16>)
    ensures Decode(WriteManyFrame(id, addr, values)) ==
            if 1 <= |values| <= 123 then Some(WriteMany(id, addr, values)) else None
  {
    hide Accepts, HighByte, LowByte, BigEndian, CountOf, CountField, ByteOf, Payload, Words, WriteManyFrame;
    var n := |values|;
    WriteManyAccepted(id, addr, values);
    WriteManyLayout(id, addr, values);
    BigEndianRoundTrip(addr);
    CountFieldValue(n);
    ManyCounts(n, n % 65536);
    ByteOfCut(2 * n);
    PayloadRoundTrip(values);
  }

  lemma ManyCounts(n: nat, count: int)
    requires count == n % 65536
    ensures 1 <= count <= 123 && n == count <==> 1 <= n <= 123
    ensures 1 <= n <= 123 ==> (2 * n) % 256 == 2 * n
  {
  }

  lemma WriteManyAccepted(id: Byte, addr: bv16, values: seq<bv16>)
    ensures Accepts(WriteManyFrame(id, addr, values))
  {
  }

  // ---------- Responses ----------

  /** The device's answer to a read: address, function, byte count, the registers. */
  function ReadResponse(id: Byte, values: seq<bv16>): Frame {
    Sealed([id, READ, ByteOf(2 * |values|)] + Payload(values))
  }

  /** The length check compares unsigned: a negative length exceeds every response. */
  predicate LongEnough(response: Frame, count: int) {
    0 <= 3 + count * 2 + 2 <= |response|
  }

  function Parse(response: Frame, count: int): Result<seq<bv16>, Error> {
    if |response| < 2 then Err(TooShort)
    else if !Accepts(response) then Err(BadCrc)
    else if !LongEnough(response, count) then Err(LengthMismatch)
    else if response[1] != READ then Err(WrongFunction)
    else Ok(Registers(response, count))
  }

  function Registers(response: Frame, count: int): seq<bv16>
    requires LongEnough(response, count)
  {
    if count <= 0 then [] else Words(response[3..3 + 2 * count])
  }

  /** When a response is taken, and which bytes each register is taken from. */
  lemma ParseMeans(response: Frame, count: int, k: nat)
    ensures Parse(response, count).Ok? <==>
            |response| >= 2 && Accepts(response) && -2 <= count && 2 * count + 5 <= |response| && response[1] == 0x03
    ensures var r := Parse(response, count);
            r.Ok? ==> && |r.value| == (if count < 0 then 0 else count)
                      && (k < |r.value| ==> WordAt(response, 3 + 2 * k, r.value[k]))
  {
    hide Accepts, BigEndian;
    if Parse(response, count).Ok? && k < count {
      SplitAgain(response[3 + 2 * k], response[4 + 2 * k]);
    }
  }

  lemma SplitAgain(hi: Byte, lo: Byte)
    ensures (BigEndian(hi, lo) >> 8) as bv8 == hi && (BigEndian(hi, lo) & 0xFF) as bv8 == lo
  {
  }

  method ReceiveResponse(buffer: Frame) returns (r: Result<Frame, Error>)
    ensures r == if |buffer| < 2 then Err(TooShort) else if !Accepts(buffer) then Err(BadCrc) else Ok(buffer)
  {
    if |buffer| < 2 { return Err(TooShort); }
    var n := |buffer|;
    var received := Joined(buffer[n - 2], buffer[n - 1]);
    var crc := CalculateCrc(buffer[..n - 2]);
    if received != crc { return Err(BadCrc); }
    r := Ok(buffer);
  }

  method ReadRegisters(response: Frame, count: int) returns (r: Result<seq<bv16>, Error>)
    ensures r == Parse(response, count)
  {
    hide Registers, Accepts, BigEndian;
    var received := ReceiveResponse(response);
    if received.Err? { return Err(received.error); }
    if !LongEnough(response, count) { return Err(LengthMismatch); }
    if response[1] != READ { return Err(WrongFunction); }
    var values := [];
    var i := 0;
    NoRegisters(response, count);
    while i < count
      invariant 0 <= i && (i <= count || i == 0)
      invariant values == Registers(response, if count < 0 then count else i)
    {
      values := values + [BigEndian(response[3 + i * 2], response[3 + i * 2 + 1])];
      OneRegisterMore(response, i);
      i := i + 1;
    }
    r := Ok(values);
  }

  lemma NoRegisters(response: Frame, count: int)
    requires LongEnough(response, count)
    ensures Registers(response, if count < 0 then count else 0) == []
  {
  }

  lemma OneRegisterMore(f: Frame, i: nat)
    requires LongEnough(f, i + 1)
    ensures Registers(f, i + 1) == Registers(f, i) + [BigEndian(f[3 + i * 2], f[3 + i * 2 + 1])]
  {
    hide BigEndian;
    WordsSnoc(f, i);
    if i == 0 { assert f[3..3] == []; }
  }

  lemma WordsSnoc(f: Frame, i: nat)
    requires |f| >= 5 + 2 * i
    ensures Words(f[3..3 + 2 * (i + 1)]) == Words(f[3..3 + 2 * i]) + [BigEndian(f[3 + i * 2], f[3 + i * 2 + 1])]
  {
  }

  /** Reading back what a device sends gives exactly its registers, and asking for fewer gives the
      first of them, none for minus one and minus two; asking for more, or for fewer than minus two,
      is a length error. */
  lemma ReadResponseRoundTrip(id: Byte, values: seq<bv16>, count: int)
    ensures Parse(ReadResponse(id, values), count) ==
            if 0 <= count <= |values| then Ok(values[..count])
            else if -2 <= count < 0 then Ok([])
            else Err(LengthMismatch)
  {
    hide Accepts, BigEndian, Crc, Low, High, ByteOf, Payload;
    var body := [id, READ, ByteOf(2 * |values|)] + Payload(values);
    var f := ReadResponse(id, values);
    SealedAccepted(body);
    if 0 < count <= |values| {
      PayloadRoundTrip(values);
      forall k | 0 <= k < count ensures Words(f[3..3 + 2 * count])[k] == values[k] {
        assert f[3 + 2 * k] == Payload(values)[2 * k] && f[3 + 2 * k + 1] == Payload(values)[2 * k + 1];
        assert Words(Payload(values))[k] == values[k];
      }
      assert Words(f[3..3 + 2 * count]) == values[..count];
    }
  }

  /** A response altered by a short burst or an odd number of bits never yields values. */
  lemma AlteredResponseRejected(response: Frame, e: Frame, p: nat, count: int)
    requires |response| == |e| && Parse(response, count).Ok?
    requires Burst(BitsOf(e), p) || OddOnes(BitsOf(e))
    ensures Parse(XorFrame(response, e), count) == Err(BadCrc)
  {
    if Burst(BitsOf(e), p) { BurstsAreCaught(response, e, p); } else { OddErrorsAreCaught(response, e); }
  }
}
