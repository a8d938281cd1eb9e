/** Gripper commands at the level of register writes: the C++ SDK's single block against the
    Python SDK's register-by-register form, and the split position on the way there and back.
    Registers hold 16 bits and a C++ int 32; the cuts are written out as remainders. */
module Gripper {

  datatype Write = Write(addr: int, value: int)

  const TARGET_POS_HIGH := 0x0102
  const TARGET_POS_LOW := 0x0103
  const TARGET_SPEED := 0x0104
  const TARGET_FORCE := 0x0105
  const TARGET_ACCELERATION := 0x0106
  const TARGET_DECELERATION := 0x0107
  const MOTION_TRIGGER := 0x0108

  /** Cutting to 16 bits. */
  function U16(x: int): int { x % 0x1_0000 }

  predicate IsInt32(x: int) { -0x8000_0000 <= x < 0x8000_0000 }
  predicate IsRegister(x: int) { 0 <= x < 0x1_0000 }

  // ---------- The position's two halves ----------

  /** position >> 16, cut, and position cut. */
  function HighHalf(p: int): int { U16(p / 0x1_0000) }
  function LowHalf(p: int): int { U16(p) }

  /** The 32-bit pattern of two registers, read as two's complement. */
  function ReadPosition(hi: int, lo: int): int {
    var combined := hi * 0x1_0000 + lo;
    if combined >= 0x8000_0000 then combined - 0x1_0000_0000 else combined
  }

  /** A position written as two registers is read back as itself exactly when it has 32 bits:
      always in C++, and for those of the unbounded Python integers. */
  lemma PositionRoundTripIff(p: int)
    ensures ReadPosition(HighHalf(p), LowHalf(p)) == p <==> IsInt32(p)
  {
  }

  /** And any two register values are the halves of the position they are read as. */
  lemma RegistersRoundTrip(hi: int, lo: int)
    requires IsRegister(hi) && IsRegister(lo)
    ensures IsInt32(ReadPosition(hi, lo))
    ensures HighHalf(ReadPosition(hi, lo)) == hi && LowHalf(ReadPosition(hi, lo)) == lo
  {
  }

  /** The two registers are the position's upper and lower sixteen bits. */
  lemma HalvesMakePosition(p: int)
    ensures 0 <= HighHalf(p) <= 0xFFFF && 0 <= LowHalf(p) <= 0xFFFF
    ensures 65536 * HighHalf(p) + LowHalf(p) == p % 0x1_0000_0000
  {
    assert p == 65536 * (p / 65536) + p % 65536;
  }

  // ---------- The commands ----------

  /** A block write stores its values in ascending registers. */
  function Block(addr: int, values: seq<int>): seq<Write> {
    seq(|values|, i requires 0 <= i < |values| => Write(addr + i, values[i]))
  }

  /** The values of the C++ block, pushed one after another. */
  method TempMoveValues(position: int, speed: int, force: int, accel: int, decel: int, trigger: bool)
    returns (values: seq<int>)
    ensures Block(TARGET_POS_HIGH, values) == CppTempMove(position, speed, force, accel, decel, trigger)
    ensures forall v :: v in values ==> IsRegister(v)
  {
    values := [];
    values := values + [HighHalf(position)];
    values := values + [LowHalf(position)];
    values := values + [U16(speed)];
    values := values + [U16(force)];
    values := values + [U16(accel)];
    values := values + [U16(decel)];
    if trigger {
      values := values + [1];
    } else {
      values := values + [0];
    }
  }

  function CppTempMove(position: int, speed: int, force: int, accel: int, decel: int, trigger: bool): seq<Write> {
    [Write(TARGET_POS_HIGH, HighHalf(position)), Write(TARGET_POS_LOW, LowHalf(position)),
     Write(TARGET_SPEED, U16(speed)), Write(TARGET_FORCE, U16(force)),
     Write(TARGET_ACCELERATION, U16(accel)), Write(TARGET_DECELERATION, U16(decel)),
     Write(MOTION_TRIGGER, if trigger then 1 else 0)]
  }

  /** The Python form: a two-register block for the position, then one register at a time. */
  function PyTempMove(position: int, speed: int, force: int, accel: int, decel: int, trigger: bool): seq<Write> {
    Block(TARGET_POS_HIGH, [HighHalf(position), LowHalf(position)])
    + [Write(TARGET_SPEED, speed)] + [Write(TARGET_FORCE, force)]
    + [Write(TARGET_ACCELERATION, accel)] + [Write(TARGET_DECELERATION, decel)]
    + if trigger then [Write(MOTION_TRIGGER, 1)] else []
  }

  /** Which registers either form writes, in which order, and what stands in the first two. */
  lemma TempMoveRegisters(position: int, speed: int, force: int, accel: int, decel: int, trigger: bool, k: nat)
    requires k < 7
    ensures var cpp := CppTempMove(position, speed, force, accel, decel, trigger);
            var py := PyTempMove(position, speed, force, accel, decel, trigger);
            && |cpp| == 7 && |py| == (if trigger then 7 else 6)
            && cpp[k].addr == 0x0102 + k && (k < |py| ==> py[k].addr == 0x0102 + k)
            && 65536 * cpp[0].value + cpp[1].value == 65536 * py[0].value + py[1].value == position % 0x1_0000_0000
            && [py[2].value, py[3].value, py[4].value, py[5].value] == [speed, force, accel, decel]
            && cpp[6].value == (if trigger then 1 else 0)
  {
    hide HighHalf, LowHalf;
    HalvesMakePosition(position);
  }

  /** With a trigger the two forms write the same values to the same registers in the same order
      exactly when every parameter fits a register; without one they never do, because the C++
      block also clears the trigger register. */
  lemma TempMoveTracesIff(position: int, speed: int, force: int, accel: int, decel: int, trigger: bool)
    ensures (CppTempMove(position, speed, force, accel, decel, trigger)
             == PyTempMove(position, speed, force, accel, decel, trigger))
            <==> (trigger && IsRegister(speed) && IsRegister(force) && IsRegister(accel) && IsRegister(decel))
  {
    var c := CppTempMove(position, speed, force, accel, decel, trigger);
    var p := PyTempMove(position, speed, force, accel, decel, trigger);
    assert |p| == if trigger then 7 else 6;
    if trigger {
      assert c == p <==> c[2] == p[2] && c[3] == p[3] && c[4] == p[4] && c[5] == p[5];
    }
  }

  /** The registers after a run of writes. */
  function Stored(mem: map<int, int>, writes: seq<Write>): map<int, int>
    decreases |writes|
  {
    if writes == [] then mem
    else Stored(mem, writes[..|writes| - 1])[writes[|writes| - 1].addr := writes[|writes| - 1].value]
  }

  /** With register-sized parameters the device's registers end up the same, whatever they held
      before, exactly when the motion is triggered or the trigger register was already clear. */
  lemma TempMoveAgreesIff(mem: map<int, int>, position: int, speed: int, force: int, accel: int, decel: int,
                          trigger: bool)
    requires IsRegister(speed) && IsRegister(force) && IsRegister(accel) && IsRegister(decel)
    ensures (Stored(mem, CppTempMove(position, speed, force, accel, decel, trigger))
             == Stored(mem, PyTempMove(position, speed, force, accel, decel, trigger)))
            <==> (trigger || (MOTION_TRIGGER in mem && mem[MOTION_TRIGGER] == 0))
  {
    var py := PyTempMove(position, speed, force, accel, decel, trigger);
    if trigger {
      TempMoveTracesIff(position, speed, force, accel, decel, trigger);
    } else {
      var cpp := CppTempMove(position, speed, force, accel, decel, trigger);
      assert cpp[..6] == py;
      StoredElsewhere(mem, py, MOTION_TRIGGER);
      assert Stored(mem, cpp) == Stored(mem, py)[MOTION_TRIGGER := 0];
      ClearsIff(Stored(mem, py));
    }
  }

  /** A pending trigger survives an untriggered Python move and not the C++ one. */
  lemma TempMoveExample(position: int, speed: int, force: int, accel: int, decel: int)
    ensures var mem := map[MOTION_TRIGGER := 1];
            && MOTION_TRIGGER in Stored(mem, PyTempMove(position, speed, force, accel, decel, false))
            && Stored(mem, PyTempMove(position, speed, force, accel, decel, false))[MOTION_TRIGGER] == 1
            && Stored(mem, CppTempMove(position, speed, force, accel, decel, false))[MOTION_TRIGGER] == 0
  {
    StoredElsewhere(map[MOTION_TRIGGER := 1], PyTempMove(position, speed, force, accel, decel, false), MOTION_TRIGGER);
  }

  lemma ClearsIff(m: map<int, int>)
    ensures m[MOTION_TRIGGER := 0] == m <==> (MOTION_TRIGGER in m && m[MOTION_TRIGGER] == 0)
  {
  }

  /** Writes elsewhere leave a register alone. */
  lemma {:induction false} StoredElsewhere(mem: map<int, int>, writes: seq<Write>, a: int)
    requires forall i :: 0 <= i < |writes| ==> writes[i].addr != a
    ensures a in Stored(mem, writes) <==> a in mem
    ensures a in mem ==> Stored(mem, writes)[a] == mem[a]
    decreases |writes|
  {
    if writes != [] { StoredElsewhere(mem, writes[..|writes| - 1], a); }
  }

  /** The trigger is the last write of a triggered move, and by then every parameter register
      holds its new value: motion never starts on stale parameters. */
  lemma TriggerComesLast(mem: map<int, int>, position: int, speed: int, force: int, accel: int, decel: int)
    ensures var w := CppTempMove(position, speed, force, accel, decel, true);
            && w[6] == Write(MOTION_TRIGGER, 1)
            && (forall i :: 0 <= i < 6 ==> w[i].addr != MOTION_TRIGGER)
            && Stored(mem, w[..6])
               == mem[TARGET_POS_HIGH := HighHalf(position)][TARGET_POS_LOW := LowHalf(position)]
                     [TARGET_SPEED := U16(speed)][TARGET_FORCE := U16(force)]
                     [TARGET_ACCELERATION := U16(accel)][TARGET_DECELERATION := U16(decel)]
  {
    hide HighHalf, LowHalf, U16;
    var w := CppTempMove(position, speed, force, accel, decel, true);
    assert w[..6][..5] == w[..5] && w[..5][..4] == w[..4] && w[..4][..3] == w[..3];
    assert w[..3][..2] == w[..2] && w[..2][..1] == w[..1] && w[..1][..0] == [];
    assert Stored(mem, w[..1]) == mem[TARGET_POS_HIGH := HighHalf(position)];
    assert Stored(mem, w[..2]) == Stored(mem, w[..1])[TARGET_POS_LOW := LowHalf(position)];
    assert Stored(mem, w[..3]) == Stored(mem, w[..2])[TARGET_SPEED := U16(speed)];
    assert Stored(mem, w[..4]) == Stored(mem, w[..3])[TARGET_FORCE := U16(force)];
    assert Stored(mem, w[..5]) == Stored(mem, w[..4])[TARGET_ACCELERATION := U16(accel)];
  }
}
