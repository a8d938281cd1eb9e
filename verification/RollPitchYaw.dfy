/** Roll, pitch and yaw against rotation matrices. An angle is the pair of its cosine and sine. */
module RollPitchYaw {
  import opened Reals
  import opened Sensors
  import opened Rotations

  datatype Angle = Angle(c: real, s: real) {
    predicate OnCircle() { Sq(c) + Sq(s) == 1.0 }
  }

  const ZERO_ANGLE := Angle(1.0, 0.0)

  datatype Rpy = Rpy(roll: Angle, pitch: Angle, yaw: Angle) {
    predicate Valid() { roll.OnCircle() && pitch.OnCircle() && yaw.OnCircle() }
  }

  function AboutX(a: Angle): Mat3 { Mat3(V3(1.0, 0.0, 0.0), V3(0.0, a.c, -a.s), V3(0.0, a.s, a.c)) }

  function AboutY(a: Angle): Mat3 { Mat3(V3(a.c, 0.0, a.s), V3(0.0, 1.0, 0.0), V3(-a.s, 0.0, a.c)) }

  function AboutZ(a: Angle): Mat3 { Mat3(V3(a.c, -a.s, 0.0), V3(a.s, a.c, 0.0), V3(0.0, 0.0, 1.0)) }

  /** The nine entries as the program writes them. */
  function ToRotation(a: Rpy): Mat3 {
    var Rpy(Angle(cr, sr), Angle(cp, sp), Angle(cy, sy)) := a;
    Mat3(V3(cy * cp, cy * sp * sr - sy * cr, cy * sp * cr + sy * sr),
         V3(sy * cp, sy * sp * sr + cy * cr, sy * sp * cr - cy * sr),
         V3(-sp, cp * sr, cp * cr))
  }

  lemma AboutXIsRotation(a: Angle)
    requires a.OnCircle()
    ensures AboutX(a).IsRotation()
  {
  }

  lemma AboutYIsRotation(a: Angle)
    requires a.OnCircle()
    ensures AboutY(a).IsRotation()
  {
  }

  lemma AboutZIsRotation(a: Angle)
    requires a.OnCircle()
    ensures AboutZ(a).IsRotation()
  {
  }

  lemma PitchAfterRoll(roll: Angle, pitch: Angle)
    ensures AboutY(pitch).Mul(AboutX(roll))
         == Mat3(V3(pitch.c, pitch.s * roll.s, pitch.s * roll.c), V3(0.0, roll.c, -roll.s),
                 V3(-pitch.s, pitch.c * roll.s, pitch.c * roll.c))
  {
  }

  lemma TwoRows(m: Mat3, c: real, s: real)
    ensures m.LeftTimes(V3(c, s, 0.0)) == V3(c * m.r0.x + s * m.r1.x, c * m.r0.y + s * m.r1.y, c * m.r0.z + s * m.r1.z)
  {
  }

  lemma LastRow(m: Mat3)
    ensures m.LeftTimes(V3(0.0, 0.0, 1.0)) == m.r2
  {
    assert m.r2 == V3(m.r2.x, m.r2.y, m.r2.z);
  }

  lemma YawAfter(yaw: Angle, m: Mat3)
    ensures AboutZ(yaw).Mul(m) == Mat3(
      V3(yaw.c * m.r0.x + -yaw.s * m.r1.x, yaw.c * m.r0.y + -yaw.s * m.r1.y, yaw.c * m.r0.z + -yaw.s * m.r1.z),
      V3(yaw.s * m.r0.x + yaw.c * m.r1.x, yaw.s * m.r0.y + yaw.c * m.r1.y, yaw.s * m.r0.z + yaw.c * m.r1.z),
      m.r2)
  {
    hide Mat3.LeftTimes;
    TwoRows(m, yaw.c, -yaw.s);
    TwoRows(m, yaw.s, yaw.c);
    LastRow(m);
  }

  /** The entries are the product of the turns about z, y and x. */
  lemma EntriesAreProduct(a: Rpy)
    ensures ToRotation(a) == AboutZ(a.yaw).Mul(AboutY(a.pitch).Mul(AboutX(a.roll)))
  {
    hide AboutX, AboutY, AboutZ, Mat3.Mul;
    PitchAfterRoll(a.roll, a.pitch);
    YawAfter(a.yaw, AboutY(a.pitch).Mul(AboutX(a.roll)));
  }

  lemma NoTurn()
    ensures AboutX(ZERO_ANGLE) == AboutY(ZERO_ANGLE) == AboutZ(ZERO_ANGLE) == ID
  {
  }

  /** Each angle on its own turns one axis towards the next: yaw x towards y, pitch z towards x, roll
      y towards z. */
  lemma SingleTurns(a: Angle)
    ensures ToRotation(Rpy(ZERO_ANGLE, ZERO_ANGLE, a)).Times(V3(1.0, 0.0, 0.0)) == V3(a.c, a.s, 0.0)
    ensures ToRotation(Rpy(ZERO_ANGLE, a, ZERO_ANGLE)).Times(V3(0.0, 0.0, 1.0)) == V3(a.s, 0.0, a.c)
    ensures ToRotation(Rpy(a, ZERO_ANGLE, ZERO_ANGLE)).Times(V3(0.0, 1.0, 0.0)) == V3(0.0, a.c, a.s)
  {
    hide ToRotation, AboutX, AboutY, AboutZ, Mat3.Mul, Mat3.Times, ID;
    EntriesAreProduct(Rpy(ZERO_ANGLE, ZERO_ANGLE, a));
    EntriesAreProduct(Rpy(ZERO_ANGLE, a, ZERO_ANGLE));
    EntriesAreProduct(Rpy(a, ZERO_ANGLE, ZERO_ANGLE));
    NoTurn();
    MulId(ID); MulId(AboutX(a)); MulId(AboutY(a)); MulId(AboutZ(a));
    TurnsOfAxes(a);
  }

  lemma TimesAxes(m: Mat3)
    ensures m.Times(V3(1.0, 0.0, 0.0)) == V3(m.r0.x, m.r1.x, m.r2.x)
    ensures m.Times(V3(0.0, 1.0, 0.0)) == V3(m.r0.y, m.r1.y, m.r2.y)
    ensures m.Times(V3(0.0, 0.0, 1.0)) == V3(m.r0.z, m.r1.z, m.r2.z)
  {
  }

  lemma TurnsOfAxes(a: Angle)
    ensures AboutZ(a).Times(V3(1.0, 0.0, 0.0)) == V3(a.c, a.s, 0.0)
    ensures AboutY(a).Times(V3(0.0, 0.0, 1.0)) == V3(a.s, 0.0, a.c)
    ensures AboutX(a).Times(V3(0.0, 1.0, 0.0)) == V3(0.0, a.c, a.s)
  {
    hide Mat3.Times;
    TimesAxes(AboutX(a)); TimesAxes(AboutY(a)); TimesAxes(AboutZ(a));
  }

  /** Any roll, pitch and yaw give a rotation. */
  lemma EveryRpyIsARotation(a: Rpy)
    requires a.Valid()
    ensures ToRotation(a).IsRotation()
  {
    hide ToRotation, AboutX, AboutY, AboutZ, Mat3.IsRotation, Mat3.Mul;
    EntriesAreProduct(a);
    AboutXIsRotation(a.roll);
    AboutYIsRotation(a.pitch);
    AboutZIsRotation(a.yaw);
    ProductIsRotation(AboutY(a.pitch), AboutX(a.roll));
    ProductIsRotation(AboutZ(a.yaw), AboutY(a.pitch).Mul(AboutX(a.roll)));
  }

  /** `a` is the angle of the point (x, y); the angle of the origin is zero. */
  ghost predicate Atan2(y: real, x: real, a: Angle) {
    && a.OnCircle()
    && (if x == 0.0 && y == 0.0 then a == ZERO_ANGLE
        else exists m: real :: m > 0.0 && x == Prod(m, a.c) && y == Prod(m, a.s))
  }

  ghost predicate Asin(v: real, a: Angle) { a.OnCircle() && a.s == v && a.c >= 0.0 }

  predicate GimbalLock(r: Mat3) { -r.r2.x > 0.99999 || r.r2.x > 0.99999 }

  /** `a` is what the decomposition of r returns. */
  ghost predicate IsRpyOf(r: Mat3, a: Rpy) {
    if GimbalLock(r) then
      && a.pitch == Angle(0.0, if -r.r2.x > 0.0 then 1.0 else -1.0)
      && Atan2(-r.r0.y, r.r1.y, a.roll)
      && a.yaw == ZERO_ANGLE
    else
      && Asin(-r.r2.x, a.pitch) && a.pitch.c != 0.0
      && Atan2(r.r2.y / a.pitch.c, r.r2.z / a.pitch.c, a.roll)
      && Atan2(r.r1.x / a.pitch.c, r.r0.x / a.pitch.c, a.yaw)
  }

  lemma SquareIsOne(m: real)
    requires m > 0.0 && Sq(m) == 1.0
    ensures m == 1.0
  {
  }

  lemma ScaledSquares(m: real, a: Angle)
    requires a.OnCircle()
    ensures Sq(Prod(m, a.c)) + Sq(Prod(m, a.s)) == Sq(m)
  {
  }

  /** The angle of a point on the unit circle is the point itself. */
  lemma UnitRay(y: real, x: real, a: Angle, m: real)
    requires m > 0.0 && x == Prod(m, a.c) && y == Prod(m, a.s) && a.OnCircle() && Sq(x) + Sq(y) == 1.0
    ensures a == Angle(x, y)
  {
    hide Sq, Prod;
    ScaledSquares(m, a);
    SquareIsOne(m);
    OneTimes(a.c);
    OneTimes(a.s);
  }

  lemma NoSquareOfZero()
    ensures Sq(0.0) == 0.0
  {
  }

  lemma OneTimes(a: real)
    ensures Prod(1.0, a) == a
  {
  }

  // ---------- From a matrix to angles and back ----------

  function TwoProducts(a: real, s: real, b: real, x: real, y: real): real { a * s * b + x * y }

  /** An entry made of two products, read through the cosine of the pitch that scales its factors. */
  lemma Unscale(c: real, a: real, b: real, x: real, y: real, s: real, u: real)
    requires c > 0.0 && Prod(u, Sq(c)) == TwoProducts(Prod(c, a), s, Prod(c, b), Prod(c, x), Prod(c, y))
    ensures TwoProducts(a, s, b, x, y) == u
  {
    var z := TwoProducts(a, s, b, x, y);
    assert TwoProducts(Prod(c, a), s, Prod(c, b), Prod(c, x), Prod(c, y)) == Prod(z, Sq(c)) by {
      assert (c * a) * s * (c * b) == (a * s * b) * (c * c);
      assert (c * x) * (c * y) == (x * y) * (c * c);
    }
    Cancel(z, u, c);
  }

  lemma Cancel(z: real, u: real, c: real)
    requires c > 0.0 && Prod(z, Sq(c)) == Prod(u, Sq(c))
    ensures z == u
  {
    hide Sq, Prod;
    SquareSign(c);
    AddProducts(z - u, u, Sq(c));
    AddProducts(u - z, z, Sq(c));
    if z > u {
      ProductOfPositives(z - u, Sq(c));
    } else if u > z {
      ProductOfPositives(u - z, Sq(c));
    }
  }

  lemma Negated(c: real, q: real)
    ensures Prod(c, -q) == -Prod(c, q)
  {
  }

  lemma Undivided(x: real, c: real, q: real)
    requires c > 0.0 && q == x / c
    ensures Prod(c, q) == x
  {
  }

  lemma QuotientSquares(x: real, y: real, c: real)
    requires c > 0.0 && Sq(x) + Sq(y) == Sq(c)
    ensures Sq(x / c) + Sq(y / c) == 1.0
  {
    hide Prod;
    var a, b := x / c, y / c;
    Undivided(x, c, a);
    Undivided(y, c, b);
    SquareOfScaled(c, a, x);
    SquareOfScaled(c, b, y);
    hide Sq;
    AddProducts(Sq(a), Sq(b), Sq(c));
    SquareSign(c);
    OnlyOne(Sq(a) + Sq(b), Sq(c));
  }

  lemma SquareOfScaled(c: real, a: real, x: real)
    requires x == Prod(c, a)
    ensures Sq(x) == Prod(Sq(a), Sq(c))
  {
  }

  lemma AddProducts(a: real, b: real, d: real)
    ensures Prod(a, d) + Prod(b, d) == Prod(a + b, d)
  {
  }

  lemma OnlyOne(z: real, d: real)
    requires d > 0.0 && Prod(z, d) == d
    ensures z == 1.0
  {
  }

  /** What a rotation says of the entries the decomposition reads and of the others. */
  lemma ReadAndUnread(r: Mat3)
    requires r.IsRotation()
    ensures Sq(r.r0.x) + Sq(r.r1.x) == 1.0 - Sq(r.r2.x) == Sq(r.r2.y) + Sq(r.r2.z)
    ensures -r.r2.x * r.r2.y == r.r0.x * r.r0.y + r.r1.x * r.r1.y
    ensures -r.r2.x * r.r2.z == r.r0.x * r.r0.z + r.r1.x * r.r1.z
    ensures r.r2.z == r.r0.x * r.r1.y - r.r0.y * r.r1.x
    ensures -r.r2.y == r.r0.x * r.r1.z - r.r0.z * r.r1.x
  {
    TransposeIsRotation(r);
    CofactorsOfRotation(r);
    var t := r.T();
    assert t.r0.Norm2() == 1.0 && t.r0.Dot(t.r1) == 0.0 && t.r2.Dot(t.r0) == 0.0;
    assert r.r0.Cross(r.r1) == r.r2;
  }

  /** The point (x, y), at distance c, seen under angle a. */
  ghost predicate Scaled(c: real, a: Angle, x: real, y: real) {
    Prod(c, a.c) == x && Prod(c, a.s) == y
  }

  /** Away from gimbal lock the four entries the decomposition does not read come back. */
  lemma UnreadEntries(r: Mat3, c: real, yaw: Angle, roll: Angle)
    requires r.IsRotation() && c > 0.0 && Sq(c) == 1.0 - Sq(r.r2.x)
    requires Scaled(c, yaw, r.r0.x, r.r1.x) && Scaled(c, roll, r.r2.z, r.r2.y)
    ensures var s := -r.r2.x;
            && TwoProducts(yaw.c, s, roll.s, -yaw.s, roll.c) == r.r0.y
            && TwoProducts(yaw.c, s, roll.c, yaw.s, roll.s) == r.r0.z
            && TwoProducts(yaw.s, s, roll.s, yaw.c, roll.c) == r.r1.y
            && TwoProducts(yaw.s, s, roll.c, -yaw.c, roll.s) == r.r1.z
  {
    UnreadScaled(r, c);
    hide TwoProducts, Prod, Sq, Mat3.IsRotation;
    var s := -r.r2.x;
    Negated(c, yaw.c);
    Negated(c, yaw.s);
    Unscale(c, yaw.c, roll.s, -yaw.s, roll.c, s, r.r0.y);
    Unscale(c, yaw.c, roll.c, yaw.s, roll.s, s, r.r0.z);
    Unscale(c, yaw.s, roll.s, yaw.c, roll.c, s, r.r1.y);
    Unscale(c, yaw.s, roll.c, -yaw.c, roll.s, s, r.r1.z);
  }

  lemma UnreadScaled(r: Mat3, c: real)
    requires r.IsRotation() && Sq(c) == 1.0 - Sq(r.r2.x)
    ensures var p, q, g, h, s := r.r0.x, r.r1.x, r.r2.y, r.r2.z, -r.r2.x;
            && Prod(r.r0.y, Sq(c)) == TwoProducts(p, s, g, -q, h) && Prod(r.r0.z, Sq(c)) == TwoProducts(p, s, h, q, g)
            && Prod(r.r1.y, Sq(c)) == TwoProducts(q, s, g, p, h) && Prod(r.r1.z, Sq(c)) == TwoProducts(q, s, h, -p, g)
  {
    hide Mat3.IsRotation, Prod, TwoProducts, Sq;
    var p, q, g, h, s := r.r0.x, r.r1.x, r.r2.y, r.r2.z, -r.r2.x;
    ReadAndUnread(r);
    Column(p, q, r.r0.y, r.r1.y, s, g, h, c);
    Column(p, q, r.r0.z, r.r1.z, s, h, -g, c);
    SignsCancel(p, s, h, q, g);
    SignsCancel(q, s, h, -p, g);
  }

  lemma SignsCancel(a: real, s: real, b: real, x: real, y: real)
    ensures TwoProducts(a, s, b, -x, -y) == TwoProducts(a, s, b, x, y)
  {
  }

  lemma Column(p: real, q: real, u: real, v: real, s: real, g: real, k: real, c: real)
    requires Sq(p) + Sq(q) == Sq(c) && s * g == p * u + q * v && k == p * v - u * q
    ensures Prod(u, Sq(c)) == TwoProducts(p, s, g, -q, k)
    ensures Prod(v, Sq(c)) == TwoProducts(q, s, g, p, k)
  {
  }

  lemma BelowOne(v: real)
    requires -1.0 < v < 1.0
    ensures Sq(v) < 1.0
  {
  }

  lemma PitchCosine(v: real, a: Angle)
    requires Asin(v, a) && -0.99999 <= v <= 0.99999
    ensures a.c > 0.0 && Sq(a.c) == 1.0 - Sq(v)
  {
    hide Sq, Prod;
    BelowOne(v);
    NoSquareOfZero();
  }

  lemma AsinGives(v: real, a: Angle)
    requires Asin(v, a)
    ensures a.s == v
  {
  }

  /** Away from gimbal lock the decomposition gives these angles. */
  lemma RegularAngles(r: Mat3, a: Rpy)
    requires r.IsRotation() && IsRpyOf(r, a) && !GimbalLock(r)
    ensures a.pitch.c > 0.0 && a.pitch.s == -r.r2.x && Sq(a.pitch.c) == 1.0 - Sq(r.r2.x)
    ensures Scaled(a.pitch.c, a.roll, r.r2.z, r.r2.y) && Scaled(a.pitch.c, a.yaw, r.r0.x, r.r1.x)
  {
    hide Sq, Prod, Asin, Scaled, Mat3.IsRotation;
    AsinGives(-r.r2.x, a.pitch);
    PitchCosine(-r.r2.x, a.pitch);
    ReadAndUnread(r);
    OppositeSquare(r.r2.x);
    var c := a.pitch.c;
    QuotientSquares(r.r2.z, r.r2.y, c);
    QuotientSquares(r.r0.x, r.r1.x, c);
    NoSquareOfZero();
    var m: real :| m > 0.0 && r.r2.z / c == Prod(m, a.roll.c) && r.r2.y / c == Prod(m, a.roll.s);
    UnitRay(r.r2.y / c, r.r2.z / c, a.roll, m);
    var k: real :| k > 0.0 && r.r0.x / c == Prod(k, a.yaw.c) && r.r1.x / c == Prod(k, a.yaw.s);
    UnitRay(r.r1.x / c, r.r0.x / c, a.yaw, k);
    ScaledBack(c, a.roll, r.r2.z, r.r2.y);
    ScaledBack(c, a.yaw, r.r0.x, r.r1.x);
  }

  lemma ScaledBack(c: real, a: Angle, x: real, y: real)
    requires c > 0.0 && a == Angle(x / c, y / c)
    ensures Scaled(c, a, x, y)
  {
    Undivided(x, c, a.c);
    Undivided(y, c, a.s);
  }

  lemma UnitHasAngle(y: real, x: real)
    requires Sq(x) + Sq(y) == 1.0
    ensures Atan2(y, x, Angle(x, y))
  {
    hide Sq, Prod;
    NoSquareOfZero();
    OneTimes(x);
    OneTimes(y);
    assert x == Prod(1.0, x) && y == Prod(1.0, y);
  }

  /** Given the square root that the arcsine and the cosine of its result come down to, a rotation
      outside gimbal lock has a decomposition. */
  lemma DecompositionExists(r: Mat3, c: real)
    requires r.IsRotation() && !GimbalLock(r) && c > 0.0 && Sq(c) == 1.0 - Sq(r.r2.x)
    ensures IsRpyOf(r, Rpy(Angle(r.r2.z / c, r.r2.y / c), Angle(c, -r.r2.x), Angle(r.r0.x / c, r.r1.x / c)))
  {
    hide Sq, Prod, Atan2, Mat3.IsRotation;
    ReadAndUnread(r);
    OppositeSquare(r.r2.x);
    QuotientSquares(r.r2.z, r.r2.y, c);
    QuotientSquares(r.r0.x, r.r1.x, c);
    UnitHasAngle(r.r2.y / c, r.r2.z / c);
    UnitHasAngle(r.r1.x / c, r.r0.x / c);
  }

  lemma OppositeSquare(v: real)
    ensures Sq(-v) == Sq(v)
  {
  }

  lemma EntriesOfRow0(a: Rpy)
    ensures var (r0, roll, pitch, yaw) := (ToRotation(a).r0, a.roll, a.pitch, a.yaw);
            && r0.x == Prod(pitch.c, yaw.c)
            && r0.y == TwoProducts(yaw.c, pitch.s, roll.s, -yaw.s, roll.c)
            && r0.z == TwoProducts(yaw.c, pitch.s, roll.c, yaw.s, roll.s)
  {
  }

  lemma EntriesOfRow1(a: Rpy)
    ensures var (r1, roll, pitch, yaw) := (ToRotation(a).r1, a.roll, a.pitch, a.yaw);
            && r1.x == Prod(pitch.c, yaw.s)
            && r1.y == TwoProducts(yaw.s, pitch.s, roll.s, yaw.c, roll.c)
            && r1.z == TwoProducts(yaw.s, pitch.s, roll.c, -yaw.c, roll.s)
  {
  }

  lemma EntriesOfRow2(a: Rpy)
    ensures ToRotation(a).r2 == V3(-a.pitch.s, Prod(a.pitch.c, a.roll.s), Prod(a.pitch.c, a.roll.c))
  {
  }

  lemma Entries(a: Rpy)
    ensures var (roll, pitch, yaw) := (a.roll, a.pitch, a.yaw);
            ToRotation(a) ==
            Mat3(V3(Prod(pitch.c, yaw.c), TwoProducts(yaw.c, pitch.s, roll.s, -yaw.s, roll.c),
               TwoProducts(yaw.c, pitch.s, roll.c, yaw.s, roll.s)),
                 V3(Prod(pitch.c, yaw.s), TwoProducts(yaw.s, pitch.s, roll.s, yaw.c, roll.c),
               TwoProducts(yaw.s, pitch.s, roll.c, -yaw.c, roll.s)),
                 V3(-pitch.s, Prod(pitch.c, roll.s), Prod(pitch.c, roll.c)))
  {
    hide ToRotation, TwoProducts, Prod;
    EntriesOfRow0(a);
    EntriesOfRow1(a);
    EntriesOfRow2(a);
    var r := ToRotation(a);
    assert r == Mat3(V3(r.r0.x, r.r0.y, r.r0.z), V3(r.r1.x, r.r1.y, r.r1.z), r.r2);
  }

  /** Away from gimbal lock the angles always give the matrix back. */
  lemma RegularRoundTrip(r: Mat3, a: Rpy)
    requires r.IsRotation() && IsRpyOf(r, a) && !GimbalLock(r)
    ensures ToRotation(a) == r
  {
    hide Sq, Prod, TwoProducts, Mat3.IsRotation, IsRpyOf, ToRotation;
    RegularAngles(r, a);
    var c := a.pitch.c;
    UnreadEntries(r, c, a.yaw, a.roll);
    Entries(a);
    assert r == Mat3(V3(r.r0.x, r.r0.y, r.r0.z), V3(r.r1.x, r.r1.y, r.r1.z), V3(r.r2.x, r.r2.y, r.r2.z));
  }

  function Signed(e: real, x: real): real { if e > 0.0 then x else -x }

  /** In gimbal lock the angles give this matrix, whatever the matrix was. */
  lemma LockedMatrix(a: Rpy, e: real)
    requires a.pitch == Angle(0.0, e) && a.yaw == ZERO_ANGLE && (e == 1.0 || e == -1.0)
    ensures ToRotation(a) ==
            Mat3(V3(0.0, Signed(e, a.roll.s), Signed(e, a.roll.c)), V3(0.0, a.roll.c, -a.roll.s), V3(-e, 0.0, 0.0))
  {
  }

  /** A rotation with a first column along z. */
  lemma UprightRotation(r: Mat3)
    requires r.IsRotation() && (r.r2.x == 1.0 || r.r2.x == -1.0)
    ensures r.r2 == V3(r.r2.x, 0.0, 0.0) && r.r0.x == r.r1.x == 0.0
    ensures r.r0.y == r.r2.x * r.r1.z && r.r0.z == -r.r2.x * r.r1.y
    ensures Sq(r.r0.y) + Sq(r.r1.y) == 1.0
  {
    UprightZeros(r);
    UprightRest(r);
  }

  lemma UprightZeros(r: Mat3)
    requires r.IsRotation() && (r.r2.x == 1.0 || r.r2.x == -1.0)
    ensures r.r2 == V3(r.r2.x, 0.0, 0.0) && r.r0.x == r.r1.x == 0.0
  {
    hide Mat3.IsRotation, Sq;
    ReadAndUnread(r);
    SquareOfUnit(r.r2.x);
    SquareSign(r.r0.x);
    SquareSign(r.r1.x);
    SquareSign(r.r2.y);
    SquareSign(r.r2.z);
    assert r.r2 == V3(r.r2.x, r.r2.y, r.r2.z);
  }

  lemma SquareOfUnit(e: real)
    requires e == 1.0 || e == -1.0
    ensures Sq(e) == 1.0
  {
  }

  lemma UprightRest(r: Mat3)
    requires r.IsRotation() && (r.r2.x == 1.0 || r.r2.x == -1.0) && r.r2.y == r.r2.z == 0.0 && r.r1.x == 0.0
    ensures r.r0.y == r.r2.x * r.r1.z && r.r0.z == -r.r2.x * r.r1.y
    ensures Sq(r.r0.y) + Sq(r.r1.y) == 1.0
  {
    hide V3.Cross, Sq, V3.Norm2, V3.Dot;
    TransposeIsRotation(r);
    CofactorsOfRotation(r);
    CrossUpright(r.r1, r.r2.x);
    assert r.r2 == V3(r.r2.x, 0.0, 0.0);
    NormIs(r.T().r1);
    NoSquareOfZero();
  }

  lemma CrossUpright(v: V3, e: real)
    requires e == 1.0 || e == -1.0
    ensures v.Cross(V3(e, 0.0, 0.0)) == V3(0.0, e * v.z, -e * v.y)
  {
  }

  lemma LockedAngles(r: Mat3, a: Rpy)
    requires IsRpyOf(r, a) && GimbalLock(r)
    ensures a.pitch.c == 0.0 && a.yaw == ZERO_ANGLE
  {
  }

  lemma UnitRoll(r: Mat3, a: Rpy)
    requires IsRpyOf(r, a) && GimbalLock(r) && Sq(r.r0.y) + Sq(r.r1.y) == 1.0
    ensures a.roll == Angle(r.r1.y, -r.r0.y)
  {
    hide Sq, Prod;
    OppositeSquare(r.r0.y);
    NoSquareOfZero();
    var m: real :| m > 0.0 && r.r1.y == Prod(m, a.roll.c) && -r.r0.y == Prod(m, a.roll.s);
    UnitRay(-r.r0.y, r.r1.y, a.roll, m);
  }

  /** So has one whose first column is along z. */
  lemma UprightDecompositionExists(r: Mat3)
    requires r.IsRotation() && (r.r2.x == 1.0 || r.r2.x == -1.0)
    ensures IsRpyOf(r, Rpy(Angle(r.r1.y, -r.r0.y), Angle(0.0, -r.r2.x), ZERO_ANGLE))
  {
    hide Sq, Prod, Atan2, Mat3.IsRotation;
    UprightRotation(r);
    OppositeSquare(r.r0.y);
    UnitHasAngle(-r.r0.y, r.r1.y);
  }

  /** In gimbal lock they do so only at the poles, and at one of them only without R(0, 1). */
  lemma LockedRoundTrip(r: Mat3, a: Rpy)
    requires r.IsRotation() && IsRpyOf(r, a) && GimbalLock(r)
    ensures ToRotation(a) == r <==> r.r2.x == 1.0 || (r.r2.x == -1.0 && r.r0.y == 0.0)
  {
    hide Mat3.IsRotation, Sq, Atan2, ToRotation;
    var e := a.pitch.s;
    LockedMatrix(a, e);
    if r.r2.x == 1.0 || r.r2.x == -1.0 {
      UprightRotation(r);
      UnitRoll(r, a);
      assert r == Mat3(V3(0.0, r.r0.y, r.r0.z), V3(0.0, r.r1.y, r.r1.z), V3(r.r2.x, 0.0, 0.0));
    } else {
      assert ToRotation(a).r2.x == -e;
    }
  }

  /** The angles give the matrix back exactly when the sine of the pitch is within 0.99999 of zero,
      or it is -1, or it is 1 and the matrix has no entry R(0, 1). */
  lemma RotationRoundTripIff(r: Mat3, a: Rpy)
    requires r.IsRotation() && IsRpyOf(r, a)
    ensures ToRotation(a) == r <==> !GimbalLock(r) || r.r2.x == 1.0 || (r.r2.x == -1.0 && r.r0.y == 0.0)
  {
    hide IsRpyOf, Mat3.IsRotation, ToRotation;
    if GimbalLock(r) {
      LockedRoundTrip(r, a);
    } else {
      RegularRoundTrip(r, a);
    }
  }

  const UPRIGHT := Mat3(V3(0.0, 1.0, 0.0), V3(0.0, 0.0, -1.0), V3(-1.0, 0.0, 0.0))

  /** A rotation that comes back as another one. */
  lemma GimbalExample()
    ensures UPRIGHT.IsRotation()
    ensures var a := Rpy(Angle(0.0, -1.0), Angle(0.0, 1.0), ZERO_ANGLE);
            && IsRpyOf(UPRIGHT, a)
            && ToRotation(a) == Mat3(V3(0.0, -1.0, 0.0), V3(0.0, 0.0, 1.0), V3(-1.0, 0.0, 0.0))
  {
    hide IsRpyOf, ToRotation, Mat3.IsRotation;
    ExampleIsRotation();
    UprightDecompositionExists(UPRIGHT);
    LockedMatrix(Rpy(Angle(0.0, -1.0), Angle(0.0, 1.0), ZERO_ANGLE), 1.0);
  }

  lemma ExampleIsRotation()
    ensures UPRIGHT.IsRotation()
  {
  }

  // ---------- From angles to a matrix and back ----------

  lemma SameRoot(a: real, b: real)
    requires a > 0.0 && b > 0.0 && Sq(a) == Sq(b)
    ensures a == b
  {
  }

  lemma SameAngle(c: real, a: Angle, b: Angle, x: real, y: real)
    requires c > 0.0 && Scaled(c, a, x, y) && Scaled(c, b, x, y)
    ensures a == b
  {
  }

  /** Away from gimbal lock the matrix gives back the angles of a pitch between its poles. */
  lemma RegularAnglesRoundTrip(a: Rpy, b: Rpy)
    requires a.Valid() && IsRpyOf(ToRotation(a), b) && !GimbalLock(ToRotation(a))
    ensures b == a <==> a.pitch.c > 0.0
  {
    hide Sq, Prod, TwoProducts, Mat3.IsRotation, IsRpyOf, ToRotation;
    var r := ToRotation(a);
    EveryRpyIsARotation(a);
    RegularAngles(r, b);
    Entries(a);
    OppositeSquare(a.pitch.s);
    if a.pitch.c > 0.0 {
      SameRoot(a.pitch.c, b.pitch.c);
      SameAngle(a.pitch.c, a.roll, b.roll, r.r2.z, r.r2.y);
      SameAngle(a.pitch.c, a.yaw, b.yaw, r.r0.x, r.r1.x);
    }
  }

  lemma PoleRoundTrip(a: Rpy, b: Rpy)
    requires a.roll.OnCircle() && (a.pitch == Angle(0.0, 1.0) || a.pitch == Angle(0.0, -1.0)) && a.yaw == ZERO_ANGLE
    requires IsRpyOf(ToRotation(a), b)
    ensures b == a <==> a.pitch.s == -1.0 || a.roll.s == 0.0
  {
    hide Sq, Prod, Atan2, ToRotation;
    LockedMatrix(a, a.pitch.s);
    OppositeSquare(a.roll.s);
    UnitRoll(ToRotation(a), b);
    assert a.roll == Angle(a.roll.c, a.roll.s);
  }

  lemma AtPole(a: Angle)
    requires a.OnCircle() && a.c == 0.0
    ensures a == Angle(0.0, 1.0) || a == Angle(0.0, -1.0)
  {
    hide Sq;
    NoSquareOfZero();
    UnitSquare(a.s);
    assert a == Angle(a.c, a.s);
  }

  lemma UnitSquare(e: real)
    requires Sq(e) == 1.0
    ensures e == 1.0 || e == -1.0
  {
  }

  lemma FirstOfLastRow(a: Rpy)
    ensures ToRotation(a).r2.x == -a.pitch.s
  {
  }

  lemma ValidParts(a: Rpy)
    requires a.Valid()
    ensures a.roll.OnCircle() && a.pitch.OnCircle()
  {
  }

  /** The matrix gives the angles back exactly when the pitch is strictly between its poles and
      outside the program's margin, or it is at a pole, there is no yaw, and at the upper pole no
      sine of roll. */
  lemma AnglesRoundTripIff(a: Rpy, b: Rpy)
    requires a.Valid() && IsRpyOf(ToRotation(a), b)
    ensures b == a <==> if -0.99999 <= a.pitch.s <= 0.99999 then a.pitch.c > 0.0
                        else a.pitch.c == 0.0 && a.yaw == ZERO_ANGLE && (a.pitch.s == -1.0 || a.roll.s == 0.0)
  {
    hide IsRpyOf, Rpy.Valid, Sq, Prod, ToRotation, Angle.OnCircle;
    FirstOfLastRow(a);
    if GimbalLock(ToRotation(a)) {
      LockedAngles(ToRotation(a), b);
      if a.pitch.c == 0.0 && a.yaw == ZERO_ANGLE {
        ValidParts(a);
        AtPole(a.pitch);
        PoleRoundTrip(a, b);
      }
    } else {
      RegularAnglesRoundTrip(a, b);
    }
  }

  /** Away from gimbal lock a rotation has one decomposition. */
  lemma OneDecomposition(r: Mat3, a: Rpy, b: Rpy)
    requires r.IsRotation() && !GimbalLock(r) && IsRpyOf(r, a) && IsRpyOf(r, b)
    ensures a == b
  {
    hide ToRotation, Mat3.IsRotation;
    RegularRoundTrip(r, a);
    RegularAngles(r, a);
    RegularAnglesRoundTrip(a, b);
  }
}
