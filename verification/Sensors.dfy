/** The messages the LiDAR-inertial node works on. */
module Sensors {

  datatype V3 = V3(x: real, y: real, z: real) {
    function Plus(o: V3): V3 { V3(x + o.x, y + o.y, z + o.z) }
    function Minus(o: V3): V3 { V3(x - o.x, y - o.y, z - o.z) }
    function Scaled(c: real): V3 { V3(c * x, c * y, c * z) }
    function Dot(o: V3): real { x * o.x + y * o.y + z * o.z }
    function Cross(o: V3): V3 { V3(y * o.z - z * o.y, z * o.x - x * o.z, x * o.y - y * o.x) }
    function Norm2(): real { Dot(this) }
    function At(axis: nat): real { if axis == 0 then x else if axis == 1 then y else z }
  }

  datatype Imu = Imu(stamp: real, acc: V3, gyr: V3)

  /** One LiDAR return; `curvature` holds its time offset in the scan, in milliseconds. */
  datatype Point = Point(pos: V3, intensity: real, curvature: real)

  type Scan = seq<Point>

  /** One scan with the inertial samples that belong to it. */
  datatype Group = Group(lidar: Scan, begTime: real, endTime: real, imu: seq<Imu>)

  /** Stamps never go back. */
  ghost predicate Ordered(imu: seq<Imu>) {
    forall i, j :: 0 <= i < j < |imu| ==> imu[i].stamp <= imu[j].stamp
  }

  ghost predicate AllAtMost(imu: seq<Imu>, t: real) {
    forall i :: 0 <= i < |imu| ==> imu[i].stamp <= t
  }

  ghost predicate AllAtLeast(imu: seq<Imu>, t: real) {
    forall i :: 0 <= i < |imu| ==> t <= imu[i].stamp
  }
}
