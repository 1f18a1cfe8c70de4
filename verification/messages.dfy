/**
 * The message types the teleoperation node exchanges with the middleware:
 * the joystick event it receives, the velocity command it publishes and the
 * head position it requests.
 */
module Messages {

  /** A C `int` / ROS `int32`: configured indices and joystick button states. */
  type Int32 = x: int | -0x8000_0000 <= x < 0x8000_0000

  /** A `geometry_msgs/Vector3`; doubles are modelled as reals. */
  datatype Vector3 = Vector3(x: real, y: real, z: real)

  /** A `geometry_msgs/Twist`: linear and angular velocity. */
  datatype Twist = Twist(linear: Vector3, angular: Vector3)

  /** The all-zero command the node starts from. */
  const ZeroTwist: Twist := Twist(Vector3(0.0, 0.0, 0.0), Vector3(0.0, 0.0, 0.0))

  /** A joystick event: axis values (floats, modelled as reals) and button states. */
  datatype Joy = Joy(axes: seq<real>, buttons: seq<Int32>)

  /** The three positions of the head service request. */
  datatype HeadPos = Down | Mid | Up
}
