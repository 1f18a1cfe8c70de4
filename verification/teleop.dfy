/**
 * The joystick callback of the Rovio teleoperation node as one pure step:
 * a joystick event and the configuration give the velocity command to
 * publish and the head position to request, if any.
 */
module Teleop {

  import opened Wrappers
  import opened Messages
  import opened TeleopConfig

  /** `s[i]` is a defined read: the C++ callback indexes `std::vector`s without bounds checks. */
  predicate InRange<T>(s: seq<T>, i: int) {
    0 <= i < |s|
  }

  /** The three axis reads of the callback are defined. */
  predicate AxesReadable(cfg: Config, axes: seq<real>) {
    && InRange(axes, cfg.axisLinearX)
    && InRange(axes, cfg.axisLinearY)
    && InRange(axes, cfg.axisAngular)
  }

  /**
   * The button reads of the callback are defined. The else-if chain reads
   * the MID button only when DOWN did not fire, and the UP button only when
   * neither DOWN nor MID fired.
   */
  predicate HeadButtonsReadable(cfg: Config, buttons: seq<Int32>) {
    && InRange(buttons, cfg.buttonHeadDown)
    && (buttons[cfg.buttonHeadDown] != 1 ==>
          && InRange(buttons, cfg.buttonHeadMid)
          && (buttons[cfg.buttonHeadMid] != 1 ==> InRange(buttons, cfg.buttonHeadUp)))
  }

  /** Every read the callback makes of this event is defined. */
  predicate Readable(cfg: Config, joy: Joy) {
    AxesReadable(cfg, joy.axes) && HeadButtonsReadable(cfg, joy.buttons)
  }

  /** All six fields of the command, computed from the event alone. */
  function Velocity(cfg: Config, axes: seq<real>): Twist
    requires AxesReadable(cfg, axes)
  {
    Twist(
      Vector3(axes[cfg.axisLinearX] * cfg.scaleLinearX, axes[cfg.axisLinearY] * cfg.scaleLinearY, 0.0),
      Vector3(0.0, 0.0, axes[cfg.axisAngular] * cfg.scaleAngular))
  }

  /** The else-if chain over the three head buttons; a button fires only on the value 1. */
  function HeadRequest(cfg: Config, buttons: seq<Int32>): Option<HeadPos>
    requires HeadButtonsReadable(cfg, buttons)
  {
    if buttons[cfg.buttonHeadDown] == 1 then Some(Down)
    else if buttons[cfg.buttonHeadMid] == 1 then Some(Mid)
    else if buttons[cfg.buttonHeadUp] == 1 then Some(Up)
    else None
  }

  /**
   * One joystick event: the command to publish and the head request to send.
   * The three computed fields are the configured axes times their scales,
   * the other three are zero, and at most one head position is requested,
   * DOWN before MID before UP.
   */
  function Step(cfg: Config, joy: Joy): (r: (Twist, Option<HeadPos>))
    requires Readable(cfg, joy)
    ensures r.0.linear.x == joy.axes[cfg.axisLinearX] * cfg.scaleLinearX
    ensures r.0.linear.y == joy.axes[cfg.axisLinearY] * cfg.scaleLinearY
    ensures r.0.angular.z == joy.axes[cfg.axisAngular] * cfg.scaleAngular
    ensures r.0.linear.z == 0.0 && r.0.angular.x == 0.0 && r.0.angular.y == 0.0
    ensures r.1 == Some(Down) <==> joy.buttons[cfg.buttonHeadDown] == 1
    ensures r.1 == Some(Mid) <==>
      joy.buttons[cfg.buttonHeadDown] != 1 && joy.buttons[cfg.buttonHeadMid] == 1
    ensures r.1 == Some(Up) <==>
      && joy.buttons[cfg.buttonHeadDown] != 1
      && joy.buttons[cfg.buttonHeadMid] != 1
      && joy.buttons[cfg.buttonHeadUp] == 1
    ensures r.1 == None <==>
      && joy.buttons[cfg.buttonHeadDown] != 1
      && joy.buttons[cfg.buttonHeadMid] != 1
      && joy.buttons[cfg.buttonHeadUp] != 1
  {
    (Velocity(cfg, joy.axes), HeadRequest(cfg, joy.buttons))
  }

  /** The command does not depend on the buttons, nor the head request on the axes. */
  lemma StepPartsAreIndependent(cfg: Config, joy1: Joy, joy2: Joy)
    requires Readable(cfg, joy1) && Readable(cfg, joy2)
    ensures joy1.axes == joy2.axes ==> Step(cfg, joy1).0 == Step(cfg, joy2).0
    ensures joy1.buttons == joy2.buttons ==> Step(cfg, joy1).1 == Step(cfg, joy2).1
  {
  }

  /**
   * Two events give the same command if and only if they agree on the three
   * configured axes, provided no scale is zero: the command loses nothing
   * of those axes and sees nothing else.
   */
  lemma VelocityDeterminedByConfiguredAxes(cfg: Config, joy1: Joy, joy2: Joy)
    requires Readable(cfg, joy1) && Readable(cfg, joy2)
    requires cfg.scaleLinearX != 0.0 && cfg.scaleLinearY != 0.0 && cfg.scaleAngular != 0.0
    ensures Step(cfg, joy1).0 == Step(cfg, joy2).0 <==>
      && joy1.axes[cfg.axisLinearX] == joy2.axes[cfg.axisLinearX]
      && joy1.axes[cfg.axisLinearY] == joy2.axes[cfg.axisLinearY]
      && joy1.axes[cfg.axisAngular] == joy2.axes[cfg.axisAngular]
  {
  }

  /**
   * A pressed DOWN button settles the request on its own: the MID and UP
   * indices need not even be in range, and their values do not matter.
   */
  lemma DownPressedWins(cfg: Config, joy: Joy)
    requires AxesReadable(cfg, joy.axes)
    requires InRange(joy.buttons, cfg.buttonHeadDown) && joy.buttons[cfg.buttonHeadDown] == 1
    ensures Readable(cfg, joy)
    ensures Step(cfg, joy).1 == Some(Down)
  {
  }

  /**
   * Only whether a button equals exactly 1 matters: events whose buttons
   * agree on "is 1" everywhere ask for the same head position, and the
   * second is readable whenever the first is.
   */
  lemma OnlyValueOneTriggers(cfg: Config, joy1: Joy, joy2: Joy)
    requires Readable(cfg, joy1) && AxesReadable(cfg, joy2.axes)
    requires |joy1.buttons| == |joy2.buttons|
    requires forall i :: 0 <= i < |joy1.buttons| ==> (joy1.buttons[i] == 1 <==> joy2.buttons[i] == 1)
    ensures Readable(cfg, joy2)
    ensures Step(cfg, joy1).1 == Step(cfg, joy2).1
  {
  }

  /**
   * The default scales follow the robot's right-handed frame (X forward,
   * Y right, Z down): the forward axis passes through, the sideways and
   * turning axes are inverted.
   */
  lemma DefaultFollowsRobotFrame(joy: Joy)
    requires |joy.axes| >= 3 && InRange(joy.buttons, 1)
    requires joy.buttons[1] != 1 ==> |joy.buttons| >= 3 && (joy.buttons[2] != 1 ==> |joy.buttons| >= 4)
    ensures Readable(DefaultConfig, joy)
    ensures Step(DefaultConfig, joy).0.linear.x == joy.axes[1]
    ensures Step(DefaultConfig, joy).0.linear.y == -joy.axes[0]
    ensures Step(DefaultConfig, joy).0.angular.z == -joy.axes[2]
  {
  }

  /** With the defaults, axes (0.5, 0.8, -0.3) and no button pressed give (0.8, -0.5, 0.3) and no request. */
  lemma DefaultExample()
    ensures var joy := Joy([0.5, 0.8, -0.3], [0, 0, 0, 0]);
      && Readable(DefaultConfig, joy)
      && Step(DefaultConfig, joy)
         == (Twist(Vector3(0.8, -0.5, 0.0), Vector3(0.0, 0.0, 0.3)), None)
  {
  }

  /** With the defaults, button 1 requests DOWN even when buttons 2 and 3 are pressed too. */
  lemma DefaultDownExample()
    ensures var joy := Joy([0.0, 0.0, 0.0], [0, 1, 1, 1]);
      && Readable(DefaultConfig, joy)
      && Step(DefaultConfig, joy).1 == Some(Down)
  {
  }
}
