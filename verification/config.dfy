/**
 * The nine settings of the teleoperation node, their built-in defaults and
 * the start-up rule "take the parameter if the server has it, else keep the
 * default".
 */
module TeleopConfig {

  import opened Messages

  datatype Config = Config(
    axisLinearX: Int32, axisLinearY: Int32, axisAngular: Int32,
    scaleLinearX: real, scaleLinearY: real, scaleAngular: real,
    buttonHeadDown: Int32, buttonHeadMid: Int32, buttonHeadUp: Int32)

  /** The initialiser-list values of the node's constructor. */
  const DefaultConfig: Config := Config(1, 0, 2, 1.0, -1.0, -1.0, 1, 2, 3)

  /** Names of the integer parameters, read with `param<int>`. */
  const IntParamNames: set<string> :=
    {"axis_linearx", "axis_lineary", "axis_angular",
     "button_head_down", "button_head_mid", "button_head_up"}

  /** Names of the floating-point parameters, read with `param<double>`. */
  const RealParamNames: set<string> := {"scale_linearx", "scale_lineary", "scale_angular"}

  /** One `param(name, field, field)` call: the server's answer if it has one, else the default. */
  function Param<T>(answers: map<string, T>, name: string, default: T): T
  {
    if name in answers then answers[name] else default
  }

  /**
   * The constructor's configuration. `ints` and `reals` are the answers the
   * parameter server gives to the integer and floating-point lookups; a
   * name it does not answer keeps its default.
   */
  function Load(ints: map<string, Int32>, reals: map<string, real>): (c: Config)
    ensures c.axisLinearX == (if "axis_linearx" in ints then ints["axis_linearx"] else 1)
    ensures c.axisLinearY == (if "axis_lineary" in ints then ints["axis_lineary"] else 0)
    ensures c.axisAngular == (if "axis_angular" in ints then ints["axis_angular"] else 2)
    ensures c.scaleLinearX == (if "scale_linearx" in reals then reals["scale_linearx"] else 1.0)
    ensures c.scaleLinearY == (if "scale_lineary" in reals then reals["scale_lineary"] else -1.0)
    ensures c.scaleAngular == (if "scale_angular" in reals then reals["scale_angular"] else -1.0)
    ensures c.buttonHeadDown == (if "button_head_down" in ints then ints["button_head_down"] else 1)
    ensures c.buttonHeadMid == (if "button_head_mid" in ints then ints["button_head_mid"] else 2)
    ensures c.buttonHeadUp == (if "button_head_up" in ints then ints["button_head_up"] else 3)
  {
    var d := DefaultConfig;
    Config(
      Param(ints, "axis_linearx", d.axisLinearX),
      Param(ints, "axis_lineary", d.axisLinearY),
      Param(ints, "axis_angular", d.axisAngular),
      Param(reals, "scale_linearx", d.scaleLinearX),
      Param(reals, "scale_lineary", d.scaleLinearY),
      Param(reals, "scale_angular", d.scaleAngular),
      Param(ints, "button_head_down", d.buttonHeadDown),
      Param(ints, "button_head_mid", d.buttonHeadMid),
      Param(ints, "button_head_up", d.buttonHeadUp))
  }

  /** With no parameters set the node runs on its defaults: axes (1, 0, 2), scales (1, -1, -1), buttons (1, 2, 3). */
  lemma LoadWithoutParametersIsDefault()
    ensures Load(map[], map[]) == DefaultConfig
    ensures var c := Load(map[], map[]);
      && (c.axisLinearX, c.axisLinearY, c.axisAngular) == (1, 0, 2)
      && (c.scaleLinearX, c.scaleLinearY, c.scaleAngular) == (1.0, -1.0, -1.0)
      && (c.buttonHeadDown, c.buttonHeadMid, c.buttonHeadUp) == (1, 2, 3)
  {
  }

  /** Only the nine parameter names, each under its own type, influence the configuration. */
  lemma LoadReadsOnlyItsOwnNames(ints1: map<string, Int32>, reals1: map<string, real>,
                                 ints2: map<string, Int32>, reals2: map<string, real>)
    requires forall name :: name in IntParamNames ==>
      (name in ints1 <==> name in ints2) && (name in ints1 ==> ints1[name] == ints2[name])
    requires forall name :: name in RealParamNames ==>
      (name in reals1 <==> name in reals2) && (name in reals1 ==> reals1[name] == reals2[name])
    ensures Load(ints1, reals1) == Load(ints2, reals2)
  {
  }
}
