/**
 * The teleoperation node as an object: its configuration, fixed at start-up,
 * and the command buffer the callback overwrites and publishes. A callback
 * leaves a trace of what went out: one published command, then at most one
 * head service call with whatever the service answered.
 */
module TeleopNode {

  import opened Wrappers
  import opened Messages
  import opened TeleopConfig
  import opened Teleop

  /** What the head service call came back with; the status is only logged. */
  datatype CallOutcome = Answered(status: int) | CallFailed

  datatype Effect = Publish(cmd: Twist) | HeadCall(position: HeadPos, outcome: CallOutcome)

  datatype Node = Node(cfg: Config, cmd: Twist)

  /** The constructor: parameters over defaults, and an all-zero command buffer. */
  function Init(ints: map<string, Int32>, reals: map<string, real>): (n: Node)
    ensures n.cfg == Load(ints, reals)
    ensures n.cmd.linear == Vector3(0.0, 0.0, 0.0) && n.cmd.angular == Vector3(0.0, 0.0, 0.0)
  {
    Node(Load(ints, reals), ZeroTwist)
  }

  /**
   * The joystick callback. `service` stands for the head service: the answer
   * it would give to a request for each position. The command is written and
   * published before the service is consulted, and the answer is not acted on.
   */
  function Callback(n: Node, joy: Joy, service: HeadPos -> CallOutcome): (r: (Node, seq<Effect>))
    requires Readable(n.cfg, joy)
    ensures r.0.cfg == n.cfg
    ensures r.0.cmd == Step(n.cfg, joy).0
    ensures 1 <= |r.1| <= 2 && r.1[0] == Publish(r.0.cmd)
    ensures |r.1| == 2 <==> Step(n.cfg, joy).1.Some?
    ensures |r.1| == 2 ==> r.1[1] == HeadCall(Step(n.cfg, joy).1.value, service(Step(n.cfg, joy).1.value))
  {
    var (cmd, head) := Step(n.cfg, joy);
    var published := [Publish(cmd)];
    match head
    case None => (Node(n.cfg, cmd), published)
    case Some(p) => (Node(n.cfg, cmd), published + [HeadCall(p, service(p))])
  }

  /**
   * The previous command and the service's behaviour have no influence on
   * the new command: two nodes with the same configuration, whatever their
   * buffers, end in the same state and publish the same command, whatever
   * the service answers.
   */
  lemma CallbackForgetsHistory(n1: Node, n2: Node, joy: Joy, s1: HeadPos -> CallOutcome, s2: HeadPos -> CallOutcome)
    requires n1.cfg == n2.cfg && Readable(n1.cfg, joy)
    ensures Callback(n1, joy, s1).0 == Callback(n2, joy, s2).0
    ensures Callback(n1, joy, s1).1[0] == Callback(n2, joy, s2).1[0]
    ensures |Callback(n1, joy, s1).1| == |Callback(n2, joy, s2).1|
  {
  }

  /**
   * A repeated event is not deduplicated: the second callback leaves the node
   * as the first did, publishes the same command again and asks for the same
   * head position again. The service may answer the two calls differently.
   */
  lemma RepeatedEventRepeatsOutput(n: Node, joy: Joy, s1: HeadPos -> CallOutcome, s2: HeadPos -> CallOutcome)
    requires Readable(n.cfg, joy)
    ensures var (n1, e1) := Callback(n, joy, s1);
      && Readable(n1.cfg, joy)
      && var (n2, e2) := Callback(n1, joy, s2);
         && n2 == n1
         && e2[0] == e1[0]
         && |e2| == |e1|
         && (|e1| == 2 ==> e2[1].position == e1[1].position && e2[1].outcome == s2(e1[1].position))
  {
  }

  /** The published commands of a trace, in order. */
  function Commands(trace: seq<Effect>): seq<Twist>
    decreases |trace|
  {
    if |trace| == 0 then []
    else (if trace[0].Publish? then [trace[0].cmd] else []) + Commands(trace[1..])
  }

  /** The head service calls of a trace, in order. */
  function Calls(trace: seq<Effect>): seq<Effect>
    decreases |trace|
  {
    if |trace| == 0 then []
    else (if trace[0].HeadCall? then [trace[0]] else []) + Calls(trace[1..])
  }

  lemma {:induction false} FiltersAppend(a: seq<Effect>, b: seq<Effect>)
    ensures Commands(a + b) == Commands(a) + Commands(b)
    ensures Calls(a + b) == Calls(a) + Calls(b)
    decreases |a|
  {
    if |a| > 0 {
      assert (a + b)[1..] == a[1..] + b;
      FiltersAppend(a[1..], b);
    } else {
      assert a + b == b;
    }
  }

  /**
   * The head calls a sequence of events should cause, in order: one for each
   * event whose step chooses a position, carrying the answer of the service
   * in force for that event.
   */
  function ExpectedCalls(cfg: Config, events: seq<Joy>, services: seq<HeadPos -> CallOutcome>): (calls: seq<Effect>)
    requires |services| == |events|
    requires forall k :: 0 <= k < |events| ==> Readable(cfg, events[k])
    ensures |calls| <= |events|
    ensures forall i :: 0 <= i < |calls| ==> calls[i].HeadCall?
    decreases |events|
  {
    if |events| == 0 then []
    else
      (match Step(cfg, events[0]).1
       case None => []
       case Some(p) => [HeadCall(p, services[0](p))])
      + ExpectedCalls(cfg, events[1..], services[1..])
  }

  /** The commands a sequence of events should publish: event k's command in position k. */
  function Commanded(cfg: Config, events: seq<Joy>): (cmds: seq<Twist>)
    requires forall k :: 0 <= k < |events| ==> Readable(cfg, events[k])
    ensures |cmds| == |events|
    ensures forall k :: 0 <= k < |events| ==> cmds[k] == Step(cfg, events[k]).0
  {
    seq(|events|, k requires 0 <= k < |events| => Step(cfg, events[k]).0)
  }

  lemma CommandedCons(cfg: Config, events: seq<Joy>)
    requires 0 < |events|
    requires forall k :: 0 <= k < |events| ==> Readable(cfg, events[k])
    ensures Commanded(cfg, events) == [Step(cfg, events[0]).0] + Commanded(cfg, events[1..])
  {
    var rest := Commanded(cfg, events[1..]);
    forall k | 1 <= k < |events|
      ensures Commanded(cfg, events)[k] == rest[k - 1]
    {
      assert events[1..][k - 1] == events[k];
    }
  }

  /** One callback's trace publishes the step's command and calls the service for the step's position, if any. */
  lemma CallbackFilters(n: Node, joy: Joy, service: HeadPos -> CallOutcome)
    requires Readable(n.cfg, joy)
    ensures Commands(Callback(n, joy, service).1) == [Step(n.cfg, joy).0]
    ensures Calls(Callback(n, joy, service).1) == ExpectedCalls(n.cfg, [joy], [service])
  {
    var e := Callback(n, joy, service).1;
    assert ExpectedCalls(n.cfg, [joy], [service]) ==
      (match Step(n.cfg, joy).1
       case None => []
       case Some(p) => [HeadCall(p, service(p))]) + ExpectedCalls(n.cfg, [], []) by {
      assert [joy][1..] == [] && [service][1..] == [];
    }
    if |e| == 2 {
      assert e[1..][0] == e[1] && e[1..][1..] == [];
      assert Commands(e[1..]) == [] && Calls(e[1..]) == [e[1]];
    } else {
      assert e[1..] == [];
      assert Commands(e[1..]) == [] && Calls(e[1..]) == [];
    }
  }

  /**
   * A sequence of events delivered one at a time, as the spin loop does, with
   * `services[k]` standing for the head service while event k is handled.
   * The configuration never changes, the trace opens with the first event's
   * command and the buffer ends holding the last event's command.
   */
  function Run(n: Node, events: seq<Joy>, services: seq<HeadPos -> CallOutcome>): (r: (Node, seq<Effect>))
    requires |services| == |events|
    requires forall k :: 0 <= k < |events| ==> Readable(n.cfg, events[k])
    ensures r.0.cfg == n.cfg
    ensures |events| == 0 ==> r == (n, [])
    ensures |events| <= |r.1| <= 2 * |events|
    ensures |events| > 0 ==> r.1[0] == Publish(Step(n.cfg, events[0]).0)
    ensures |events| > 0 ==> r.0.cmd == Step(n.cfg, events[|events| - 1]).0
    decreases |events|
  {
    if |events| == 0 then (n, [])
    else
      var first := Callback(n, events[0], services[0]);
      var rest := Run(first.0, events[1..], services[1..]);
      (rest.0, first.1 + rest.1)
  }

  /** `Run` is one callback followed by the run of the remaining events. */
  lemma RunCons(n: Node, events: seq<Joy>, services: seq<HeadPos -> CallOutcome>)
    requires 0 < |services| == |events|
    requires forall k :: 0 <= k < |events| ==> Readable(n.cfg, events[k])
    ensures var first := Callback(n, events[0], services[0]);
      && (forall k :: 0 <= k < |events[1..]| ==> Readable(first.0.cfg, events[1..][k]))
      && Run(n, events, services).1 == first.1 + Run(first.0, events[1..], services[1..]).1
  {
  }

  /** Exactly one command is published per event: the k-th published command is event k's command. */
  lemma {:induction false} RunPublishesEachCommand(n: Node, events: seq<Joy>, services: seq<HeadPos -> CallOutcome>)
    requires |services| == |events|
    requires forall k :: 0 <= k < |events| ==> Readable(n.cfg, events[k])
    ensures Commands(Run(n, events, services).1) == Commanded(n.cfg, events)
    decreases |events|
  {
    if |events| > 0 {
      var first := Callback(n, events[0], services[0]);
      RunCons(n, events, services);
      RunPublishesEachCommand(first.0, events[1..], services[1..]);
      CallbackFilters(n, events[0], services[0]);
      FiltersAppend(first.1, Run(first.0, events[1..], services[1..]).1);
      CommandedCons(n.cfg, events);
    }
  }

  /** The head calls of a run are, in order, those its events choose, each with its event's service answer. */
  lemma {:induction false} RunCallsInOrder(n: Node, events: seq<Joy>, services: seq<HeadPos -> CallOutcome>)
    requires |services| == |events|
    requires forall k :: 0 <= k < |events| ==> Readable(n.cfg, events[k])
    ensures Calls(Run(n, events, services).1) == ExpectedCalls(n.cfg, events, services)
    decreases |events|
  {
    if |events| > 0 {
      var first := Callback(n, events[0], services[0]);
      RunCons(n, events, services);
      RunCallsInOrder(first.0, events[1..], services[1..]);
      CallbackFilters(n, events[0], services[0]);
      FiltersAppend(first.1, Run(first.0, events[1..], services[1..]).1);
      assert ExpectedCalls(n.cfg, events, services)
        == ExpectedCalls(n.cfg, [events[0]], [services[0]]) + ExpectedCalls(n.cfg, events[1..], services[1..]) by {
        assert [events[0]][1..] == [] && [services[0]][1..] == [];
      }
    }
  }

  /** The head request of the default configuration's DOWN button, whose call fails, still follows the published command. */
  lemma DownWithFailingServiceExample()
    ensures var joy := Joy([0.0, 0.0, 0.0], [0, 1, 0, 0]);
      && Readable(DefaultConfig, joy)
      && var n := Init(map[], map[]);
         Callback(n, joy, _ => CallFailed).1
         == [Publish(ZeroTwist), HeadCall(Down, CallFailed)]
  {
  }
}
