# Rovio teleoperation: joystick-to-command mapping

A Dafny model of the `TeleopRovio` node of the WowWee Rovio teleoperation
package. On every joystick event the node writes a velocity command
(`geometry_msgs/Twist`) from three configured axes and their scales, publishes
it, and then checks three configured head buttons in the order DOWN, MID, UP.
The first one whose state is exactly 1 makes the node ask the `head_position`
service for that position.

Files and modules:

- `wrappers.dfy` (`Wrappers`): the `Option` type for the optional head request.
- `messages.dfy` (`Messages`): `Joy`, `Twist`/`Vector3`, `HeadPos`, and the 32-bit `Int32` of C `int`.
- `config.dfy` (`TeleopConfig`): the nine settings, their defaults, and start-up loading ("parameter if present, else default").
- `teleop.dfy` (`Teleop`): the callback as one pure `Step(cfg, joy) -> (Twist, Option<HeadPos>)`. Its preconditions are the index reads the callback makes without checks, including the short-circuit of the else-if chain.
- `priority.dfy` (`Priority`): an independent definition of the head dispatch as a scan of an ordered table of (button, position) bindings, with proofs that it agrees with the else-if chain.
- `node.dfy` (`TeleopNode`): the node object. It holds a configuration and the command buffer, and each callback leaves a trace: one `Publish`, then at most one `HeadCall` carrying the service's answer. `Run` feeds it a sequence of events.

The source indexes `std::vector`s with `int` indices and no bounds checks, so an
out-of-range or negative index is undefined behaviour. The model makes every such
read a precondition (`Teleop.Readable`) and does not invent a validation the
code lacks. The MID button must be in range only when DOWN is not 1. The UP
button must be in range only when neither DOWN nor MID is 1.

Facts about the C++ callback that the model keeps:

- A button counts as pressed only when its value is exactly 1. Other non-zero values do not count.
- The head service writes its status into the node's `head_srv_` member, and the callback only logs it. The model keeps no status.
- Indices are not validated.

## Model

| member | source | states |
|---|---|---|
| TeleopConfig.Load | rovio/rovio_teleop/src/rovio_teleop.cpp:48-71 | each of the nine settings is the parameter server's answer under its own name when there is one, else its constructor default |
| TeleopConfig.LoadWithoutParametersIsDefault | rovio/rovio_teleop/src/rovio_teleop.cpp:48-57 | with no parameters the axes are (1, 0, 2), the scales (1.0, -1.0, -1.0) and the head buttons (1, 2, 3) |
| TeleopConfig.LoadReadsOnlyItsOwnNames | rovio/rovio_teleop/src/rovio_teleop.cpp:62-71 | only the six integer and three floating-point parameter names influence the configuration |
| Teleop.Step | rovio/rovio_teleop/src/rovio_teleop.cpp:101-148 | linear.x, linear.y and angular.z are the configured axes times their scales; linear.z, angular.x and angular.y are 0; DOWN iff the down button is 1, MID iff down is not 1 and mid is 1, UP iff neither is 1 and up is 1, no request iff none of the three is 1 |
| Teleop.StepPartsAreIndependent | rovio/rovio_teleop/src/rovio_teleop.cpp:103-112 | the command is determined by the axes alone and the head request by the buttons alone |
| Teleop.VelocityDeterminedByConfiguredAxes | rovio/rovio_teleop/src/rovio_teleop.cpp:103-108 | with non-zero scales two events give the same command exactly when they agree on the three configured axes |
| Teleop.DownPressedWins | rovio/rovio_teleop/src/rovio_teleop.cpp:112-125 | a DOWN button equal to 1 yields DOWN whatever the other buttons hold, and even when the MID and UP indices are out of range |
| Teleop.OnlyValueOneTriggers | rovio/rovio_teleop/src/rovio_teleop.cpp:112-137 | events whose buttons agree on "equals 1" at every index are equally readable and yield the same head request |
| Teleop.DefaultFollowsRobotFrame | rovio/rovio_teleop/src/rovio_teleop.cpp:52-88 | with the default scales set at lines 52-54, forward passes through and the sideways and turning axes are negated into the X-forward, Y-right, Z-down frame |
| Teleop.DefaultExample | rovio/rovio_teleop/src/rovio_teleop.cpp:103-108 | defaults with axes (0.5, 0.8, -0.3) and no button pressed give linear (0.8, -0.5, 0), angular (0, 0, 0.3) and no head request |
| Teleop.DefaultDownExample | rovio/rovio_teleop/src/rovio_teleop.cpp:112-114 | defaults with buttons 1, 2 and 3 all pressed request DOWN |
| Priority.FirstPressedFindsFirst | rovio/rovio_teleop/src/rovio_teleop.cpp:112-148 | the table scan returns the position of binding k whenever k is the first pressed binding, and any position it returns belongs to the first pressed binding |
| Priority.FirstPressedNone | rovio/rovio_teleop/src/rovio_teleop.cpp:137-148 | the table scan is defined and returns no request exactly when every binding is in range and none equals 1 |
| Priority.HeadRequestIsTableScan | rovio/rovio_teleop/src/rovio_teleop.cpp:112-148 | the else-if chain and the DOWN, MID, UP table scan are defined on the same button arrays and choose the same request |
| Priority.StepHeadIsFirstPressed | rovio/rovio_teleop/src/rovio_teleop.cpp:112-148 | the step requests position p exactly when p's binding is the first pressed in priority order, and nothing exactly when no configured button equals 1 |
| TeleopNode.Init | rovio/rovio_teleop/src/rovio_teleop.cpp:48-95 | a new node holds the loaded configuration and an all-zero command |
| TeleopNode.Callback | rovio/rovio_teleop/src/rovio_teleop.cpp:101-149 | the configuration is unchanged; the buffer holds the step's command; the trace starts with exactly one publish of it and has a head call, carrying the service's answer, exactly when the step chose a position |
| TeleopNode.CallbackForgetsHistory | rovio/rovio_teleop/src/rovio_teleop.cpp:103-123 | the previous command and the service's answer (success or failure) do not influence the new node state or the published command |
| TeleopNode.RepeatedEventRepeatsOutput | rovio/rovio_teleop/src/rovio_teleop.cpp:101-149 | the same event delivered twice leaves the same node state, publishes the same command again and requests the same head position again, with no deduplication; each call carries whatever the service answers that time |
| TeleopNode.Run | rovio/rovio_teleop/src/rovio_teleop.cpp:101-149 | over a sequence of events, each handled with its own service behaviour, the configuration is unchanged, the trace holds between one and two effects per event, it opens with the first event's published command, and the buffer ends with the last event's command |
| TeleopNode.RunPublishesEachCommand | rovio/rovio_teleop/src/rovio_teleop.cpp:103-109 | exactly one command is published per event: the k-th published command of a run is the step command of event k |
| TeleopNode.RunCallsInOrder | rovio/rovio_teleop/src/rovio_teleop.cpp:112-148 | the head calls of a run are, in order, one for each event whose step chose a position, carrying that position and the answer of that event's service |
| TeleopNode.DownWithFailingServiceExample | rovio/rovio_teleop/src/rovio_teleop.cpp:109-123 | with defaults and button 1 pressed, a failing service call still comes after the published command |

## Left out

- Node handle, topic advertise/subscribe, `publish` and `ros::spin` are middleware I/O. Publishing is recorded as a `Publish` effect, and `Run` stands for the spin loop's sequential delivery.
- The parameter-server lookup is a foreign call. `Load` takes the server's successful answers to the integer and double lookups as two maps. Type conversions the server performs between int and double values are not modelled.
- The `head_position` service call is a parameter `service: HeadPos -> CallOutcome`. Over a sequence of events, each event gets its own service behaviour, so a call may succeed once and fail the next time. Its blocking behaviour and lack of a timeout are not modelled. The numeric values of `Head::Request::DOWN/MID/UP` and the type of the response status come from `rovio_common/Head.srv`, which is not part of this model; the positions are an enumeration and the status is an `int`.
- `ROS_DEBUG`, `ROS_INFO` and `ROS_ERROR` logging is output only. The trace keeps the call outcome that decides between the info and error messages.
- Axes (`float32`) and scales (`double`) are reals. IEEE-754 rounding of the products is not modelled.
- The emergency stop marked as missing at line 111 does not exist in the code, so the model has none.
- `main` (lines 151-156) is process lifecycle.
- TeleopNode.Run: with `TeleopNode.RunPublishesEachCommand` and `TeleopNode.RunCallsInOrder`, states the published commands and the head calls as two separate in-order lists. It does not state how they interleave across events; `TeleopNode.Callback` states the order within one event (publish, then the call).
