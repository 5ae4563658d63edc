/** The robot helpers of `src/utils/utils.py` that carry logic: reading the
    encoder joints back into model joints (undoing the coupled B/C mixing),
    setting and resetting joint targets from the GUI, and the keyboard
    jogging state (the active flag, the held keys and the position nudge
    they produce). The inverse-kinematics solution is a parameter. */
module Utils {
  import opened Wrappers
  import opened PyOps
  import C = ArctosController
  import P = ArctosPinocchio

  /** The joints `initialize_current_joint_states` writes into
      `q_encoder[:6]`: the first four encoder joints as read, and the wrist
      pair recovered as `(B + C) / 2` and `(B - C) / 2`. */
  function Decouple(states: seq<real>): (q: seq<real>)
    requires |states| >= 6
    ensures |q| == 6
    ensures forall i :: 0 <= i < 4 ==> q[i] == states[i]
    ensures q[4] + q[5] == states[4] && q[4] - q[5] == states[5]
  {
    [states[0], states[1], states[2], states[3], (states[4] + states[5]) / 2.0, (states[4] - states[5]) / 2.0]
  }

  /** Decoupling undoes the controller's coupled mixing of a six-joint command. */
  lemma DecoupleInvertsCoupling(angles: seq<real>)
    requires |angles| == C.JointCount
    ensures Decouple(C.CoupledTargets(angles, true)) == angles
  {
  }

  /** ... and mixing the decoupled joints gives back the encoder joints. */
  lemma CouplingInvertsDecouple(states: seq<real>)
    requires |states| == C.JointCount
    ensures C.CoupledTargets(Decouple(states), true) == states
  {
  }

  /** `initialize_current_joint_states(robot, Arctos)` on the joint angles
      the controller read: fewer than six raise `IndexError`; a
      `q_encoder` shorter than six cannot take the slice assignment and
      raises `ValueError`; otherwise its first six entries become the
      decoupled joints and the rest are kept. */
  function InitializeCurrentJointStates(qEncoder: seq<real>, states: seq<real>): (r: Result<seq<real>, PyError>)
    ensures |states| < 6 ==> r == Failure(IndexError)
    ensures |states| >= 6 && |qEncoder| < 6 ==> r == Failure(ValueError)
    ensures r.Success? <==> |states| >= 6 && |qEncoder| >= 6
    ensures r.Success? ==> |r.value| == |qEncoder| && r.value[6..] == qEncoder[6..]
    ensures r.Success? ==> forall i :: 0 <= i < 4 ==> r.value[i] == states[i]
    ensures r.Success? ==> C.CoupledTargets(r.value[..6], true) == states[..6]
  {
    if |states| < 6 then Failure(IndexError)
    else if |qEncoder| < 6 then Failure(ValueError)
    else
      var d := Decouple(states);
      CouplingInvertsDecouple(states[..6]);
      assert Decouple(states[..6]) == d;
      assert (d + qEncoder[6..])[..6] == d;
      Success(d + qEncoder[6..])
  }

  /** `set_joint_angles_from_gui(robot, inputs)`: without a robot nothing
      happens; otherwise each of the first six inputs that holds a value
      (in degrees) replaces that joint, in radians, an empty one keeps the
      current joint, and the robot is sent to the result. Fewer than six
      inputs raise `IndexError`, and so does a value for a joint the robot
      does not have; empty inputs past the robot's joints are harmless. */
  function SetJointAnglesFromGui(robot: Option<P.RobotState>, inputs: seq<Option<real>>): (r: Result<Option<P.RobotState>, PyError>)
    ensures robot.None? ==> r == Success(None)
    ensures robot.Some? ==>
              (r.Failure? <==> |inputs| < 6 || exists i :: 0 <= i < 6 && inputs[i].Some? && i >= |robot.value.q|)
    ensures r.Failure? ==> r.error == IndexError
    ensures r.Success? && robot.Some? ==> r.value.Some?
    ensures r.Success? && robot.Some? ==>
              var st := robot.value;
              var q := r.value.value.q;
              && |q| == |st.q|
              && r.value.value.eePosition == st.eePosition && r.value.value.eeOrientation == st.eeOrientation
              && (forall i :: 0 <= i < 6 && inputs[i].Some? ==> i < |q| && q[i] == Radians(inputs[i].value))
              && (forall i :: 0 <= i < |q| && (i >= 6 || inputs[i].None?) ==> q[i] == st.q[i])
  {
    match robot
    case None => Success(None)
    case Some(st) =>
      if |inputs| < 6 || exists i :: 0 <= i < 6 && inputs[i].Some? && i >= |st.q| then Failure(IndexError)
      else
        var target := seq(|st.q|, i requires 0 <= i < |st.q| =>
          if i < 6 && inputs[i].Some? then Radians(inputs[i].value) else st.q[i]);
        Success(Some(P.SetJointAnglesAnimated(st, target)))
  }

  /** `reset_to_zero_position(robot)`: the first six joints (as many as
      there are) become zero, the others are kept. */
  function ResetToZeroPosition(robot: Option<P.RobotState>): (r: Option<P.RobotState>)
    ensures robot.None? <==> r.None?
    ensures robot.Some? ==>
              && |r.value.q| == |robot.value.q|
              && (forall i :: 0 <= i < |r.value.q| && i < 6 ==> r.value.q[i] == 0.0)
              && (forall i :: 6 <= i < |r.value.q| ==> r.value.q[i] == robot.value.q[i])
              && r.value.eePosition == robot.value.eePosition
  {
    match robot
    case None => None
    case Some(st) =>
      var target := seq(|st.q|, i requires 0 <= i < |st.q| => if i < 6 then 0.0 else st.q[i]);
      Some(P.SetJointAnglesAnimated(st, target))
  }

  /** The module-level keyboard state: `keyboard_control_active` and the
      names held in `key_states`. */
  datatype Keyboard = Keyboard(active: bool, keys: set<string>)

  const InitialKeyboard: Keyboard := Keyboard(false, {})

  /** `toggle_keyboard_control()`: flip the flag; switching off forgets the held keys. */
  function ToggleKeyboardControl(kb: Keyboard): (r: Keyboard)
    ensures r.active == !kb.active
    ensures !r.active ==> r.keys == {}
    ensures r.active ==> r.keys == kb.keys
  {
    if kb.active then Keyboard(false, {}) else Keyboard(true, kb.keys)
  }

  /** Toggling twice restores the flag; from the active state it also
      releases every held key. */
  lemma ToggleTwice(kb: Keyboard)
    ensures ToggleKeyboardControl(ToggleKeyboardControl(kb)).active == kb.active
    ensures kb.active ==> ToggleKeyboardControl(ToggleKeyboardControl(kb)).keys == {}
    ensures !kb.active ==> ToggleKeyboardControl(ToggleKeyboardControl(kb)) == Keyboard(false, {})
  {
  }

  /** The default jog step, in metres. */
  const DefaultStep: real := 0.002

  /** The step `adjust_position` uses: the input's value when it is set and
      non-zero, the default otherwise. */
  function StepSize(input: Option<real>): (step: real)
    ensures input.Some? && input.value != 0.0 ==> step == input.value
    ensures input.None? || input.value == 0.0 ==> step == DefaultStep
  {
    if input.Some? && input.value != 0.0 then input.value else DefaultStep
  }

  /** +1, -1 or 0 for a pair of opposing keys. */
  function Axis(keys: set<string>, plus: string, minus: string): (d: real)
    ensures plus in keys && minus !in keys ==> d == 1.0
    ensures minus in keys && plus !in keys ==> d == -1.0
    ensures (plus in keys) == (minus in keys) ==> d == 0.0
  {
    (if plus in keys then 1.0 else 0.0) - (if minus in keys then 1.0 else 0.0)
  }

  /** The position `adjust_position` asks the IK solver for: `a`/`d` move
      along -x/+x, `w`/`s` along -y/+y, `e`/`q` along -z/+z, by one step each. */
  function Nudged(position: seq<real>, keys: set<string>, step: real): (p: seq<real>)
    requires |position| == 3
    ensures |p| == 3
    ensures p[0] == position[0] + step * Axis(keys, "d", "a")
    ensures p[1] == position[1] + step * Axis(keys, "s", "w")
    ensures p[2] == position[2] + step * Axis(keys, "q", "e")
  {
    var x := position[0] - (if "a" in keys then step else 0.0) + (if "d" in keys then step else 0.0);
    var z := position[2] + (if "q" in keys then step else 0.0) - (if "e" in keys then step else 0.0);
    var y := position[1] - (if "w" in keys then step else 0.0) + (if "s" in keys then step else 0.0);
    [x, y, z]
  }

  /** Holding no jog key, or both keys of every pair, leaves the position as it is. */
  lemma OpposingKeysCancel(position: seq<real>, keys: set<string>, step: real)
    requires |position| == 3
    requires ("a" in keys) == ("d" in keys) && ("w" in keys) == ("s" in keys) && ("q" in keys) == ("e" in keys)
    ensures Nudged(position, keys, step) == position
  {
  }

  /** What `adjust_position` did: the position it asked the solver for (none
      when keyboard control is off), and the robot state afterwards. */
  datatype Nudge = Nudge(request: Option<seq<real>>, robot: P.RobotState)

  /** `adjust_position(robot, Arctos)`. `solution` is what the IK solver
      returns for the nudged position; the limit-checked solution goes to
      `instant_display_state`, which raises either way, and the exception is
      logged. */
  function AdjustPosition(kb: Keyboard, st: P.RobotState, stepInput: Option<real>, solution: seq<real>, lim: P.Limits): (n: Nudge)
    requires |st.eePosition| == 3 && P.ValidLimits(lim) && |solution| >= P.CheckedJoints
    ensures !kb.active ==> n == Nudge(None, st)
    ensures kb.active ==> n.request == Some(Nudged(st.eePosition, kb.keys, StepSize(stepInput)))
    ensures n.robot == st
  {
    if !kb.active then Nudge(None, st)
    else
      var target := Nudged(st.eePosition, kb.keys, StepSize(stepInput));
      match P.InverseKinematics(solution, lim)
      case Failure(_) => Nudge(Some(target), st)
      case Success(q) => Nudge(Some(target), P.InstantDisplayState(st, Some(q), lim).0)
  }

  /** A keyboard event: the key's name and whether it is a press or a release. */
  datatype KeyEvent = KeyEvent(name: string, keydown: bool, keyup: bool)

  /** The key bookkeeping of `on_key`: a press adds the key, a release removes it. */
  function Press(kb: Keyboard, e: KeyEvent): (r: Keyboard)
    ensures r.active == kb.active
    ensures !kb.active ==> r == kb
    ensures kb.active && e.keydown ==> r.keys == kb.keys + {e.name}
    ensures kb.active && !e.keydown && e.keyup ==> r.keys == kb.keys - {e.name}
    ensures kb.active && !e.keydown && !e.keyup ==> r == kb
  {
    if !kb.active then kb
    else if e.keydown then kb.(keys := kb.keys + {e.name})
    else if e.keyup then kb.(keys := kb.keys - {e.name})
    else kb
  }

  /** `on_key(event, robot, Arctos)`: nothing while keyboard control is off;
      otherwise the key set is updated and the position adjusted. */
  function OnKey(kb: Keyboard, e: KeyEvent, st: P.RobotState, stepInput: Option<real>, solution: seq<real>, lim: P.Limits): (r: (Keyboard, Nudge))
    requires |st.eePosition| == 3 && P.ValidLimits(lim) && |solution| >= P.CheckedJoints
    ensures r.0 == Press(kb, e)
    ensures !kb.active ==> r == (kb, Nudge(None, st))
    ensures kb.active ==> r.1.request == Some(Nudged(st.eePosition, r.0.keys, StepSize(stepInput)))
  {
    if !kb.active then (kb, Nudge(None, st))
    else
      var kb' := Press(kb, e);
      (kb', AdjustPosition(kb', st, stepInput, solution, lim))
  }

  /** Pressing and releasing a key that was not held leaves the key set as
      it was. */
  lemma PressRelease(kb: Keyboard, name: string)
    requires name !in kb.keys
    ensures Press(Press(kb, KeyEvent(name, true, false)), KeyEvent(name, false, true)) == kb
  {
  }
}
