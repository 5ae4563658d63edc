/** The robot-state guards of `ArctosPinocchio`: the joint-limit predicate
    over the first six joints, the display operations that refuse a
    configuration outside the limits, the interpolating animation, and the
    limit post-condition of inverse kinematics. Forward and inverse
    kinematics are Pinocchio/Pink computations outside the model: forward
    kinematics is a function parameter and the IK solver's raw solution is
    an input. */
module ArctosPinocchio {
  import opened Wrappers
  import opened PyOps

  /** Joints the limit check looks at. */
  const CheckedJoints: nat := 6

  /** The model's position limits (`lowerPositionLimit`, `upperPositionLimit`). */
  datatype Limits = Limits(lower: seq<real>, upper: seq<real>)

  predicate ValidLimits(lim: Limits) {
    |lim.lower| >= CheckedJoints && |lim.upper| >= CheckedJoints
  }

  /** Joint `i` of `q` lies within its limits, bounds included. */
  predicate JointWithin(q: seq<real>, lim: Limits, i: nat)
    requires ValidLimits(lim) && |q| >= CheckedJoints && i < CheckedJoints
  {
    lim.lower[i] <= q[i] <= lim.upper[i]
  }

  /** The index of the first of joints `from..5` that is below or above its
      limit, if any. */
  function FirstViolation(q: seq<real>, lim: Limits, from: nat): (v: Option<nat>)
    requires ValidLimits(lim) && |q| >= CheckedJoints && from <= CheckedJoints
    ensures v.None? <==> forall i :: from <= i < CheckedJoints ==> JointWithin(q, lim, i)
    ensures v.Some? ==> from <= v.value < CheckedJoints && !JointWithin(q, lim, v.value)
    decreases CheckedJoints - from
  {
    if from == CheckedJoints then None
    else if q[from] < lim.lower[from] || q[from] > lim.upper[from] then
      assert !JointWithin(q, lim, from);
      Some(from)
    else FirstViolation(q, lim, from + 1)
  }

  /** `check_joint_limits(q)`: true exactly when each of the first six joints
      lies in its closed limit interval. */
  function CheckJointLimits(q: seq<real>, lim: Limits): (ok: bool)
    requires ValidLimits(lim) && |q| >= CheckedJoints
    ensures ok <==> forall i :: 0 <= i < CheckedJoints ==> lim.lower[i] <= q[i] <= lim.upper[i]
  {
    FirstViolation(q, lim, 0).None?
  }

  /** Joints after the sixth never affect the limit check. */
  lemma LimitsIgnoreTail(q: seq<real>, rest: seq<real>, lim: Limits)
    requires ValidLimits(lim) && |q| >= CheckedJoints
    ensures CheckJointLimits(q[..CheckedJoints] + rest, lim) == CheckJointLimits(q, lim)
  {
    var p := q[..CheckedJoints] + rest;
    assert forall i :: 0 <= i < CheckedJoints ==> p[i] == q[i];
  }

  /** Forward kinematics: end-effector position and roll-pitch-yaw of a configuration. */
  datatype Pose = Pose(position: seq<real>, rpy: seq<real>)

  /** The instance state the operations below read and write. */
  datatype RobotState = RobotState(q: seq<real>, eePosition: seq<real>, eeOrientation: seq<real>)

  /** How a call ended: normally, or with the exception it raised. */
  datatype Outcome = Ok | Raised(error: PyError)

  /** `display(q)`: the stored configuration when `q` is `None`; a
      configuration outside the limits raises `ValueError` and leaves the
      state as it was; otherwise it becomes the state's configuration and the
      end-effector pose is recomputed from it. */
  function Display(st: RobotState, q: Option<seq<real>>, lim: Limits, fk: seq<real> -> Pose): (r: (RobotState, Outcome))
    requires ValidLimits(lim) && |q.GetOr(st.q)| >= CheckedJoints
    ensures var shown := q.GetOr(st.q);
            && (r.1 == Ok <==> CheckJointLimits(shown, lim))
            && (r.1 != Ok ==> r == (st, Raised(ValueError)))
            && (r.1 == Ok ==> r.0 == RobotState(shown, fk(shown).position, fk(shown).rpy))
  {
    var shown := q.GetOr(st.q);
    if !CheckJointLimits(shown, lim) then (st, Raised(ValueError))
    else (RobotState(shown, fk(shown).position, fk(shown).rpy), Ok)
  }

  /** `instant_display_state(q)`: the limit check raises `ValueError` first;
      a configuration that passes it reaches `self.viz`, an attribute the
      class never assigns, so the call raises `AttributeError`. Either way
      the state is unchanged. */
  function InstantDisplayState(st: RobotState, q: Option<seq<real>>, lim: Limits): (r: (RobotState, Outcome))
    requires ValidLimits(lim) && |q.GetOr(st.q)| >= CheckedJoints
    ensures r.0 == st
    ensures !CheckJointLimits(q.GetOr(st.q), lim) <==> r.1 == Raised(ValueError)
    ensures CheckJointLimits(q.GetOr(st.q), lim) <==> r.1 == Raised(AttributeError)
  {
    if !CheckJointLimits(q.GetOr(st.q), lim) then (st, Raised(ValueError))
    else (st, Raised(AttributeError))
  }

  /** Frame `t` of an animation of `steps` steps:
      `(1 - t/steps) * start + (t/steps) * target`. */
  function Interpolate(start: seq<real>, target: seq<real>, t: nat, steps: nat): (f: seq<real>)
    requires |start| == |target| && steps > 0
    ensures |f| == |start|
    ensures t == 0 ==> f == start
    ensures t == steps ==> f == target
  {
    var alpha := t as real / steps as real;
    DivSelf(steps as real);
    seq(|start|, j requires 0 <= j < |start| => (1.0 - alpha) * start[j] + alpha * target[j])
  }

  lemma DivSelf(x: real)
    requires x > 0.0
    ensures x / x == 1.0
  {
  }

  /** The `steps + 1` frames of the animation loop, in order. */
  function Frames(start: seq<real>, target: seq<real>, steps: nat): (fs: seq<seq<real>>)
    requires |start| == |target| && steps > 0
    ensures |fs| == steps + 1
    ensures forall t :: 0 <= t <= steps ==> fs[t] == Interpolate(start, target, t, steps)
    ensures fs[0] == start && fs[steps] == target
    ensures forall t :: 0 <= t <= steps ==> |fs[t]| == |start|
  {
    seq(steps + 1, t requires 0 <= t <= steps => Interpolate(start, target, t, steps))
  }

  /** Every frame up to the last lies componentwise between start and target. */
  lemma InterpolateBetween(start: seq<real>, target: seq<real>, t: nat, steps: nat)
    requires |start| == |target| && 0 < steps && t <= steps
    ensures forall j :: 0 <= j < |start| ==>
              Min(start[j], target[j]) <= Interpolate(start, target, t, steps)[j] <= Max(start[j], target[j])
  {
    var alpha := t as real / steps as real;
    assert 0.0 <= alpha <= 1.0;
    forall j | 0 <= j < |start|
      ensures Min(start[j], target[j]) <= Interpolate(start, target, t, steps)[j] <= Max(start[j], target[j])
    {
      ConvexBetween(start[j], target[j], alpha);
    }
  }

  function Min(a: real, b: real): real {
    if a <= b then a else b
  }

  function Max(a: real, b: real): real {
    if a <= b then b else a
  }

  lemma ScaleBelow(alpha: real, x: real)
    requires 0.0 <= alpha <= 1.0 && 0.0 <= x
    ensures 0.0 <= alpha * x <= x
  {
    assert x - alpha * x == (1.0 - alpha) * x;
  }

  /** A convex combination of two numbers lies between them. */
  lemma ConvexBetween(a: real, b: real, alpha: real)
    requires 0.0 <= alpha <= 1.0
    ensures Min(a, b) <= (1.0 - alpha) * a + alpha * b <= Max(a, b)
  {
    var c := (1.0 - alpha) * a + alpha * b;
    assert c == a + alpha * (b - a);
    if a <= b {
      ScaleBelow(alpha, b - a);
    } else {
      ScaleBelow(alpha, a - b);
      assert alpha * (b - a) == -(alpha * (a - b));
    }
  }

  /** The result of an animation: the state afterwards, how many frames were
      displayed, and how the animation thread ended. */
  datatype Animation = Animation(state: RobotState, frames: nat, outcome: Outcome)

  /** Every configuration is long enough for the limit check. */
  predicate Checkable(frames: seq<seq<real>>) {
    forall k :: 0 <= k < |frames| ==> |frames[k]| >= CheckedJoints
  }

  /** Frames `i..` displayed in turn; the first one outside the limits raises
      and ends the thread. */
  function AnimateFrom(st: RobotState, frames: seq<seq<real>>, i: nat, lim: Limits, fk: seq<real> -> Pose): (a: Animation)
    requires ValidLimits(lim) && Checkable(frames) && i <= |frames|
    ensures a.frames <= |frames| - i
    ensures a.outcome == Ok <==> a.frames == |frames| - i
    ensures a.outcome != Ok ==> a.outcome == Raised(ValueError)
    ensures a.frames == 0 ==> a.state == st
    decreases |frames| - i
  {
    if i == |frames| then Animation(st, 0, Ok)
    else if !CheckJointLimits(frames[i], lim) then Animation(st, 0, Raised(ValueError))
    else
      var rest := AnimateFrom(Display(st, Some(frames[i]), lim, fk).0, frames, i + 1, lim, fk);
      Animation(rest.state, rest.frames + 1, rest.outcome)
  }

  /** Every frame the animation displays passes the limit check; when it
      stops early, the next frame is the one the check refused; and the
      stored configuration ends as the last frame displayed. */
  lemma AnimationShowsOnlyValidFrames(st: RobotState, frames: seq<seq<real>>, i: nat, lim: Limits, fk: seq<real> -> Pose)
    requires ValidLimits(lim) && Checkable(frames) && i <= |frames|
    ensures var a := AnimateFrom(st, frames, i, lim, fk);
            forall k :: i <= k < i + a.frames ==> CheckJointLimits(frames[k], lim)
    ensures var a := AnimateFrom(st, frames, i, lim, fk);
            a.outcome != Ok ==> !CheckJointLimits(frames[i + a.frames], lim)
    ensures var a := AnimateFrom(st, frames, i, lim, fk);
            a.frames > 0 ==> a.state.q == frames[i + a.frames - 1]
  {
    ShownFramesPass(st, frames, i, lim, fk);
    StopsAtRefusedFrame(st, frames, i, lim, fk);
    EndsAtLastShownFrame(st, frames, i, lim, fk);
  }

  /** One displayed frame, then the rest of the animation. */
  lemma AnimateStep(st: RobotState, frames: seq<seq<real>>, i: nat, lim: Limits, fk: seq<real> -> Pose)
    requires ValidLimits(lim) && Checkable(frames) && i < |frames| && CheckJointLimits(frames[i], lim)
    ensures Display(st, Some(frames[i]), lim, fk).0.q == frames[i]
    ensures var rest := AnimateFrom(Display(st, Some(frames[i]), lim, fk).0, frames, i + 1, lim, fk);
            AnimateFrom(st, frames, i, lim, fk) == Animation(rest.state, rest.frames + 1, rest.outcome)
  {
  }

  lemma {:induction false} ShownFramesPass(st: RobotState, frames: seq<seq<real>>, i: nat, lim: Limits, fk: seq<real> -> Pose)
    requires ValidLimits(lim) && Checkable(frames) && i <= |frames|
    ensures var a := AnimateFrom(st, frames, i, lim, fk);
            forall k :: i <= k < i + a.frames ==> CheckJointLimits(frames[k], lim)
    decreases |frames| - i
  {
    if i < |frames| && CheckJointLimits(frames[i], lim) {
      AnimateStep(st, frames, i, lim, fk);
      ShownFramesPass(Display(st, Some(frames[i]), lim, fk).0, frames, i + 1, lim, fk);
    }
  }

  lemma {:induction false} StopsAtRefusedFrame(st: RobotState, frames: seq<seq<real>>, i: nat, lim: Limits, fk: seq<real> -> Pose)
    requires ValidLimits(lim) && Checkable(frames) && i <= |frames|
    ensures var a := AnimateFrom(st, frames, i, lim, fk);
            a.outcome != Ok ==> !CheckJointLimits(frames[i + a.frames], lim)
    decreases |frames| - i
  {
    if i < |frames| && CheckJointLimits(frames[i], lim) {
      AnimateStep(st, frames, i, lim, fk);
      StopsAtRefusedFrame(Display(st, Some(frames[i]), lim, fk).0, frames, i + 1, lim, fk);
    }
  }

  lemma {:induction false} EndsAtLastShownFrame(st: RobotState, frames: seq<seq<real>>, i: nat, lim: Limits, fk: seq<real> -> Pose)
    requires ValidLimits(lim) && Checkable(frames) && i <= |frames|
    ensures var a := AnimateFrom(st, frames, i, lim, fk);
            a.frames > 0 ==> a.state.q == frames[i + a.frames - 1]
    decreases |frames| - i
  {
    if i < |frames| && CheckJointLimits(frames[i], lim) {
      AnimateStep(st, frames, i, lim, fk);
      EndsAtLastShownFrame(Display(st, Some(frames[i]), lim, fk).0, frames, i + 1, lim, fk);
    }
  }

  /** numpy broadcasting of `q_target` against a configuration of `n`
      joints: a one-element array stands for that value at every joint. */
  function Broadcast(target: seq<real>, n: nat): (r: seq<real>)
    ensures |target| == 1 ==> |r| == n && forall k :: 0 <= k < n ==> r[k] == target[0]
    ensures |target| != 1 ==> r == target
  {
    if |target| == 1 then seq(n, _ => target[0]) else target
  }

  /** `animate_display(q_target, duration, steps)`: `steps + 1` frames with
      `alpha = t / steps`, from the configuration at the start of the call to
      `q_target`, stopping at the first frame the limit check refuses. A
      negative step count shows nothing; zero steps divide by zero before
      anything is shown; a target that neither matches the configuration's
      length nor broadcasts (one element) cannot be combined with it
      (`ValueError`). */
  function AnimateDisplay(st: RobotState, target: seq<real>, steps: int, lim: Limits, fk: seq<real> -> Pose): (a: Animation)
    requires ValidLimits(lim) && |st.q| >= CheckedJoints
    ensures steps < 0 ==> a == Animation(st, 0, Ok)
    ensures steps == 0 ==> a == Animation(st, 0, Raised(ZeroDivisionError))
    ensures steps > 0 && |target| != |st.q| && |target| != 1 ==> a == Animation(st, 0, Raised(ValueError))
    ensures steps > 0 && (|target| == |st.q| || |target| == 1) ==>
              && a.frames <= steps + 1
              && (a.outcome == Ok <==> a.frames == steps + 1)
              && (a.outcome != Ok ==> a.outcome == Raised(ValueError))
  {
    if steps < 0 then Animation(st, 0, Ok)
    else if steps == 0 then Animation(st, 0, Raised(ZeroDivisionError))
    else
      var q := Broadcast(target, |st.q|);
      if |q| != |st.q| then Animation(st, 0, Raised(ValueError))
      else AnimateFrom(st, Frames(st.q, q, steps as nat), 0, lim, fk)
  }

  /** A completed animation starts at the configuration it found, displays
      only configurations within the limits, and leaves the target stored. */
  lemma CompletedAnimationReachesTarget(st: RobotState, target: seq<real>, steps: nat, lim: Limits, fk: seq<real> -> Pose)
    requires ValidLimits(lim) && |st.q| >= CheckedJoints && |target| == |st.q| && steps > 0
    requires AnimateDisplay(st, target, steps, lim, fk).outcome == Ok
    ensures Interpolate(st.q, target, 0, steps) == st.q
    ensures forall k :: 0 <= k <= steps ==> CheckJointLimits(Interpolate(st.q, target, k, steps), lim)
    ensures AnimateDisplay(st, target, steps, lim, fk).state.q == target
  {
    AnimationShowsOnlyValidFrames(st, Frames(st.q, target, steps), 0, lim, fk);
  }

  /** A completed animation toward a one-element target leaves every joint
      at that value, having shown only configurations within the limits. */
  lemma BroadcastAnimationReachesValue(st: RobotState, target: seq<real>, steps: nat, lim: Limits, fk: seq<real> -> Pose)
    requires ValidLimits(lim) && |st.q| >= CheckedJoints && |target| == 1 && steps > 0
    requires AnimateDisplay(st, target, steps, lim, fk).outcome == Ok
    ensures |AnimateDisplay(st, target, steps, lim, fk).state.q| == |st.q|
    ensures forall k :: 0 <= k < |st.q| ==> AnimateDisplay(st, target, steps, lim, fk).state.q[k] == target[0]
    ensures forall k :: 0 <= k <= steps ==> CheckJointLimits(Interpolate(st.q, Broadcast(target, |st.q|), k, steps), lim)
  {
    var q := Broadcast(target, |st.q|);
    assert AnimateDisplay(st, target, steps, lim, fk) == AnimateDisplay(st, q, steps, lim, fk);
    CompletedAnimationReachesTarget(st, q, steps, lim, fk);
  }

  /** `set_joint_angles_animated(q_target)`: the stored configuration becomes
      the target at once, without a limit check; the end-effector pose is not
      recomputed (the animation thread does that as it displays frames). */
  function SetJointAnglesAnimated(st: RobotState, target: seq<real>): (r: RobotState)
    ensures r.q == target
    ensures r.eePosition == st.eePosition && r.eeOrientation == st.eeOrientation
  {
    st.(q := target)
  }

  /** `get_current_joint_angles()`: the first six joints of the stored configuration. */
  function GetCurrentJointAngles(st: RobotState): (q: seq<real>)
    ensures |st.q| >= CheckedJoints ==> |q| == CheckedJoints
    ensures |st.q| < CheckedJoints ==> q == st.q
    ensures forall i :: 0 <= i < |q| ==> q[i] == st.q[i]
  {
    Prefix(st.q, CheckedJoints)
  }

  /** The last step of `inverse_kinematics_pink`: the solver's configuration is
      returned only when it passes the limit check, otherwise `ValueError`. */
  function InverseKinematics(solution: seq<real>, lim: Limits): (r: Result<seq<real>, PyError>)
    requires ValidLimits(lim) && |solution| >= CheckedJoints
    ensures r.Success? ==> r.value == solution && CheckJointLimits(r.value, lim)
    ensures r.Failure? <==> !CheckJointLimits(solution, lim)
    ensures r.Failure? ==> r.error == ValueError
  {
    if CheckJointLimits(solution, lim) then Success(solution) else Failure(ValueError)
  }
}
