/** The player's movement component: it reads the arbitrated movement input on
    every physics step, holds on to the previous input against jitter, turns
    the character left or right with a dead band, and reports changes of its
    "moving" state.

    The input manager's answer is a parameter (`input`), and `normalize` stands
    for `Vector3.normalized`. Positions come from the transform as parameters.
    The two Unity events are returned as notifications: `Some(b)` means the
    event was invoked with `b`. */
module Movement {
  import opened World

  /** `MOVEMENT_THRESHOLD`, compared on squares: `|v| > 0.1` is `|v|^2 > 0.01`. */
  const MovementThreshold: real := 0.1
  const SqMovementThreshold: real := 0.01

  /** `INPUT_CHANGE_THRESHOLD`, squared. */
  const SqInputChangeThreshold: real := 0.0025

  /** The positional change that counts as moving, squared (0.001 squared). */
  const SqMovedThreshold: real := 0.000001

  /** `rotationY` for each facing. */
  const RightYaw: real := 0.0
  const LeftYaw: real := -180.0

  /** Unity's forward axis, the first move direction `Start` sets. */
  const Forward: Vec3 := Vec3(0.0, 0.0, 1.0)

  /** Which collaborators are present, and the speeds. */
  datatype MoverConfig = MoverConfig(
    hasInputManager: bool,
    hasAnimator: bool,
    hasSettings: bool,
    moveSpeed: real,            // settings.moveSpeed
    fallbackMoveSpeed: real)

  datatype MoverState = MoverState(
    isFacingRight: bool,
    rotationY: real,            // the transform's Euler Y angle
    isMoving: bool,
    lastInput: Vec2,
    moveDirection: Vec3,
    targetVelocity: Vec3,
    velocity: Vec3,             // the rigidbody's velocity
    lastPosition: Vec3,
    anim: Animator)

  /** A new state and the event, if any, it raised. */
  datatype Moved = Moved(state: MoverState, event: Option<bool>)

  function Abs(x: real): real { if x < 0.0 then -x else x }

  /** The speed in use: the settings' when there are settings, else the fallback. */
  function Speed(cfg: MoverConfig): real {
    if cfg.hasSettings then cfg.moveSpeed else cfg.fallbackMoveSpeed
  }

  /** A non-zero input within 0.05 of the previous one is treated as that previous one. */
  predicate Holds(input: Vec2, lastInput: Vec2) {
    SqDistance(input, lastInput) < SqInputChangeThreshold && SqMagnitude(input) > 0.0
  }

  /** The input `MoveCharacter` goes on with. */
  function HeldInput(input: Vec2, lastInput: Vec2): Vec2 {
    if Holds(input, lastInput) then lastInput else input
  }

  /** `UpdateRotation(x)`: flips the facing, and raises `OnDirectionChanged`, only
      when `|x|` clears the dead band and points the other way. */
  function Turn(s: MoverState, x: real): Moved {
    if Abs(x) > MovementThreshold then
      var right := x > 0.0;
      if right != s.isFacingRight then
        Moved(s.(isFacingRight := right, rotationY := if right then RightYaw else LeftYaw), Some(right))
      else Moved(s, None)
    else Moved(s, None)
  }

  /** The hold step of `MoveCharacter`: `lastInput` is written only when the input is not held. */
  function Hold(s: MoverState, input: Vec2): MoverState {
    if Holds(input, s.lastInput) then s else s.(lastInput := input)
  }

  /** The velocity step of `MoveCharacter` on the input `used`. */
  function Steer(s: MoverState, cfg: MoverConfig, used: Vec2, normalize: Vec2 -> Vec3): Moved {
    if SqMagnitude(used) > SqMovementThreshold then
      var dir := normalize(used);
      Turn(s.(moveDirection := dir, targetVelocity := Scale3(dir, Speed(cfg))), used.x)
    else Moved(s.(targetVelocity := Zero3), None)
  }

  /** The rigidbody keeps its vertical speed and takes the target's horizontal one. */
  function ApplyVelocity(s: MoverState): MoverState {
    s.(velocity := Vec3(s.targetVelocity.x, s.velocity.y, s.targetVelocity.z))
  }

  /** `MoveCharacter` (run from `FixedUpdate`) with the input manager answering `input`. */
  function MoveStep(s: MoverState, cfg: MoverConfig, input: Vec2, normalize: Vec2 -> Vec3): Moved {
    if !cfg.hasInputManager then Moved(s, None)
    else
      var m := Steer(Hold(s, input), cfg, HeldInput(input, s.lastInput), normalize);
      Moved(ApplyVelocity(m.state), m.event)
  }

  /** Whether `UpdateAnimationState` sees the character as moving. */
  predicate CurrentlyMoving(cfg: MoverConfig, sqDelta: real, input: Vec2) {
    sqDelta > SqMovedThreshold || (cfg.hasInputManager && SqMagnitude(input) > SqMovementThreshold)
  }

  /** `UpdateAnimationState`: on a change only, store the flag, raise
      `OnMovementStateChanged` and set the animator's Walk flag. */
  function AnimationStep(s: MoverState, cfg: MoverConfig, sqDelta: real, input: Vec2): Moved {
    var moving := CurrentlyMoving(cfg, sqDelta, input);
    if moving != s.isMoving then
      Moved(s.(isMoving := moving, anim := if cfg.hasAnimator then s.anim[WalkFlag := moving] else s.anim), Some(moving))
    else Moved(s, None)
  }

  /** `Update` with the transform at `position`. */
  function Frame(s: MoverState, cfg: MoverConfig, position: Vec3, input: Vec2): Moved {
    var m := AnimationStep(s, cfg, SqMagnitude3(Sub3(position, s.lastPosition)), input);
    Moved(m.state.(lastPosition := position), m.event)
  }

  /** `SetMovementState(b)`: change-only, and the animator is not touched. */
  function SetMoving(s: MoverState, b: bool): Moved {
    if s.isMoving != b then Moved(s.(isMoving := b), Some(b)) else Moved(s, None)
  }

  // ---- Properties ----

  /** The facing changes exactly when `|x| > 0.1` and the sign of `x` points
      the other way; the character then faces right iff `x > 0`, and the event
      carries the new facing. */
  lemma TurnRule(s: MoverState, x: real)
    ensures var r := Turn(s, x);
      && (r.state.isFacingRight != s.isFacingRight <==> Abs(x) > MovementThreshold && (x > 0.0) != s.isFacingRight)
      && (r.state.isFacingRight != s.isFacingRight ==> r.state.isFacingRight == (x > 0.0))
      && (r.event.Some? <==> r.state.isFacingRight != s.isFacingRight)
      && (r.event.Some? ==> r.event.value == r.state.isFacingRight)
      && (r.event.None? ==> r.state == s)
  {
  }

  /** A flip sets the Y rotation to 0 facing right and -180 facing left. */
  lemma TurnSetsRotation(s: MoverState, x: real)
    requires Turn(s, x).event.Some?
    ensures Turn(s, x).state.rotationY == (if x > 0.0 then RightYaw else LeftYaw)
    ensures Turn(s, x).state == s.(isFacingRight := x > 0.0, rotationY := Turn(s, x).state.rotationY)
  {
  }

  /** Turning with the same input twice flips at most once. */
  lemma TurnIdempotent(s: MoverState, x: real)
    ensures Turn(Turn(s, x).state, x) == Moved(Turn(s, x).state, None)
  {
  }

  /** The hold rule: a non-zero input within 0.05 of the previous input is
      replaced by it, and only then is `lastInput` left as it was; either way
      `lastInput` ends up as the input that is used. */
  lemma HoldRule(s: MoverState, input: Vec2)
    ensures SqDistance(input, s.lastInput) < SqInputChangeThreshold && SqMagnitude(input) > 0.0 ==>
      HeldInput(input, s.lastInput) == s.lastInput && Hold(s, input) == s
    ensures !(SqDistance(input, s.lastInput) < SqInputChangeThreshold && SqMagnitude(input) > 0.0) ==>
      HeldInput(input, s.lastInput) == input && Hold(s, input) == s.(lastInput := input)
    ensures Hold(s, input).lastInput == HeldInput(input, s.lastInput)
  {
  }

  /** Feeding the same raw input twice uses the same input both times. */
  lemma HoldIdempotent(s: MoverState, input: Vec2)
    ensures HeldInput(input, Hold(s, input).lastInput) == HeldInput(input, s.lastInput)
    ensures Hold(Hold(s, input), input) == Hold(s, input)
  {
  }

  /** The target velocity is zero at or below the movement threshold and
      otherwise the normalised direction times the speed in use; the rigidbody
      then takes its horizontal components and keeps its own vertical speed. */
  lemma VelocityRule(s: MoverState, cfg: MoverConfig, input: Vec2, normalize: Vec2 -> Vec3)
    requires cfg.hasInputManager
    ensures var used := HeldInput(input, s.lastInput);
      var r := MoveStep(s, cfg, input, normalize).state;
      && r.targetVelocity == (if SqMagnitude(used) > SqMovementThreshold then Scale3(normalize(used), Speed(cfg)) else Zero3)
      && r.velocity == Vec3(r.targetVelocity.x, s.velocity.y, r.targetVelocity.z)
      && r.lastInput == used
  {
    HoldRule(s, input);
  }

  /** Only a step above the movement threshold can turn the character, and it
      turns by the used input's x. */
  lemma MoveTurnsOnlyWhenMoving(s: MoverState, cfg: MoverConfig, input: Vec2, normalize: Vec2 -> Vec3)
    requires cfg.hasInputManager
    ensures var used := HeldInput(input, s.lastInput);
      var m := MoveStep(s, cfg, input, normalize);
      && (SqMagnitude(used) <= SqMovementThreshold ==> m.event.None? && m.state.isFacingRight == s.isFacingRight)
      && (SqMagnitude(used) > SqMovementThreshold ==> m.event == Turn(s, used.x).event)
  {
  }

  /** The speed in use is the settings' speed, or the fallback without settings. */
  lemma SpeedRule(cfg: MoverConfig)
    ensures cfg.hasSettings ==> Speed(cfg) == cfg.moveSpeed
    ensures !cfg.hasSettings ==> Speed(cfg) == cfg.fallbackMoveSpeed
  {
  }

  /** Without an input manager a physics step changes nothing. */
  lemma NoInputManagerNoOp(s: MoverState, cfg: MoverConfig, input: Vec2, normalize: Vec2 -> Vec3)
    requires !cfg.hasInputManager
    ensures MoveStep(s, cfg, input, normalize) == Moved(s, None)
  {
  }

  /** The movement event fires exactly when the moving flag changes, and then
      carries the new value, which the animator's Walk flag (when there is an
      animator) also shows. */
  lemma MovementEventRule(s: MoverState, cfg: MoverConfig, position: Vec3, input: Vec2)
    ensures var m := Frame(s, cfg, position, input);
      && m.state.isMoving == CurrentlyMoving(cfg, SqMagnitude3(Sub3(position, s.lastPosition)), input)
      && (m.event.Some? <==> m.state.isMoving != s.isMoving)
      && (m.event.Some? ==> m.event.value == m.state.isMoving)
      && (m.event.Some? && cfg.hasAnimator ==> WalkFlag in m.state.anim && m.state.anim[WalkFlag] == m.state.isMoving)
      && (m.event.None? ==> m.state == s.(lastPosition := position))
      && m.state.lastPosition == position
  {
  }

  /** `SetMovementState` raises the event only on a change; a second call with
      the same value is silent and changes nothing. */
  lemma SetMovingRule(s: MoverState, b: bool)
    ensures SetMoving(s, b).state.isMoving == b
    ensures SetMoving(s, b).event.Some? <==> s.isMoving != b
    ensures SetMoving(SetMoving(s, b).state, b) == Moved(SetMoving(s, b).state, None)
    ensures SetMoving(s, b).state.anim == s.anim
  {
  }

  class CharacterMovement {
    var isFacingRight: bool
    var rotationY: real
    var isMoving: bool
    var lastInput: Vec2
    var moveDirection: Vec3
    var targetVelocity: Vec3
    var velocity: Vec3
    var lastPosition: Vec3
    var anim: Animator

    const cfg: MoverConfig

    function Model(): MoverState
      reads this
    {
      MoverState(isFacingRight, rotationY, isMoving, lastInput, moveDirection, targetVelocity, velocity, lastPosition, anim)
    }

    /** The field initialisers and `Start`, with the transform at `position`. */
    constructor (cfg: MoverConfig, position: Vec3, rotationY: real, velocity: Vec3, anim: Animator)
      ensures this.cfg == cfg
      ensures Model() == MoverState(true, rotationY, false, Zero, Forward, Zero3, velocity, position, anim)
    {
      this.cfg := cfg;
      isFacingRight := true;
      this.rotationY := rotationY;
      isMoving := false;
      lastInput := Zero;
      targetVelocity := Zero3;
      this.velocity := velocity;
      this.anim := anim;
      lastPosition := position;
      moveDirection := Forward;
    }

    /** `FixedUpdate`, that is `MoveCharacter`; raises `OnDirectionChanged` as `directionChanged`. */
    method MoveCharacter(input: Vec2, normalize: Vec2 -> Vec3) returns (directionChanged: Option<bool>)
      modifies this
      ensures Moved(Model(), directionChanged) == MoveStep(old(Model()), cfg, input, normalize)
    {
      directionChanged := None;
      if !cfg.hasInputManager {
        return;
      }
      var used := input;
      if Holds(input, lastInput) {
        used := lastInput;
      } else {
        lastInput := input;
      }
      directionChanged := SteerTowards(used, normalize);
      velocity := Vec3(targetVelocity.x, velocity.y, targetVelocity.z);
    }

    method SteerTowards(used: Vec2, normalize: Vec2 -> Vec3) returns (directionChanged: Option<bool>)
      modifies this
      ensures Moved(Model(), directionChanged) == Steer(old(Model()), cfg, used, normalize)
    {
      directionChanged := None;
      if SqMagnitude(used) > SqMovementThreshold {
        var dir := normalize(used);
        moveDirection := dir;
        targetVelocity := Scale3(dir, Speed(cfg));
        directionChanged := UpdateRotation(used.x);
      } else {
        targetVelocity := Zero3;
      }
    }

    method UpdateRotation(x: real) returns (directionChanged: Option<bool>)
      modifies this
      ensures Moved(Model(), directionChanged) == Turn(old(Model()), x)
    {
      directionChanged := None;
      if Abs(x) > MovementThreshold {
        var shouldFaceRight := x > 0.0;
        if shouldFaceRight != isFacingRight {
          isFacingRight := shouldFaceRight;
          rotationY := if isFacingRight then RightYaw else LeftYaw;
          directionChanged := Some(isFacingRight);
        }
      }
    }

    /** `Update` with the transform at `position`; raises `OnMovementStateChanged` as `movementChanged`. */
    method Update(position: Vec3, input: Vec2) returns (movementChanged: Option<bool>)
      modifies this
      ensures Moved(Model(), movementChanged) == Frame(old(Model()), cfg, position, input)
    {
      movementChanged := UpdateAnimationState(SqMagnitude3(Sub3(position, lastPosition)), input);
      lastPosition := position;
    }

    /** `UpdateAnimationState`, given the squared positional change. */
    method UpdateAnimationState(sqDelta: real, input: Vec2) returns (movementChanged: Option<bool>)
      modifies this
      ensures Moved(Model(), movementChanged) == AnimationStep(old(Model()), cfg, sqDelta, input)
    {
      movementChanged := None;
      var moving := CurrentlyMoving(cfg, sqDelta, input);
      if moving != isMoving {
        isMoving := moving;
        movementChanged := Some(isMoving);
        if cfg.hasAnimator {
          anim := anim[WalkFlag := isMoving];
        }
      }
    }

    method SetMovementState(b: bool) returns (movementChanged: Option<bool>)
      modifies this
      ensures Moved(Model(), movementChanged) == SetMoving(old(Model()), b)
    {
      movementChanged := None;
      if isMoving != b {
        isMoving := b;
        movementChanged := Some(b);
      }
    }
  }
}
