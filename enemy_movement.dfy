/** The enemy AI: a Chase/Attack state machine with hysteresis, a stun that
    saves and restores the state, and a frame-skip counter whose period
    depends on the distance to the player.

    The navigation agent is reduced to what the script writes to it
    (`isStopped`, `speed`, the destination); the player is seen through a
    `Sight` value; the stun coroutines are kept as pending restores, each with
    the time its wait ends. */
module EnemyAI {
  import opened World
  import opened NewConstants

  /** `AttackRadius * 1.2f`, folded by the compiler in single precision. */
  const AttackExitRadius: real := 3.6000001430511474609375

  /** Euler Y angles: 0 faces right, 180 faces left. */
  const FaceRight: real := 0.0
  const FaceLeft: real := 180.0

  /** The navigation agent's settings the script writes. */
  datatype Nav = Nav(isStopped: bool, speed: real, destination: Option<Vec3>)

  /** What one update sees of the player: the distance in the XZ plane, the
      player's position at the enemy's fixed height, and whether the player is
      to the enemy's left (smaller x). */
  datatype Sight = Sight(distance: real, destination: Vec3, playerIsLeft: bool)

  /** A running stun coroutine: when its wait ends, and the state it restores. */
  datatype Restore = Restore(at: real, previous: EnemyState)

  datatype EnemyModel = EnemyModel(
    state: EnemyState,
    frequency: UpdateFrequency,
    distanceToPlayer: real,
    lastAttackTime: real,
    patrolIndex: int,
    nav: Nav,
    yaw: real,
    anim: Animator,
    stuns: seq<Restore>)

  /** A step's new state and whether it performed an attack. */
  datatype Acted = Acted(state: EnemyModel, attacked: bool)

  /** A frame's outcome: the new frame counter, state and attack. */
  datatype Ticked = Ticked(counter: int, state: EnemyModel, attacked: bool)

  /** `LookAtTarget`. */
  function LookAt(playerIsLeft: bool): real {
    if playerIsLeft then FaceLeft else FaceRight
  }

  /** `UpdateRotationBasedOnMovement`: `|v| > 0.1` compared on squares. */
  function RotateByMovement(yaw: real, velocity: Vec3): real {
    if SqMagnitude3(velocity) > 0.01 then (if velocity.x < 0.0 then FaceLeft else FaceRight) else yaw
  }

  /** `UpdateAttackBehavior` at time `now`. */
  function AttackBehavior(s: EnemyModel, sight: Sight, now: real): Acted {
    var s1 := s.(yaw := LookAt(sight.playerIsLeft));
    if now - s.lastAttackTime >= AttackCooldown then Acted(s1.(lastAttackTime := now), true)
    else Acted(s1, false)
  }

  /** The state-dependent half of `PerformUpdate`. */
  function Behave(s: EnemyModel, sight: Sight, velocity: Vec3, now: real): Acted {
    match s.state
    case Chase =>
      Acted(s.(nav := s.nav.(destination := Some(sight.destination)), yaw := RotateByMovement(s.yaw, velocity)), false)
    case Attack =>
      var a := AttackBehavior(s, sight, now);
      Acted(a.state.(yaw := LookAt(sight.playerIsLeft)), a.attacked)
    case _ => Acted(s, false)
  }

  /** The state `CheckStateTransitions` picks. */
  function NextState(state: EnemyState, distance: real): EnemyState {
    match state
    case Chase => if distance <= AttackRadius then Attack else Chase
    case Attack => if distance > AttackExitRadius then Chase else Attack
    case _ => state
  }

  /** `InitializeStateBasedProperties`. */
  function Initialize(s: EnemyModel): EnemyModel {
    match s.state
    case Chase => s.(nav := s.nav.(isStopped := false, speed := RunSpeed))
    case Attack => s.(nav := s.nav.(isStopped := true))
    case Stunned => s.(nav := s.nav.(isStopped := true))
    case _ => s
  }

  /** `CheckStateTransitions`. */
  function CheckTransitions(s: EnemyModel): EnemyModel {
    var next := NextState(s.state, s.distanceToPlayer);
    if next != s.state then Initialize(s.(state := next)) else s
  }

  /** `UpdateAnimationState`. */
  function Animate(s: EnemyModel, hasAnimator: bool): EnemyModel {
    if hasAnimator then s.(anim := s.anim[AnimWalk := s.state == Chase][AnimAttack := s.state == Attack]) else s
  }

  /** `PerformUpdate`; `sight` is `None` when there is no player. */
  function PerformUpdate(s: EnemyModel, sight: Option<Sight>, velocity: Vec3, now: real, hasAnimator: bool): Acted {
    if sight.None? then Acted(s, false)
    else
      var d := sight.value.distance;
      var s1 := s.(distanceToPlayer := d, frequency := GetUpdateFrequencyByDistance(d));
      var b := Behave(s1, sight.value, velocity, now);
      Acted(Animate(CheckTransitions(b.state), hasAnimator), b.attacked)
  }

  /** `Update`: one rendered frame, with the frame counter `counter` before it. */
  function Tick(s: EnemyModel, counter: int, sight: Option<Sight>, velocity: Vec3, now: real, hasAnimator: bool): Ticked {
    var c := counter + 1;
    if c >= s.frequency.Frames() then
      var p := PerformUpdate(s, sight, velocity, now, hasAnimator);
      Ticked(0, p.state, p.attacked)
    else Ticked(c, s, false)
  }

  /** `ApplyStun(duration)` at time `now`: the coroutine's first part runs at once. */
  function ApplyStun(s: EnemyModel, duration: real, now: real): EnemyModel {
    if s.state == Stunned then s
    else s.(stuns := s.stuns + [Restore(now + duration, s.state)], state := Stunned, nav := s.nav.(isStopped := true))
  }

  /** The stun coroutine `i` resuming: its saved state comes back and the agent moves again. */
  function EndStun(s: EnemyModel, i: nat): EnemyModel
    requires i < |s.stuns|
  {
    s.(state := s.stuns[i].previous, nav := s.nav.(isStopped := false), stuns := s.stuns[..i] + s.stuns[i + 1..])
  }

  /** `OnTriggerEnter` / `OnTriggerExit` with the player: the state is overwritten, whatever it was. */
  function PlayerEntered(s: EnemyModel, tag: string): EnemyModel {
    if tag == PlayerTag then s.(state := Attack) else s
  }

  function PlayerExited(s: EnemyModel, tag: string): EnemyModel {
    if tag == PlayerTag then s.(state := Chase) else s
  }

  /** `SetDestinationToNextPatrolPoint`'s index step over `count` points. */
  function NextPatrolIndex(index: int, count: nat): int {
    if count == 0 then index else (index + 1) % count
  }

  /** What every step keeps: the frame counter is below the current period. */
  predicate CounterInv(counter: int, s: EnemyModel) {
    0 <= counter < s.frequency.Frames()
  }

  // ---- Properties ----

  /** Chase turns into Attack exactly at or inside the attack radius. */
  lemma ChaseEntersAttack(s: EnemyModel)
    requires s.state == Chase
    ensures CheckTransitions(s).state == Attack <==> s.distanceToPlayer <= AttackRadius
    ensures CheckTransitions(s).state == Chase <==> s.distanceToPlayer > AttackRadius
  {
  }

  /** Attack turns back into Chase only beyond 1.2 times the attack radius;
      between the two bounds each state stays as it is. */
  lemma AttackHysteresis(s: EnemyModel)
    requires s.state == Attack || s.state == Chase
    ensures s.state == Attack ==> (CheckTransitions(s).state == Chase <==> s.distanceToPlayer > AttackExitRadius)
    ensures AttackRadius < s.distanceToPlayer <= AttackExitRadius ==> CheckTransitions(s).state == s.state
  {
  }

  /** The transition check never leaves Stunned (nor any state other than
      Chase and Attack), and the state-based setup runs only on a change. */
  lemma TransitionsKeepOtherStates(s: EnemyModel)
    ensures s.state != Chase && s.state != Attack ==> CheckTransitions(s) == s
    ensures CheckTransitions(s).state == s.state ==> CheckTransitions(s) == s
    ensures CheckTransitions(s).state != s.state ==> CheckTransitions(s) == Initialize(s.(state := CheckTransitions(s).state))
  {
  }

  /** Chase runs at full speed; Attack and Stunned stop the agent. */
  lemma InitializeRule(s: EnemyModel)
    ensures s.state == Chase ==> !Initialize(s).nav.isStopped && Initialize(s).nav.speed == RunSpeed
    ensures s.state == Attack || s.state == Stunned ==> Initialize(s).nav.isStopped
    ensures Initialize(s).state == s.state && Initialize(s).nav.destination == s.nav.destination
  {
  }

  /** After an update with an animator, Walk is set exactly in Chase and
      Attack exactly in Attack, so never both. */
  lemma AnimationExclusive(s: EnemyModel, sight: Option<Sight>, velocity: Vec3, now: real)
    requires sight.Some?
    ensures var r := PerformUpdate(s, sight, velocity, now, true).state;
      && AnimWalk in r.anim && AnimAttack in r.anim
      && (r.anim[AnimWalk] <==> r.state == Chase)
      && (r.anim[AnimAttack] <==> r.state == Attack)
      && !(r.anim[AnimWalk] && r.anim[AnimAttack])
  {
  }

  /** Without a player an update changes nothing. */
  lemma NoPlayerNoUpdate(s: EnemyModel, velocity: Vec3, now: real, hasAnimator: bool)
    ensures PerformUpdate(s, None, velocity, now, hasAnimator) == Acted(s, false)
  {
  }

  /** An update re-reads the distance and re-derives the period from it. */
  lemma UpdateRefreshesFrequency(s: EnemyModel, sight: Sight, velocity: Vec3, now: real, hasAnimator: bool)
    ensures var r := PerformUpdate(s, Some(sight), velocity, now, hasAnimator).state;
      r.distanceToPlayer == sight.distance && r.frequency == GetUpdateFrequencyByDistance(sight.distance)
  {
  }

  /** The frame counter: an update runs exactly on the frame that reaches the
      current period, the counter then returns to 0, and it always stays below
      the period. */
  lemma FrameCounterRule(s: EnemyModel, counter: int, sight: Option<Sight>, velocity: Vec3, now: real, hasAnimator: bool)
    requires CounterInv(counter, s)
    ensures var t := Tick(s, counter, sight, velocity, now, hasAnimator); CounterInv(t.counter, t.state)
    ensures counter + 1 == s.frequency.Frames() ==>
      Tick(s, counter, sight, velocity, now, hasAnimator) ==
        Ticked(0, PerformUpdate(s, sight, velocity, now, hasAnimator).state, PerformUpdate(s, sight, velocity, now, hasAnimator).attacked)
    ensures counter + 1 < s.frequency.Frames() ==>
      Tick(s, counter, sight, velocity, now, hasAnimator) == Ticked(counter + 1, s, false)
  {
  }

  /** `k` frames in a row without a player, from frame counter `counter`. */
  function QuietFrames(s: EnemyModel, counter: int, k: nat, velocity: Vec3, now: real, hasAnimator: bool): Ticked {
    if k == 0 then Ticked(counter, s, false)
    else
      var t := QuietFrames(s, counter, k - 1, velocity, now, hasAnimator);
      Tick(t.state, t.counter, None, velocity, now, hasAnimator)
  }

  /** From a reset counter, the first `period - 1` frames only count. */
  lemma {:induction false} CounterCountsUp(s: EnemyModel, k: nat, velocity: Vec3, now: real, hasAnimator: bool)
    requires k < s.frequency.Frames()
    ensures QuietFrames(s, 0, k, velocity, now, hasAnimator) == Ticked(k, s, false)
  {
    if k > 0 {
      CounterCountsUp(s, k - 1, velocity, now, hasAnimator);
    }
  }

  /** An attack fires only once the cooldown has passed, and then records the time. */
  lemma AttackCooldownRule(s: EnemyModel, sight: Sight, now: real)
    ensures AttackBehavior(s, sight, now).attacked <==> now - s.lastAttackTime >= AttackCooldown
    ensures AttackBehavior(s, sight, now).attacked ==> AttackBehavior(s, sight, now).state.lastAttackTime == now
    ensures !AttackBehavior(s, sight, now).attacked ==> AttackBehavior(s, sight, now).state.lastAttackTime == s.lastAttackTime
  {
  }

  /** Only the Attack state can attack. */
  lemma OnlyAttackStateAttacks(s: EnemyModel, sight: Sight, velocity: Vec3, now: real)
    requires s.state != Attack
    ensures !Behave(s, sight, velocity, now).attacked
  {
  }

  /** A stun while stunned is ignored; otherwise the enemy is stunned and
      stopped, and the state before is saved. */
  lemma StunRule(s: EnemyModel, duration: real, now: real)
    ensures s.state == Stunned ==> ApplyStun(s, duration, now) == s
    ensures s.state != Stunned ==>
      var r := ApplyStun(s, duration, now);
      && r.state == Stunned && r.nav.isStopped
      && r.stuns == s.stuns + [Restore(now + duration, s.state)]
  {
  }

  /** A stun from a non-stunned state, once over, restores that state and
      starts the agent again. */
  lemma StunRestores(s: EnemyModel, duration: real, now: real)
    requires s.state != Stunned && s.stuns == []
    ensures var r := EndStun(ApplyStun(s, duration, now), 0);
      r.state == s.state && !r.nav.isStopped && r.stuns == []
  {
  }

  /** While stunned, updates keep the state and the agent stopped. */
  lemma StunnedUpdatesKeepStun(s: EnemyModel, sight: Option<Sight>, velocity: Vec3, now: real, hasAnimator: bool)
    requires s.state == Stunned
    ensures PerformUpdate(s, sight, velocity, now, hasAnimator).state.state == Stunned
    ensures PerformUpdate(s, sight, velocity, now, hasAnimator).state.nav == s.nav
  {
  }

  /** The player's trigger overwrites the state even while stunned; the agent
      stays stopped and the stun, when it ends, brings back the state saved
      before it. */
  lemma TriggerOverridesStun(s: EnemyModel, duration: real, now: real)
    requires s.state == Chase && s.stuns == []
    ensures var stunned := ApplyStun(s, duration, now);
      var hit := PlayerEntered(stunned, PlayerTag);
      && hit.state == Attack && hit.nav.isStopped
      && EndStun(hit, 0).state == Chase
  {
  }

  /** A second stun can start once a trigger has overwritten the first; both
      coroutines then run, and the one ending last decides the state. */
  lemma OverriddenStunCanStack(s: EnemyModel, d1: real, d2: real, now: real)
    requires s.state == Chase && s.stuns == []
    ensures var r := ApplyStun(PlayerEntered(ApplyStun(s, d1, now), PlayerTag), d2, now);
      && |r.stuns| == 2 && r.stuns[0].previous == Chase && r.stuns[1].previous == Attack
      && EndStun(EndStun(r, 0), 0).state == Attack
      && EndStun(EndStun(r, 1), 0).state == Chase
  {
  }

  /** The patrol index stays in range and advances cyclically; with no points nothing changes. */
  lemma PatrolIndexRule(index: int, count: nat)
    ensures count == 0 ==> NextPatrolIndex(index, count) == index
    ensures count > 0 ==> 0 <= NextPatrolIndex(index, count) < count
    ensures count > 0 && 0 <= index < count - 1 ==> NextPatrolIndex(index, count) == index + 1
    ensures count > 0 && index == count - 1 ==> NextPatrolIndex(index, count) == 0
  {
  }

  class NewEnemyMovement {
    var state: EnemyState
    var frameCounter: int
    var frequency: UpdateFrequency
    var distanceToPlayer: real
    var lastAttackTime: real
    var patrolIndex: int
    var nav: Nav
    var yaw: real
    var anim: Animator
    var stuns: seq<Restore>

    const hasAnimator: bool
    const patrolPoints: seq<Vec3>

    function Model(): EnemyModel
      reads this
    {
      EnemyModel(state, frequency, distanceToPlayer, lastAttackTime, patrolIndex, nav, yaw, anim, stuns)
    }

    predicate Valid()
      reads this
    {
      CounterInv(frameCounter, Model()) && (|patrolPoints| == 0 || 0 <= patrolIndex < |patrolPoints|)
    }

    /** The field initialisers, `Awake` and `Start`: Chase at full speed,
        and the first period from the distance to the player (`float.MaxValue`
        when there is none). */
    constructor (hasAnimator: bool, patrolPoints: seq<Vec3>, anim: Animator, sight: Option<Sight>)
      ensures Valid() && this.hasAnimator == hasAnimator && this.patrolPoints == patrolPoints && frameCounter == 0
      ensures var d := if sight.Some? then sight.value.distance else FloatMax;
        Model() == EnemyModel(Chase, GetUpdateFrequencyByDistance(d), d, 0.0, 0, Nav(false, RunSpeed, None), FaceRight, anim, [])
    {
      this.hasAnimator := hasAnimator;
      this.patrolPoints := patrolPoints;
      this.anim := anim;
      state := Chase;
      frameCounter := 0;
      lastAttackTime := 0.0;
      patrolIndex := 0;
      nav := Nav(false, RunSpeed, None);
      yaw := FaceRight;
      stuns := [];
      var d := if sight.Some? then sight.value.distance else FloatMax;
      distanceToPlayer := d;
      frequency := GetUpdateFrequencyByDistance(d);
      FrequencyAtLeastThree(d);
    }

    /** `Update` at time `now`; `velocity` is the agent's current velocity. */
    method Update(sight: Option<Sight>, velocity: Vec3, now: real) returns (attacked: bool)
      requires Valid()
      modifies this
      ensures Valid()
      ensures Ticked(frameCounter, Model(), attacked) == Tick(old(Model()), old(frameCounter), sight, velocity, now, hasAnimator)
    {
      FrameCounterRule(Model(), frameCounter, sight, velocity, now, hasAnimator);
      frameCounter := frameCounter + 1;
      attacked := false;
      if frameCounter >= frequency.Frames() {
        attacked := PerformUpdateNow(sight, velocity, now);
        frameCounter := 0;
      }
    }

    method PerformUpdateNow(sight: Option<Sight>, velocity: Vec3, now: real) returns (attacked: bool)
      modifies this
      ensures Acted(Model(), attacked) == PerformUpdate(old(Model()), sight, velocity, now, hasAnimator)
      ensures frameCounter == old(frameCounter)
    {
      attacked := false;
      if sight.None? {
        return;
      }
      distanceToPlayer := sight.value.distance;
      frequency := GetUpdateFrequencyByDistance(distanceToPlayer);
      attacked := BehaveNow(sight.value, velocity, now);
      CheckStateTransitions();
      UpdateAnimationState();
    }

    method BehaveNow(sight: Sight, velocity: Vec3, now: real) returns (attacked: bool)
      modifies this
      ensures Acted(Model(), attacked) == Behave(old(Model()), sight, velocity, now)
      ensures frameCounter == old(frameCounter)
    {
      attacked := false;
      match state
      case Chase =>
        nav := nav.(destination := Some(sight.destination));
        yaw := RotateByMovement(yaw, velocity);
      case Attack =>
        attacked := UpdateAttackBehavior(sight, now);
        yaw := LookAt(sight.playerIsLeft);
      case _ =>
    }

    method UpdateAttackBehavior(sight: Sight, now: real) returns (attacked: bool)
      modifies this
      ensures Acted(Model(), attacked) == AttackBehavior(old(Model()), sight, now)
      ensures frameCounter == old(frameCounter)
    {
      yaw := LookAt(sight.playerIsLeft);
      attacked := false;
      if now - lastAttackTime >= AttackCooldown {
        attacked := true;
        lastAttackTime := now;
      }
    }

    method CheckStateTransitions()
      modifies this
      ensures Model() == CheckTransitions(old(Model()))
      ensures frameCounter == old(frameCounter)
    {
      var newState := state;
      match state {
        case Chase =>
          if distanceToPlayer <= AttackRadius {
            newState := Attack;
          }
        case Attack =>
          if distanceToPlayer > AttackExitRadius {
            newState := Chase;
          }
        case _ =>
      }
      if newState != state {
        state := newState;
        InitializeStateBasedProperties();
      }
    }

    method InitializeStateBasedProperties()
      modifies this
      ensures Model() == Initialize(old(Model()))
      ensures frameCounter == old(frameCounter)
    {
      match state
      case Chase =>
        nav := nav.(isStopped := false, speed := RunSpeed);
      case Attack =>
        nav := nav.(isStopped := true);
      case Stunned =>
        nav := nav.(isStopped := true);
      case _ =>
    }

    method UpdateAnimationState()
      modifies this
      ensures Model() == Animate(old(Model()), hasAnimator)
      ensures frameCounter == old(frameCounter)
    {
      if hasAnimator {
        anim := anim[AnimWalk := state == Chase];
        anim := anim[AnimAttack := state == Attack];
      }
    }

    method Stun(duration: real, now: real)
      requires Valid()
      modifies this
      ensures Valid()
      ensures Model() == ApplyStun(old(Model()), duration, now)
      ensures frameCounter == old(frameCounter)
    {
      if state != Stunned {
        stuns := stuns + [Restore(now + duration, state)];
        state := Stunned;
        nav := nav.(isStopped := true);
      }
    }

    /** The engine resuming stun coroutine `i`, whose wait ended by `now`. */
    method ResumeStun(i: nat, now: real)
      requires Valid() && i < |stuns| && stuns[i].at <= now
      modifies this
      ensures Valid()
      ensures Model() == EndStun(old(Model()), i)
      ensures frameCounter == old(frameCounter)
    {
      state := stuns[i].previous;
      nav := nav.(isStopped := false);
      stuns := stuns[..i] + stuns[i + 1..];
    }

    method OnTriggerEnter(tag: string)
      requires Valid()
      modifies this
      ensures Valid()
      ensures Model() == PlayerEntered(old(Model()), tag)
      ensures frameCounter == old(frameCounter)
    {
      if tag == PlayerTag {
        state := Attack;
      }
    }

    method OnTriggerExit(tag: string)
      requires Valid()
      modifies this
      ensures Valid()
      ensures Model() == PlayerExited(old(Model()), tag)
      ensures frameCounter == old(frameCounter)
    {
      if tag == PlayerTag {
        state := Chase;
      }
    }

    /** `SetDestinationToNextPatrolPoint`. */
    method SetDestinationToNextPatrolPoint()
      requires Valid()
      modifies this
      ensures Valid()
      ensures frameCounter == old(frameCounter)
      ensures |patrolPoints| == 0 ==> Model() == old(Model())
      ensures |patrolPoints| > 0 ==>
        Model() == old(Model()).(nav := old(nav).(destination := Some(patrolPoints[old(patrolIndex)])),
                                 patrolIndex := NextPatrolIndex(old(patrolIndex), |patrolPoints|))
    {
      if |patrolPoints| == 0 {
        return;
      }
      nav := nav.(destination := Some(patrolPoints[patrolIndex]));
      patrolIndex := NextPatrolIndex(patrolIndex, |patrolPoints|);
    }
  }
}
