/** The player's combat controller: it writes the animator's Attack, Walk and
    Idle flags when enemies touch the hitbox trigger, clears a stale attack
    pose when no enemy is near, keeps a combat target, and forwards the
    animation events that switch the hitbox. */
module CombatControl {
  import opened World
  import opened Hitbox

  /** `attackRange`, and the radius `Update` looks around in. */
  const AttackRange: real := 2.0
  const PoseCheckRadius: real := 2.0

  datatype ControllerState = ControllerState(
    currentTarget: Option<Entity>,
    isInCombat: bool,
    canAttack: bool,
    anim: Animator)

  /** `Animator.GetBool`: an unset parameter reads as false. */
  predicate Flag(anim: Animator, name: string) {
    name in anim && anim[name]
  }

  /** The attack pose: Attack on, Walk and Idle off. */
  function AttackPose(anim: Animator): Animator {
    anim[AttackFlag := true][WalkFlag := false][IdleFlag := false]
  }

  /** The idle pose: Attack and Walk off, Idle on. */
  function IdlePose(anim: Animator): Animator {
    anim[AttackFlag := false][WalkFlag := false][IdleFlag := true]
  }

  /** Some collider of `nearby` is tagged Enemy. */
  predicate AnyEnemy(sc: Scene, nearby: seq<Entity>) {
    exists i :: 0 <= i < |nearby| && HasTag(sc, nearby[i], EnemyTag)
  }

  predicate IsLiveEnemy(sc: Scene, o: Option<Entity>) {
    !IsNull(sc, o) && HasTag(sc, o.value, EnemyTag)
  }

  /** `HandleEnemyEntered` */
  function Entered(s: ControllerState, hasAnimator: bool, sc: Scene, enemy: Option<Entity>): ControllerState {
    if IsLiveEnemy(sc, enemy) && hasAnimator then s.(anim := AttackPose(s.anim)) else s
  }

  /** `HandleEnemyExited` */
  function Exited(s: ControllerState, hasAnimator: bool, sc: Scene, enemy: Option<Entity>): ControllerState {
    if IsLiveEnemy(sc, enemy) && hasAnimator then s.(anim := IdlePose(s.anim)) else s
  }

  /** `OnTriggerExit` on the controller's own collider. */
  function TriggerExit(s: ControllerState, hasAnimator: bool, sc: Scene, other: Entity): ControllerState {
    if HasTag(sc, other, EnemyTag) then Exited(s, hasAnimator, sc, Some(other)) else s
  }

  /** `Update`, with `nearby` the colliders within `PoseCheckRadius`: an attack
      pose with no enemy near turns Attack off and Idle on. */
  function Frame(s: ControllerState, hasAnimator: bool, sc: Scene, nearby: seq<Entity>): ControllerState {
    if hasAnimator && Flag(s.anim, AttackFlag) && !AnyEnemy(sc, nearby) then
      s.(anim := s.anim[AttackFlag := false][IdleFlag := true])
    else s
  }

  /** `TryAttack` */
  function TryAttack(s: ControllerState, hasAnimator: bool): ControllerState {
    if hasAnimator then s.(anim := AttackPose(s.anim)) else s
  }

  /** `AutoAttack(target)`; turning the character towards the target is not modelled. */
  function AutoAttack(s: ControllerState, hasAnimator: bool, sc: Scene, target: Option<Entity>): ControllerState {
    if !IsNull(sc, target) && s.canAttack then TryAttack(s, hasAnimator) else s
  }

  /** `StartCombat(target)` */
  function StartCombat(s: ControllerState, sc: Scene, target: Option<Entity>): ControllerState {
    if IsNull(sc, target) then s else s.(currentTarget := target, isInCombat := true)
  }

  /** `EndCombat` */
  function EndCombat(s: ControllerState): ControllerState {
    s.(currentTarget := None, isInCombat := false)
  }

  /** Whether `ProcessAttack` fires the Attack trigger. */
  predicate AttackFires(s: ControllerState, sc: Scene) {
    s.isInCombat && !IsNull(sc, s.currentTarget) && sc.dist(s.currentTarget.value) <= AttackRange
  }

  // ---- Properties ----

  /** An enemy touching the hitbox sets the attack pose, one leaving sets the
      idle pose; anything else (and a missing animator) changes nothing. */
  lemma PoseRule(s: ControllerState, hasAnimator: bool, sc: Scene, enemy: Option<Entity>)
    ensures IsLiveEnemy(sc, enemy) && hasAnimator ==>
      && Entered(s, hasAnimator, sc, enemy).anim == AttackPose(s.anim)
      && Exited(s, hasAnimator, sc, enemy).anim == IdlePose(s.anim)
    ensures !(IsLiveEnemy(sc, enemy) && hasAnimator) ==>
      Entered(s, hasAnimator, sc, enemy) == s && Exited(s, hasAnimator, sc, enemy) == s
    ensures Entered(s, hasAnimator, sc, enemy).(anim := s.anim) == s
    ensures Exited(s, hasAnimator, sc, enemy).(anim := s.anim) == s
  {
  }

  /** The two poses read back as stated, and never with Attack and Idle both on. */
  lemma PosesRead(anim: Animator)
    ensures Flag(AttackPose(anim), AttackFlag) && !Flag(AttackPose(anim), WalkFlag) && !Flag(AttackPose(anim), IdleFlag)
    ensures !Flag(IdlePose(anim), AttackFlag) && !Flag(IdlePose(anim), WalkFlag) && Flag(IdlePose(anim), IdleFlag)
    ensures AttackPose(IdlePose(anim)) == AttackPose(anim) && IdlePose(AttackPose(anim)) == IdlePose(anim)
  {
  }

  /** An enemy entering and then leaving ends in the idle pose. */
  lemma EnterThenExitIdles(s: ControllerState, sc: Scene, enemy: Entity)
    requires enemy in sc.alive && HasTag(sc, enemy, EnemyTag)
    ensures Exited(Entered(s, true, sc, Some(enemy)), true, sc, Some(enemy)).anim == IdlePose(s.anim)
  {
  }

  /** `AutoAttack` is `TryAttack` for a live target while attacking is allowed,
      and `TryAttack` sets the same pose as an enemy entering. */
  lemma AutoAttackRule(s: ControllerState, hasAnimator: bool, sc: Scene, target: Option<Entity>)
    ensures IsNull(sc, target) || !s.canAttack ==> AutoAttack(s, hasAnimator, sc, target) == s
    ensures !IsNull(sc, target) && s.canAttack ==> AutoAttack(s, hasAnimator, sc, target) == TryAttack(s, hasAnimator)
    ensures IsLiveEnemy(sc, target) ==> TryAttack(s, hasAnimator) == Entered(s, hasAnimator, sc, target)
  {
  }

  /** `Update` turns a stale attack pose into Idle exactly when no enemy is near;
      Walk is left as it was and nothing happens without an attack pose. */
  lemma FrameRule(s: ControllerState, hasAnimator: bool, sc: Scene, nearby: seq<Entity>)
    ensures hasAnimator && Flag(s.anim, AttackFlag) && !AnyEnemy(sc, nearby) ==>
      var r := Frame(s, hasAnimator, sc, nearby);
      && !Flag(r.anim, AttackFlag) && Flag(r.anim, IdleFlag)
      && (WalkFlag in r.anim <==> WalkFlag in s.anim)
      && (WalkFlag in s.anim ==> r.anim[WalkFlag] == s.anim[WalkFlag])
    ensures !Flag(s.anim, AttackFlag) || AnyEnemy(sc, nearby) || !hasAnimator ==> Frame(s, hasAnimator, sc, nearby) == s
  {
  }

  /** `StartCombat` with a missing or destroyed target does nothing; otherwise
      the character is in combat with it until `EndCombat`. */
  lemma CombatRule(s: ControllerState, sc: Scene, target: Option<Entity>)
    ensures IsNull(sc, target) ==> StartCombat(s, sc, target) == s
    ensures !IsNull(sc, target) ==>
      StartCombat(s, sc, target).isInCombat && StartCombat(s, sc, target).currentTarget == target
    ensures !EndCombat(StartCombat(s, sc, target)).isInCombat && EndCombat(StartCombat(s, sc, target)).currentTarget.None?
    ensures !AttackFires(EndCombat(s), sc)
  {
  }

  /** The attack fires in combat with a live target within range, and only then. */
  lemma AttackFiresRule(s: ControllerState, sc: Scene, target: Entity)
    requires target in sc.alive
    ensures AttackFires(StartCombat(s, sc, Some(target)), sc) <==> sc.dist(target) <= AttackRange
  {
  }

  class CombatController {
    var currentTarget: Option<Entity>
    var isInCombat: bool
    var canAttack: bool
    var anim: Animator

    const hasAnimator: bool
    const hitbox: HitboxController

    function Model(): ControllerState
      reads this
    {
      ControllerState(currentTarget, isInCombat, canAttack, anim)
    }

    /** Nothing starts the `PerformAttack` coroutine, so attacking stays allowed. */
    predicate Valid()
      reads this
    {
      canAttack
    }

    /** The field initialisers and `Awake`; `hitbox` is the hitbox controller found or added. */
    constructor (hasAnimator: bool, anim: Animator, hitbox: HitboxController)
      ensures Valid() && this.hasAnimator == hasAnimator && this.hitbox == hitbox
      ensures Model() == ControllerState(None, false, true, anim)
    {
      this.hasAnimator := hasAnimator;
      this.hitbox := hitbox;
      this.anim := anim;
      currentTarget := None;
      isInCombat := false;
      canAttack := true;
    }

    method HandleEnemyEntered(sc: Scene, enemy: Option<Entity>)
      requires Valid()
      modifies this
      ensures Valid()
      ensures Model() == Entered(old(Model()), hasAnimator, sc, enemy)
    {
      if IsLiveEnemy(sc, enemy) && hasAnimator {
        anim := AttackPose(anim);
      }
    }

    method HandleEnemyExited(sc: Scene, enemy: Option<Entity>)
      requires Valid()
      modifies this
      ensures Valid()
      ensures Model() == Exited(old(Model()), hasAnimator, sc, enemy)
    {
      if IsLiveEnemy(sc, enemy) && hasAnimator {
        anim := IdlePose(anim);
      }
    }

    method OnTriggerExit(sc: Scene, other: Entity)
      requires Valid()
      modifies this
      ensures Valid()
      ensures Model() == TriggerExit(old(Model()), hasAnimator, sc, other)
    {
      if HasTag(sc, other, EnemyTag) {
        HandleEnemyExited(sc, Some(other));
      }
    }

    /** The search loop of `Update`, breaking at the first Enemy-tagged collider. */
    method EnemyNearby(sc: Scene, nearby: seq<Entity>) returns (enemyFound: bool)
      ensures enemyFound <==> AnyEnemy(sc, nearby)
    {
      enemyFound := false;
      var i := 0;
      while i < |nearby|
        invariant 0 <= i <= |nearby|
        invariant forall j :: 0 <= j < i ==> !HasTag(sc, nearby[j], EnemyTag)
      {
        if HasTag(sc, nearby[i], EnemyTag) {
          enemyFound := true;
          break;
        }
        i := i + 1;
      }
    }

    /** `Update`, with `nearby` the colliders within `PoseCheckRadius`. */
    method Update(sc: Scene, nearby: seq<Entity>)
      requires Valid()
      modifies this
      ensures Valid()
      ensures Model() == Frame(old(Model()), hasAnimator, sc, nearby)
    {
      if hasAnimator && Flag(anim, AttackFlag) {
        var enemyFound := EnemyNearby(sc, nearby);
        if !enemyFound {
          anim := anim[AttackFlag := false];
          anim := anim[IdleFlag := true];
        }
      }
    }

    method TryAttackNow()
      requires Valid()
      modifies this
      ensures Valid()
      ensures Model() == TryAttack(old(Model()), hasAnimator)
    {
      if hasAnimator {
        anim := AttackPose(anim);
      }
    }

    method AutoAttackTarget(sc: Scene, target: Option<Entity>)
      requires Valid()
      modifies this
      ensures Valid()
      ensures Model() == AutoAttack(old(Model()), hasAnimator, sc, target)
    {
      if !IsNull(sc, target) && canAttack {
        TryAttackNow();
      }
    }

    method StartCombatWith(sc: Scene, target: Option<Entity>)
      requires Valid()
      modifies this
      ensures Valid()
      ensures Model() == StartCombat(old(Model()), sc, target)
    {
      if IsNull(sc, target) {
        return;
      }
      currentTarget := target;
      isInCombat := true;
    }

    method EndCombatNow()
      requires Valid()
      modifies this
      ensures Valid()
      ensures Model() == EndCombat(old(Model()))
    {
      currentTarget := None;
      isInCombat := false;
    }

    /** `ProcessAttack`: whether the Attack trigger is set. */
    method ProcessAttack(sc: Scene) returns (triggered: bool)
      ensures triggered <==> AttackFires(Model(), sc)
    {
      if !isInCombat || IsNull(sc, currentTarget) {
        return false;
      }
      triggered := sc.dist(currentTarget.value) <= AttackRange;
    }

    /** The animation event forwarded to the hitbox. */
    method ActivateHitbox()
      requires hitbox.Valid()
      modifies hitbox
      ensures hitbox.Valid()
      ensures hitbox.Model() == Activate(old(hitbox.Model()))
    {
      hitbox.ActivateHitbox();
    }

    method DeactivateHitbox()
      requires hitbox.Valid()
      modifies hitbox
      ensures hitbox.Valid()
      ensures hitbox.Model() == Deactivate(old(hitbox.Model()))
    {
      hitbox.DeactivateHitbox();
    }
  }
}
