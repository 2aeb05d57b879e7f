/** The melee attack loop driven by the attack trigger: an enemy entering
    becomes the target and is attacked when no cooldown runs; the cooldown
    coroutine is a deadline, and when it is over the attack repeats as long as
    the target is still there. */
module CombatManagement {
  import opened World

  /** Which animator components are present, the attack parameter's name and the cooldown length. */
  datatype ManagerConfig = ManagerConfig(
    hasCharacterAnimator: bool,
    hasAnimator: bool,
    attackParameter: string,
    attackCooldown: real)

  datatype ManagerState = ManagerState(
    currentTarget: Option<Entity>,
    canAttack: bool,
    cooldownEnd: Option<real>,        // the running `AttackCooldown` coroutine's end, if any
    characterAttack: Option<bool>,    // the last attack animation value given to the CharacterAnimator
    anim: Animator)

  /** At most one cooldown runs, and it runs exactly while attacking is blocked. */
  predicate CooldownInv(s: ManagerState) {
    s.canAttack <==> s.cooldownEnd.None?
  }

  /** The attack animation set to `b`: through the CharacterAnimator when there
      is one, else through the Animator's bool parameter, else nowhere. */
  function ShowAttack(s: ManagerState, cfg: ManagerConfig, b: bool): ManagerState {
    if cfg.hasCharacterAnimator then s.(characterAttack := Some(b))
    else if cfg.hasAnimator then s.(anim := s.anim[cfg.attackParameter := b])
    else s
  }

  /** `StartAttack` at time `now`; the cooldown coroutine runs up to its wait at once. */
  function StartAttack(s: ManagerState, cfg: ManagerConfig, now: real): ManagerState {
    if s.canAttack then ShowAttack(s, cfg, true).(canAttack := false, cooldownEnd := Some(now + cfg.attackCooldown))
    else s
  }

  /** `StopAttack` */
  function StopAttack(s: ManagerState, cfg: ManagerConfig): ManagerState {
    ShowAttack(s, cfg, false)
  }

  /** `HandleEnemyEnter` */
  function EnemyEnter(s: ManagerState, cfg: ManagerConfig, enemy: Entity, now: real): ManagerState {
    var s1 := s.(currentTarget := Some(enemy));
    if s1.canAttack then StartAttack(s1, cfg, now) else s1
  }

  /** `HandleEnemyExit`, with Unity's equality on the target. */
  function EnemyExit(s: ManagerState, cfg: ManagerConfig, sc: Scene, enemy: Entity): ManagerState {
    if SameRef(sc, s.currentTarget, Some(enemy)) then StopAttack(s, cfg).(currentTarget := None) else s
  }

  /** The cooldown coroutine resuming at `now`: attacking is allowed again and,
      when the target is still there, the next attack starts. */
  function CooldownOver(s: ManagerState, cfg: ManagerConfig, sc: Scene, now: real): ManagerState {
    var s1 := s.(canAttack := true, cooldownEnd := None);
    if !IsNull(sc, s1.currentTarget) then StartAttack(s1, cfg, now) else s1
  }

  // ---- Properties ----

  /** Every handler keeps the one-cooldown invariant. */
  lemma HandlersKeepInv(s: ManagerState, cfg: ManagerConfig, sc: Scene, enemy: Entity, now: real)
    requires CooldownInv(s)
    ensures CooldownInv(StartAttack(s, cfg, now)) && CooldownInv(StopAttack(s, cfg))
    ensures CooldownInv(EnemyEnter(s, cfg, enemy, now)) && CooldownInv(EnemyExit(s, cfg, sc, enemy))
    ensures s.cooldownEnd.Some? ==> CooldownInv(CooldownOver(s, cfg, sc, now))
  {
  }

  /** Where the attack animation goes: the CharacterAnimator wins over the
      Animator parameter, and nothing else changes. */
  lemma ShowAttackRule(s: ManagerState, cfg: ManagerConfig, b: bool)
    ensures var r := ShowAttack(s, cfg, b);
      && (cfg.hasCharacterAnimator ==> r.characterAttack == Some(b) && r.anim == s.anim)
      && (!cfg.hasCharacterAnimator && cfg.hasAnimator ==>
            r.anim == s.anim[cfg.attackParameter := b] && r.characterAttack == s.characterAttack)
      && (!cfg.hasCharacterAnimator && !cfg.hasAnimator ==> r == s)
      && r.currentTarget == s.currentTarget && r.canAttack == s.canAttack && r.cooldownEnd == s.cooldownEnd
  {
  }

  /** `StartAttack` does nothing while a cooldown runs; otherwise it shows the
      attack and blocks attacking until `now + attackCooldown`. */
  lemma StartAttackRule(s: ManagerState, cfg: ManagerConfig, now: real)
    ensures !s.canAttack ==> StartAttack(s, cfg, now) == s
    ensures s.canAttack ==>
      StartAttack(s, cfg, now) == ShowAttack(s, cfg, true).(canAttack := false, cooldownEnd := Some(now + cfg.attackCooldown))
  {
  }

  /** Entering always sets the target, and attacks exactly when attacking is allowed. */
  lemma EnterRule(s: ManagerState, cfg: ManagerConfig, enemy: Entity, now: real)
    ensures EnemyEnter(s, cfg, enemy, now).currentTarget == Some(enemy)
    ensures !s.canAttack ==> EnemyEnter(s, cfg, enemy, now) == s.(currentTarget := Some(enemy))
    ensures s.canAttack ==>
      !EnemyEnter(s, cfg, enemy, now).canAttack && EnemyEnter(s, cfg, enemy, now).cooldownEnd == Some(now + cfg.attackCooldown)
  {
  }

  /** Only the current target leaving stops the attack and clears the target;
      any other object leaving changes nothing. */
  lemma ExitRule(s: ManagerState, cfg: ManagerConfig, sc: Scene, enemy: Entity)
    ensures SameRef(sc, s.currentTarget, Some(enemy)) ==>
      EnemyExit(s, cfg, sc, enemy) == ShowAttack(s, cfg, false).(currentTarget := None)
    ensures !SameRef(sc, s.currentTarget, Some(enemy)) ==> EnemyExit(s, cfg, sc, enemy) == s
  {
  }

  /** An enemy that enters and then leaves leaves no target behind, and the
      attack animation shows false wherever it is shown. */
  lemma EnterThenExit(s: ManagerState, cfg: ManagerConfig, sc: Scene, enemy: Entity, now: real)
    requires enemy in sc.alive
    ensures var r := EnemyExit(EnemyEnter(s, cfg, enemy, now), cfg, sc, enemy);
      && r.currentTarget.None?
      && (cfg.hasCharacterAnimator ==> r.characterAttack == Some(false))
      && (!cfg.hasCharacterAnimator && cfg.hasAnimator ==> cfg.attackParameter in r.anim && !r.anim[cfg.attackParameter])
  {
  }

  /** When the cooldown is over, attacking is allowed again if the target is
      gone; if it is still there, the next attack starts at once with a new
      cooldown from `now`. */
  lemma CooldownRule(s: ManagerState, cfg: ManagerConfig, sc: Scene, now: real)
    ensures IsNull(sc, s.currentTarget) ==>
      CooldownOver(s, cfg, sc, now) == s.(canAttack := true, cooldownEnd := None)
    ensures !IsNull(sc, s.currentTarget) ==>
      var r := CooldownOver(s, cfg, sc, now);
      && !r.canAttack && r.cooldownEnd == Some(now + cfg.attackCooldown)
      && r == ShowAttack(s, cfg, true).(canAttack := false, cooldownEnd := Some(now + cfg.attackCooldown))
  {
  }

  class CombatManager {
    var currentTarget: Option<Entity>
    var canAttack: bool
    var cooldownEnd: Option<real>
    var characterAttack: Option<bool>
    var anim: Animator

    const cfg: ManagerConfig

    function Model(): ManagerState
      reads this
    {
      ManagerState(currentTarget, canAttack, cooldownEnd, characterAttack, anim)
    }

    predicate Valid()
      reads this
    {
      CooldownInv(Model())
    }

    /** The field initialisers and `Awake`. */
    constructor (cfg: ManagerConfig, anim: Animator)
      ensures Valid() && this.cfg == cfg
      ensures Model() == ManagerState(None, true, None, None, anim)
    {
      this.cfg := cfg;
      currentTarget := None;
      canAttack := true;
      cooldownEnd := None;
      characterAttack := None;
      this.anim := anim;
    }

    method HandleEnemyEnter(enemy: Entity, now: real)
      requires Valid()
      modifies this
      ensures Valid()
      ensures Model() == EnemyEnter(old(Model()), cfg, enemy, now)
    {
      currentTarget := Some(enemy);
      if canAttack {
        StartAttackNow(now);
      }
    }

    method HandleEnemyExit(sc: Scene, enemy: Entity)
      requires Valid()
      modifies this
      ensures Valid()
      ensures Model() == EnemyExit(old(Model()), cfg, sc, enemy)
    {
      if SameRef(sc, currentTarget, Some(enemy)) {
        StopAttackNow();
        currentTarget := None;
      }
    }

    method StartAttackNow(now: real)
      requires Valid()
      modifies this
      ensures Valid()
      ensures Model() == StartAttack(old(Model()), cfg, now)
    {
      if canAttack {
        SetAttackAnimation(true);
        canAttack := false;
        cooldownEnd := Some(now + cfg.attackCooldown);
      }
    }

    method StopAttackNow()
      requires Valid()
      modifies this
      ensures Valid()
      ensures Model() == StopAttack(old(Model()), cfg)
    {
      SetAttackAnimation(false);
    }

    method SetAttackAnimation(b: bool)
      modifies this
      ensures Model() == ShowAttack(old(Model()), cfg, b)
    {
      if cfg.hasCharacterAnimator {
        characterAttack := Some(b);
      } else if cfg.hasAnimator {
        anim := anim[cfg.attackParameter := b];
      }
    }

    /** The engine resuming the cooldown coroutine, whose wait ended by `now`. */
    method ResumeCooldown(sc: Scene, now: real)
      requires Valid() && cooldownEnd.Some? && cooldownEnd.value <= now
      modifies this
      ensures Valid()
      ensures Model() == CooldownOver(old(Model()), cfg, sc, now)
    {
      canAttack := true;
      cooldownEnd := None;
      if !IsNull(sc, currentTarget) {
        StartAttackNow(now);
      }
    }
  }
}
