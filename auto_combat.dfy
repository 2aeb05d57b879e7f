/** Auto-combat: the player's automatic targeting and approach.

    A process-wide registry holds every live enemy (Enemy components register
    themselves when enabled and unregister when disabled or destroyed). While
    auto mode is on, every `targetUpdateInterval` seconds the current target is
    kept if it is still tracked and active; otherwise the first enemy of the
    detection sphere is taken, or, with none detected, a global search over the
    registry runs, or the target is reset. Every frame the player is steered
    towards the target through the input manager's virtual input.

    Calls into the input manager (`SetVirtualInput`) are returned as the list
    of vectors sent, in order; `Input.ApplySends` applies them. Animator writes
    go to an `Animator` map. The `StartAttackWithDelay` coroutines are kept as
    the times at which they resume. */
module AutoTargeting {
  import opened World
  import opened TrackedSet
  import Detection
  import AttackZone

  const TargetUpdateInterval: real := 0.8
  const MinDistanceToEnemy: real := 2.0
  const GlobalSearchInterval: real := 2.0
  const AttackAnimationDelay: real := 0.1

  /** Which optional collaborators are wired up in the inspector. */
  datatype Config = Config(hasInputManager: bool, hasAnimator: bool)

  /** `RegisterEnemy`: only a live, Enemy-tagged object is added. */
  function Register(reg: seq<Entity>, sc: Scene, enemy: Option<Entity>): seq<Entity> {
    if !IsNull(sc, enemy) && HasTag(sc, enemy.value, EnemyTag) then Insert(reg, enemy.value) else reg
  }

  /** `UnregisterEnemy`. */
  function Unregister(reg: seq<Entity>, enemy: Entity): seq<Entity> {
    Delete(reg, enemy)
  }

  /** `Start`'s loop: register every object of the list in turn. */
  function RegisterAll(reg: seq<Entity>, sc: Scene, xs: seq<Entity>): (r: seq<Entity>)
    ensures Distinct(reg) ==> Distinct(r)
    ensures Elems(r) == Elems(reg) + set e | e in xs && e in sc.alive && HasTag(sc, e, EnemyTag)
  {
    if xs == [] then reg
    else
      var init, last := xs[..|xs| - 1], xs[|xs| - 1];
      var r0 := RegisterAll(reg, sc, init);
      assert xs == init + [last];
      Register(r0, sc, Some(last))
  }

  /** Registering adds exactly a live, Enemy-tagged object, and never twice. */
  lemma RegisterAddsOnlyLiveEnemies(reg: seq<Entity>, sc: Scene, enemy: Option<Entity>)
    requires Distinct(reg)
    ensures Distinct(Register(reg, sc, enemy))
    ensures !IsNull(sc, enemy) && HasTag(sc, enemy.value, EnemyTag) ==>
      Elems(Register(reg, sc, enemy)) == Elems(reg) + {enemy.value}
    ensures IsNull(sc, enemy) || !HasTag(sc, enemy.value, EnemyTag) ==> Register(reg, sc, enemy) == reg
    ensures Register(Register(reg, sc, enemy), sc, enemy) == Register(reg, sc, enemy)
  {
  }

  /** Unregistering removes exactly that object; an absent object changes nothing. */
  lemma UnregisterRemovesExactly(reg: seq<Entity>, e: Entity)
    requires Distinct(reg)
    ensures Elems(Unregister(reg, e)) == Elems(reg) - {e} && Distinct(Unregister(reg, e))
    ensures e !in reg ==> Unregister(reg, e) == reg
  {
    if e !in reg {
      FilterAllKept(reg, Elems(reg) - {e});
    }
  }

  /** Registering a new enemy and unregistering it again restores the registry, order included. */
  lemma RegisterThenUnregister(reg: seq<Entity>, sc: Scene, e: Entity)
    requires e !in reg
    ensures Unregister(Register(reg, sc, Some(e)), e) == reg
  {
    var keep := Elems(Register(reg, sc, Some(e))) - {e};
    FilterAllKept(reg, keep);
    if !IsNull(sc, Some(e)) && HasTag(sc, e, EnemyTag) {
      FilterSnoc(reg, e, keep);
    }
  }

  /** The outcome of `FindEnemyGlobally`'s search loop. */
  datatype Search =
    | Faulted          // a destroyed registry entry: reading `activeInHierarchy` throws
    | NoneActive       // no registered enemy is active
    | Found(enemy: Entity)

  /** The loop reads `activeInHierarchy` on every registry entry, which throws
      on a destroyed one; otherwise it is the nearest-active search. */
  function GlobalNearest(reg: seq<Entity>, sc: Scene): Search {
    if exists i | 0 <= i < |reg| :: reg[i] !in sc.alive then Faulted
    else
      match FirstMin(reg, sc.active, DistKey(sc))
      case None => NoneActive
      case Some(e) => Found(e)
  }

  /** The global search throws exactly when a registry entry is destroyed;
      otherwise it finds nothing exactly when no entry is active, and what it
      finds is an active registered enemy at minimal distance, the earliest
      registered one on ties. */
  lemma GlobalNearestChoice(reg: seq<Entity>, sc: Scene)
    ensures GlobalNearest(reg, sc).Faulted? <==> exists i | 0 <= i < |reg| :: reg[i] !in sc.alive
    ensures GlobalNearest(reg, sc).NoneActive? <==>
      (forall i | 0 <= i < |reg| :: reg[i] in sc.alive) && forall i | 0 <= i < |reg| :: reg[i] !in sc.active
    ensures GlobalNearest(reg, sc).Found? ==>
      var e := GlobalNearest(reg, sc).enemy;
      && e in reg && IsActive(sc, e)
      && (forall i | 0 <= i < |reg| && reg[i] in sc.active :: sc.dist(e) <= sc.dist(reg[i]))
      && (forall i | 0 <= i < |reg| && reg[i] in sc.active && sc.dist(reg[i]) == sc.dist(e) :: e in reg[..i + 1])
  {
    NearestChoice(reg, sc.active, sc);
  }

  /** The loop of `FindEnemyGlobally`, with the running `nearestDistance` seeded at `float.MaxValue`. */
  method GlobalSearchLoop(reg: seq<Entity>, sc: Scene) returns (r: Search)
    ensures r == GlobalNearest(reg, sc)
  {
    var nearest: Option<Entity> := None;
    var nearestDistance: real := FloatMax;
    var i := 0;
    while i < |reg|
      invariant 0 <= i <= |reg|
      invariant forall k | 0 <= k < i :: reg[k] in sc.alive
      invariant nearest == FirstMin(reg[..i], sc.active, DistKey(sc))
      invariant nearest.None? ==> nearestDistance == FloatMax
      invariant nearest.Some? ==> nearestDistance == sc.dist(nearest.value) as real
    {
      assert reg[..i + 1][..i] == reg[..i];
      var enemy := reg[i];
      if enemy !in sc.alive {
        return Faulted;
      }
      if enemy in sc.active {
        var distance := sc.dist(enemy) as real;
        if distance < nearestDistance {
          nearestDistance := distance;
          nearest := Some(enemy);
        }
      }
      i := i + 1;
    }
    assert reg[..|reg|] == reg;
    r := if nearest.Some? then Found(nearest.value) else NoneActive;
  }

  /** The fields of an auto-combat component that its decisions read and write. */
  datatype AutoState = AutoState(
    autoModeEnabled: bool,
    useGlobalSearch: bool,
    currentTarget: Option<Entity>,
    isTargetTracking: bool,
    isGlobalSearching: bool,
    targetCheckTimer: real,
    globalSearchTimer: real,
    inactivityTimer: real,
    pendingAttacks: seq<real>,    // resume times of the waiting StartAttackWithDelay coroutines
    anim: Animator)

  /** A call's result: the new state, the vectors passed to `SetVirtualInput`
      in order, and whether an exception ended the call early. */
  datatype Step = Step(state: AutoState, sends: seq<Vec2>, faulted: bool)

  /** `inputManager?.SetVirtualInput(v)`. */
  function Send(cfg: Config, v: Vec2): seq<Vec2> {
    if cfg.hasInputManager then [v] else []
  }

  /** `animator.SetBool(name, v)` behind the null check on `animator`. */
  function SetBool(cfg: Config, anim: Animator, name: string, v: bool): Animator {
    if cfg.hasAnimator then anim[name := v] else anim
  }

  /** `SetNewTarget`. */
  function SetNewTarget(s: AutoState, sc: Scene, target: Option<Entity>): AutoState {
    if IsNull(sc, target) then s
    else s.(currentTarget := target, isTargetTracking := true, inactivityTimer := 0.0)
  }

  /** `ResetTarget` without its `StopMovement` call, which sends a zero vector. */
  function ResetTarget(s: AutoState): AutoState {
    s.(currentTarget := None, isTargetTracking := false, targetCheckTimer := 0.0, globalSearchTimer := 0.0)
  }

  /** `FindEnemyGlobally`. */
  function FindGlobally(s: AutoState, sc: Scene, reg: seq<Entity>): Step {
    var s1 := if !s.isGlobalSearching then s.(isGlobalSearching := true, globalSearchTimer := 0.0) else s;
    if |reg| == 0 then Step(s1, [], false)
    else
      match GlobalNearest(reg, sc)
      case Faulted => Step(s1, [], true)
      case NoneActive => Step(s1, [], false)
      case Found(e) => Step(SetNewTarget(s1.(isGlobalSearching := false), sc, Some(e)), [], false)
  }

  /** Whether `UpdateTarget` keeps the current target. */
  predicate KeepsTarget(s: AutoState, sc: Scene) {
    s.isTargetTracking && !IsNull(sc, s.currentTarget) && s.currentTarget.value in sc.active
  }

  /** `UpdateTarget`; `detected` is the detection sphere's set in enumeration order. */
  function UpdateTarget(s: AutoState, sc: Scene, detected: seq<Entity>, reg: seq<Entity>, cfg: Config): Step {
    if KeepsTarget(s, sc) then Step(s, [], false)
    else if |detected| > 0 then Step(SetNewTarget(s.(isGlobalSearching := false), sc, Some(detected[0])), [], false)
    else if s.useGlobalSearch then FindGlobally(s, sc, reg)
    else Step(ResetTarget(s), Send(cfg, Zero), false)
  }

  /** `CheckForNearbyEnemiesDuringGlobalSearch`: re-aim at the nearest live
      registered enemy. It writes `currentTarget` directly, so tracking and
      the global-search flag are left as they are. */
  function CheckNearby(s: AutoState, sc: Scene, reg: seq<Entity>, cfg: Config): Step {
    if |reg| == 0 then Step(s, [], false)
    else
      var n := FirstMin(reg, sc.alive, DistKey(sc));
      if n.Some? then Step(s.(currentTarget := n), Send(cfg, sc.dirTo(n.value)), false)
      else Step(s, [], false)
  }

  /** `UpdateMovement`: what is sent to the input manager this frame. */
  function Movement(s: AutoState, sc: Scene, cfg: Config): seq<Vec2> {
    if IsNull(sc, s.currentTarget) then []
    else if sc.dist(s.currentTarget.value) > MinDistanceToEnemy then Send(cfg, sc.dirTo(s.currentTarget.value))
    else Send(cfg, Zero)
  }

  /** The target-check half of `Update`. */
  function TargetPhase(s: AutoState, sc: Scene, dt: real, detected: seq<Entity>, reg: seq<Entity>, cfg: Config): Step {
    var t := s.targetCheckTimer + dt;
    if t >= TargetUpdateInterval then UpdateTarget(s.(targetCheckTimer := 0.0), sc, detected, reg, cfg)
    else Step(s.(targetCheckTimer := t), [], false)
  }

  /** The global-search half of `Update`. */
  function SearchPhase(a: Step, sc: Scene, dt: real, reg: seq<Entity>, cfg: Config): Step {
    var s := a.state;
    if !s.isGlobalSearching then a
    else
      var g := s.globalSearchTimer + dt;
      if g >= GlobalSearchInterval then
        var c := CheckNearby(s.(globalSearchTimer := 0.0), sc, reg, cfg);
        Step(c.state, a.sends + c.sends, false)
      else Step(s.(globalSearchTimer := g), a.sends, false)
  }

  /** `Update`: one frame of `dt` seconds. An exception in the global search
      ends the frame, skipping its second half and the movement update. */
  function Tick(s: AutoState, sc: Scene, dt: real, detected: seq<Entity>, reg: seq<Entity>, cfg: Config): Step {
    if !s.autoModeEnabled then Step(s, [], false)
    else
      var a := TargetPhase(s, sc, dt, detected, reg, cfg);
      if a.faulted then a
      else
        var b := SearchPhase(a, sc, dt, reg, cfg);
        Step(b.state, b.sends + Movement(b.state, sc, cfg), false)
  }

  /** `OnEnemyDetected`. */
  function Detected(s: AutoState, sc: Scene, enemy: Entity): AutoState {
    if s.autoModeEnabled && IsNull(sc, s.currentTarget) then s.(currentTarget := Some(enemy)) else s
  }

  /** `OnEnemyLost`: losing the current target re-aims at the nearest live registered enemy, or at nothing. */
  function Lost(s: AutoState, sc: Scene, enemy: Entity, reg: seq<Entity>): AutoState {
    if SameRef(sc, Some(enemy), s.currentTarget) then s.(currentTarget := FirstMin(reg, sc.alive, DistKey(sc)))
    else s
  }

  /** `OnEnemyEnteredAttackRange` at time `now`: the target entering starts a delayed attack. */
  function EnteredAttack(s: AutoState, sc: Scene, enemy: Entity, now: real): AutoState {
    if s.autoModeEnabled && SameRef(sc, Some(enemy), s.currentTarget) then
      s.(pendingAttacks := s.pendingAttacks + [now + AttackAnimationDelay])
    else s
  }

  /** `OnEnemyExitedAttackRange`; `moving` is whether the character's last
      movement delta exceeded 0.1. */
  function ExitedAttack(s: AutoState, sc: Scene, enemy: Entity, moving: bool, cfg: Config): AutoState {
    if s.autoModeEnabled && SameRef(sc, Some(enemy), s.currentTarget) && cfg.hasAnimator then
      s.(anim := SetBool(cfg, SetBool(cfg, SetBool(cfg, s.anim, AttackFlag, false), WalkFlag, moving), IdleFlag, !moving))
    else s
  }

  /** The lost-notifications of a sweep, delivered in order. */
  function LostAll(s: AutoState, sc: Scene, lost: seq<Entity>, reg: seq<Entity>): AutoState {
    if lost == [] then s else Lost(LostAll(s, sc, lost[..|lost| - 1], reg), sc, lost[|lost| - 1], reg)
  }

  /** The exit-notifications of a sweep, delivered in order. */
  function ExitedAll(s: AutoState, sc: Scene, exited: seq<Entity>, moving: bool, cfg: Config): AutoState {
    if exited == [] then s
    else ExitedAttack(ExitedAll(s, sc, exited[..|exited| - 1], moving, cfg), sc, exited[|exited| - 1], moving, cfg)
  }

  /** `ValidateCurrentState`. */
  function ValidateState(s: AutoState, inRange: bool, anyDetected: bool, now: real, cfg: Config): AutoState {
    if inRange then s.(pendingAttacks := s.pendingAttacks + [now + AttackAnimationDelay])
    else if anyDetected then s.(anim := SetBool(cfg, SetBool(cfg, s.anim, WalkFlag, true), AttackFlag, false))
    else s
  }

  /** `SetAutoMode(true)`. `lost` and `exited` are what the two validation
      sweeps report; `detected` and `inRange` are the sets after them. */
  function EnableAuto(s: AutoState, sc: Scene, lost: seq<Entity>, exited: seq<Entity>, detected: seq<Entity>,
                      inRange: bool, reg: seq<Entity>, now: real, moving: bool, cfg: Config): AutoState {
    var s1 := ExitedAll(LostAll(s.(autoModeEnabled := true), sc, lost, reg), sc, exited, moving, cfg);
    ValidateState(InitialTarget(s1, sc, detected), inRange, |detected| > 0, now, cfg)
  }

  /** `SetAutoMode(true)`'s choice after the sweeps: with nothing detected and
      global search on a search starts; otherwise the first detected enemy is taken. */
  function InitialTarget(s: AutoState, sc: Scene, detected: seq<Entity>): AutoState {
    if |detected| == 0 && s.useGlobalSearch then s.(isGlobalSearching := true, globalSearchTimer := 0.0)
    else if |detected| > 0 then SetNewTarget(s, sc, Some(detected[0]))
    else s
  }

  /** `SetAutoMode(false)`: the target is reset and a zero vector sent. The
      pending delayed attacks are not cancelled: the coroutine handle the
      source tries to stop is never assigned. */
  function DisableAuto(s: AutoState): AutoState {
    ResetTarget(s.(autoModeEnabled := false))
  }

  /** The resume times still in the future: every time after `now`, as often
      as it was pending, and no other. */
  function Waiting(ps: seq<real>, now: real): (r: seq<real>)
    ensures |r| <= |ps|
    ensures forall i | 0 <= i < |r| :: r[i] > now
    ensures forall i | 0 <= i < |ps| && ps[i] > now :: ps[i] in r
    ensures forall x :: multiset(r)[x] == if x > now then multiset(ps)[x] else 0
  {
    if ps == [] then []
    else
      var w := Waiting(ps[..|ps| - 1], now);
      assert ps == ps[..|ps| - 1] + [ps[|ps| - 1]];
      assert forall i | 0 <= i < |ps| - 1 :: ps[..|ps| - 1][i] == ps[i];
      if ps[|ps| - 1] > now then w + [ps[|ps| - 1]] else w
  }

  predicate AnyDue(ps: seq<real>, now: real) {
    exists i | 0 <= i < |ps| :: ps[i] <= now
  }

  /** The delayed attacks whose wait is over resume: each sets Attack and
      clears Walk, provided there is an animator and a live target. */
  function ResumeAttacks(s: AutoState, sc: Scene, now: real, cfg: Config): AutoState {
    var s1 := s.(pendingAttacks := Waiting(s.pendingAttacks, now));
    if AnyDue(s.pendingAttacks, now) && cfg.hasAnimator && !IsNull(sc, s.currentTarget) then
      s1.(anim := SetBool(cfg, SetBool(cfg, s1.anim, AttackFlag, true), WalkFlag, false))
    else s1
  }

  /** `SetGlobalSearchEnabled`: a change with auto mode on and no target makes the next frame check targets. */
  function SetGlobalSearch(s: AutoState, sc: Scene, enabled: bool): AutoState {
    if s.useGlobalSearch == enabled then s
    else if s.autoModeEnabled && IsNull(sc, s.currentTarget) then
      s.(useGlobalSearch := enabled, targetCheckTimer := TargetUpdateInterval)
    else s.(useGlobalSearch := enabled)
  }

  /** `SetTarget`. */
  function SetTargetTo(s: AutoState, sc: Scene, target: Option<Entity>): AutoState {
    if IsNull(sc, target) then s else SetNewTarget(s, sc, target).(isGlobalSearching := false)
  }

  // ---- Properties ----

  /** `SetNewTarget(null)` changes nothing; otherwise the target is set and tracked from a fresh inactivity timer. */
  lemma SetNewTargetRule(s: AutoState, sc: Scene, target: Option<Entity>)
    ensures IsNull(sc, target) ==> SetNewTarget(s, sc, target) == s
    ensures !IsNull(sc, target) ==>
      var r := SetNewTarget(s, sc, target);
      r.currentTarget == target && r.isTargetTracking && r.inactivityTimer == 0.0
      && r.(currentTarget := s.currentTarget, isTargetTracking := s.isTargetTracking, inactivityTimer := s.inactivityTimer) == s
  {
  }

  /** While auto mode is off a frame does nothing at all. */
  lemma UpdateOffDoesNothing(s: AutoState, sc: Scene, dt: real, detected: seq<Entity>, reg: seq<Entity>, cfg: Config)
    requires !s.autoModeEnabled
    ensures Tick(s, sc, dt, detected, reg, cfg) == Step(s, [], false)
  {
  }

  /** A tracked, live, active target is kept without any other change. */
  lemma UpdateTargetKeepsTracked(s: AutoState, sc: Scene, detected: seq<Entity>, reg: seq<Entity>, cfg: Config)
    requires s.isTargetTracking && s.currentTarget.Some? && IsActive(sc, s.currentTarget.value)
    ensures UpdateTarget(s, sc, detected, reg, cfg) == Step(s, [], false)
  {
  }

  /** Otherwise the first detected enemy is taken, and the global search stops. */
  lemma UpdateTargetTakesFirstDetected(s: AutoState, sc: Scene, detected: seq<Entity>, reg: seq<Entity>, cfg: Config)
    requires !KeepsTarget(s, sc) && |detected| > 0 && detected[0] in sc.alive
    ensures var r := UpdateTarget(s, sc, detected, reg, cfg);
      && r.state.currentTarget == Some(detected[0]) && r.state.isTargetTracking
      && !r.state.isGlobalSearching && r.sends == [] && !r.faulted
  {
  }

  /** With nothing detected and global search on, the global search decides:
      on success the nearest active registered enemy becomes the tracked
      target and the search stops; with no active enemy the target is
      unchanged and the search stays on. */
  lemma UpdateTargetFallsBackToGlobal(s: AutoState, sc: Scene, reg: seq<Entity>, cfg: Config)
    requires !KeepsTarget(s, sc) && s.useGlobalSearch
    ensures var r := UpdateTarget(s, sc, [], reg, cfg);
      && r == FindGlobally(s, sc, reg)
      && r.sends == []
      && (r.faulted <==> |reg| > 0 && GlobalNearest(reg, sc).Faulted?)
      && (|reg| > 0 && GlobalNearest(reg, sc).Found? ==>
            r.state.currentTarget == Some(GlobalNearest(reg, sc).enemy) && r.state.isTargetTracking && !r.state.isGlobalSearching)
      && (|reg| == 0 || !GlobalNearest(reg, sc).Found? ==>
            r.state.currentTarget == s.currentTarget && r.state.isGlobalSearching)
  {
    GlobalNearestChoice(reg, sc);
  }

  /** With nothing detected and global search off the target is reset and a zero vector sent. */
  lemma UpdateTargetResets(s: AutoState, sc: Scene, reg: seq<Entity>, cfg: Config)
    requires !KeepsTarget(s, sc) && !s.useGlobalSearch
    ensures var r := UpdateTarget(s, sc, [], reg, cfg);
      && r.state.currentTarget == None && !r.state.isTargetTracking
      && r.state.targetCheckTimer == 0.0 && r.state.globalSearchTimer == 0.0
      && r.sends == Send(cfg, Zero) && !r.faulted
  {
  }

  /** Without a target nothing is sent; close to it a zero vector; otherwise the direction towards it. */
  lemma MovementRule(s: AutoState, sc: Scene, cfg: Config)
    ensures IsNull(sc, s.currentTarget) ==> Movement(s, sc, cfg) == []
    ensures !IsNull(sc, s.currentTarget) && sc.dist(s.currentTarget.value) <= MinDistanceToEnemy ==>
      Movement(s, sc, cfg) == Send(cfg, Zero)
    ensures !IsNull(sc, s.currentTarget) && sc.dist(s.currentTarget.value) > MinDistanceToEnemy ==>
      Movement(s, sc, cfg) == Send(cfg, sc.dirTo(s.currentTarget.value))
    ensures |Movement(s, sc, cfg)| <= 1
  {
  }

  /** A frame with auto mode on always ends with the movement update's
      vector, unless the global search threw. */
  lemma FrameEndsWithMovement(s: AutoState, sc: Scene, dt: real, detected: seq<Entity>, reg: seq<Entity>, cfg: Config)
    requires s.autoModeEnabled
    ensures var r := Tick(s, sc, dt, detected, reg, cfg);
      !r.faulted ==> exists pre :: r.sends == pre + Movement(r.state, sc, cfg)
  {
    var r := Tick(s, sc, dt, detected, reg, cfg);
    var a := TargetPhase(s, sc, dt, detected, reg, cfg);
    if !a.faulted {
      var b := SearchPhase(a, sc, dt, reg, cfg);
      assert r.state == b.state;
      assert r.sends == b.sends + Movement(r.state, sc, cfg);
    }
  }

  /** `OnEnemyDetected` sets the target only in auto mode and only when there is none. */
  lemma DetectedRule(s: AutoState, sc: Scene, enemy: Entity)
    ensures Detected(s, sc, enemy) != s ==> s.autoModeEnabled && IsNull(sc, s.currentTarget)
    ensures s.autoModeEnabled && IsNull(sc, s.currentTarget) ==>
      Detected(s, sc, enemy) == s.(currentTarget := Some(enemy))
  {
  }

  /** `OnEnemyLost` changes the target only when the lost enemy is the current
      one (in Unity's sense of `==`), and then to the nearest live registered
      enemy. It does not look at auto mode. */
  lemma LostRule(s: AutoState, sc: Scene, enemy: Entity, reg: seq<Entity>)
    ensures !SameRef(sc, Some(enemy), s.currentTarget) ==> Lost(s, sc, enemy, reg) == s
    ensures Lost(s, sc, enemy, reg).(currentTarget := s.currentTarget) == s
    ensures Lost(s, sc, enemy, reg).autoModeEnabled == s.autoModeEnabled
    ensures SameRef(sc, Some(enemy), s.currentTarget) ==>
      var t := Lost(s, sc, enemy, reg).currentTarget;
      && (t.None? <==> forall i | 0 <= i < |reg| :: reg[i] !in sc.alive)
      && (t.Some? ==>
            && t.value in reg && t.value in sc.alive
            && (forall i | 0 <= i < |reg| && reg[i] in sc.alive :: sc.dist(t.value) <= sc.dist(reg[i]))
            && forall i | 0 <= i < |reg| && reg[i] in sc.alive && sc.dist(reg[i]) == sc.dist(t.value) ::
                 t.value in reg[..i + 1])
  {
    NearestChoice(reg, sc.alive, sc);
  }

  /** A target set by `OnEnemyDetected` is not tracked, so the next target
      check replaces it by the first detected enemy. */
  lemma DetectedTargetNotKept(s: AutoState, sc: Scene, e: Entity, detected: seq<Entity>, reg: seq<Entity>, cfg: Config)
    requires s.autoModeEnabled && s.currentTarget.None? && !s.isTargetTracking
    requires |detected| > 0 && detected[0] in sc.alive && detected[0] != e
    ensures Detected(s, sc, e).currentTarget == Some(e)
    ensures UpdateTarget(Detected(s, sc, e), sc, detected, reg, cfg).state.currentTarget == Some(detected[0])
  {
  }

  /** Auto mode off resets the target and the timers, but leaves the delayed
      attacks waiting. */
  lemma DisableAutoRule(s: AutoState)
    ensures var r := DisableAuto(s);
      && !r.autoModeEnabled && r.currentTarget == None && !r.isTargetTracking
      && r.targetCheckTimer == 0.0 && r.globalSearchTimer == 0.0
      && r.pendingAttacks == s.pendingAttacks && r.anim == s.anim
  {
  }

  /** A delayed attack whose wait is over sets Attack and clears Walk when
      there is an animator and a live target. The attacks whose wait is over
      are gone, the ones still waiting stay, and nothing else changes. */
  lemma ResumeRule(s: AutoState, sc: Scene, now: real, cfg: Config)
    ensures var r := ResumeAttacks(s, sc, now, cfg);
      && (forall i | 0 <= i < |r.pendingAttacks| :: r.pendingAttacks[i] > now)
      && (forall i | 0 <= i < |s.pendingAttacks| && s.pendingAttacks[i] > now :: s.pendingAttacks[i] in r.pendingAttacks)
      && (forall x :: multiset(r.pendingAttacks)[x] == if x > now then multiset(s.pendingAttacks)[x] else 0)
      && r.(pendingAttacks := s.pendingAttacks, anim := s.anim) == s
      && (AnyDue(s.pendingAttacks, now) && cfg.hasAnimator && !IsNull(sc, s.currentTarget) ==>
            AttackFlag in r.anim && r.anim[AttackFlag] && WalkFlag in r.anim && !r.anim[WalkFlag])
      && (!AnyDue(s.pendingAttacks, now) ==> r.anim == s.anim)
  {
  }

  /** Enabling auto mode with a non-empty detection set (which the sweep has
      left holding only live enemies) targets its first enemy. */
  lemma EnableAutoTargetsFirstDetected(s: AutoState, sc: Scene, lost: seq<Entity>, exited: seq<Entity>,
                                       detected: seq<Entity>, inRange: bool, reg: seq<Entity>, now: real,
                                       moving: bool, cfg: Config)
    requires |detected| > 0 && detected[0] in sc.alive
    ensures var r := EnableAuto(s, sc, lost, exited, detected, inRange, reg, now, moving, cfg);
      r.autoModeEnabled && r.currentTarget == Some(detected[0]) && r.isTargetTracking
  {
    EnableKeepsAuto(s, sc, lost, exited, reg, moving, cfg);
  }

  /** Enabling auto mode with nothing detected and global search on starts a global search. */
  lemma EnableAutoStartsGlobalSearch(s: AutoState, sc: Scene, lost: seq<Entity>, exited: seq<Entity>,
                                     inRange: bool, reg: seq<Entity>, now: real, moving: bool, cfg: Config)
    requires s.useGlobalSearch
    ensures var r := EnableAuto(s, sc, lost, exited, [], inRange, reg, now, moving, cfg);
      r.autoModeEnabled && r.isGlobalSearching && r.globalSearchTimer == 0.0
  {
    EnableKeepsAuto(s, sc, lost, exited, reg, moving, cfg);
  }

  /** Delivering the sweeps' notifications keeps auto mode and the global-search setting. */
  lemma EnableKeepsAuto(s: AutoState, sc: Scene, lost: seq<Entity>, exited: seq<Entity>, reg: seq<Entity>,
                        moving: bool, cfg: Config)
    ensures var s1 := ExitedAll(LostAll(s.(autoModeEnabled := true), sc, lost, reg), sc, exited, moving, cfg);
      s1.autoModeEnabled && s1.useGlobalSearch == s.useGlobalSearch
  {
    LostAllKeeps(s.(autoModeEnabled := true), sc, lost, reg);
    ExitedAllKeeps(LostAll(s.(autoModeEnabled := true), sc, lost, reg), sc, exited, moving, cfg);
  }

  lemma {:induction false} LostAllKeeps(s: AutoState, sc: Scene, lost: seq<Entity>, reg: seq<Entity>)
    ensures LostAll(s, sc, lost, reg).(currentTarget := s.currentTarget) == s
  {
    if lost != [] {
      LostAllKeeps(s, sc, lost[..|lost| - 1], reg);
    }
  }

  lemma {:induction false} ExitedAllKeeps(s: AutoState, sc: Scene, exited: seq<Entity>, moving: bool, cfg: Config)
    ensures ExitedAll(s, sc, exited, moving, cfg).(anim := s.anim) == s
  {
    if exited != [] {
      ExitedAllKeeps(s, sc, exited[..|exited| - 1], moving, cfg);
    }
  }

  /** The registry of every enemy in the world (the source's static set). */
  class EnemyRegistry {
    var enemies: seq<Entity>

    predicate Valid()
      reads this
    {
      Distinct(enemies)
    }

    constructor ()
      ensures Valid() && enemies == []
    {
      enemies := [];
    }

    method RegisterEnemy(sc: Scene, enemy: Option<Entity>)
      requires Valid()
      modifies this
      ensures Valid() && enemies == Register(old(enemies), sc, enemy)
    {
      if !IsNull(sc, enemy) && HasTag(sc, enemy.value, EnemyTag) {
        enemies := Insert(enemies, enemy.value);
      }
    }

    method UnregisterEnemy(enemy: Entity) returns (removed: bool)
      requires Valid()
      modifies this
      ensures Valid() && enemies == Unregister(old(enemies), enemy)
      ensures removed <==> enemy in old(enemies)
    {
      removed := enemy in enemies;
      enemies := Delete(enemies, enemy);
    }
  }

  class AutoCombat {
    var autoModeEnabled: bool
    var useGlobalSearch: bool
    var currentTarget: Option<Entity>
    var isTargetTracking: bool
    var isGlobalSearching: bool
    var targetCheckTimer: real
    var globalSearchTimer: real
    var inactivityTimer: real
    var pendingAttacks: seq<real>
    var anim: Animator

    const cfg: Config
    const detectionRange: Detection.DetectionRange
    const attackRange: AttackZone.AttackRange
    const registry: EnemyRegistry

    function Model(): AutoState
      reads this
    {
      AutoState(autoModeEnabled, useGlobalSearch, currentTarget, isTargetTracking, isGlobalSearching,
                targetCheckTimer, globalSearchTimer, inactivityTimer, pendingAttacks, anim)
    }

    predicate Valid()
      reads this, detectionRange, attackRange, registry
    {
      detectionRange.Valid() && attackRange.Valid() && registry.Valid()
    }

    /** The serialised defaults: auto mode off, global search on; `anim` is the animator's initial parameters. */
    constructor (cfg: Config, detectionRange: Detection.DetectionRange, attackRange: AttackZone.AttackRange,
                 registry: EnemyRegistry, anim: Animator)
      requires detectionRange.Valid() && attackRange.Valid() && registry.Valid()
      ensures Valid()
      ensures this.cfg == cfg && this.detectionRange == detectionRange && this.attackRange == attackRange
      ensures this.registry == registry
      ensures Model() == AutoState(false, true, None, false, false, 0.0, 0.0, 0.0, [], anim)
    {
      this.cfg := cfg;
      this.detectionRange := detectionRange;
      this.attackRange := attackRange;
      this.registry := registry;
      autoModeEnabled := false;
      useGlobalSearch := true;
      currentTarget := None;
      isTargetTracking := false;
      isGlobalSearching := false;
      targetCheckTimer := 0.0;
      globalSearchTimer := 0.0;
      inactivityTimer := 0.0;
      pendingAttacks := [];
      this.anim := anim;
    }

    /** `Start`: the first frame checks targets at once, and every object
        tagged Enemy in the scene (`existing`) is registered. */
    method Start(sc: Scene, existing: seq<Entity>)
      requires Valid()
      modifies this, registry
      ensures Valid()
      ensures Model() == old(Model()).(inactivityTimer := 0.0, targetCheckTimer := TargetUpdateInterval)
      ensures registry.enemies == RegisterAll(old(registry.enemies), sc, existing)
    {
      inactivityTimer := 0.0;
      targetCheckTimer := TargetUpdateInterval;
      var i := 0;
      while i < |existing|
        invariant 0 <= i <= |existing|
        invariant registry.Valid() && registry.enemies == RegisterAll(old(registry.enemies), sc, existing[..i])
        invariant Model() == old(Model()).(inactivityTimer := 0.0, targetCheckTimer := TargetUpdateInterval)
      {
        assert existing[..i + 1][..i] == existing[..i];
        registry.RegisterEnemy(sc, Some(existing[i]));
        i := i + 1;
      }
      assert existing[..|existing|] == existing;
    }

    method Update(sc: Scene, dt: real) returns (sends: seq<Vec2>, faulted: bool)
      requires Valid()
      modifies this
      ensures Step(Model(), sends, faulted) == Tick(old(Model()), sc, dt, detectionRange.detected, registry.enemies, cfg)
    {
      sends, faulted := [], false;
      if !autoModeEnabled {
        return;
      }
      ghost var s0 := Model();
      targetCheckTimer := targetCheckTimer + dt;
      if targetCheckTimer >= TargetUpdateInterval {
        targetCheckTimer := 0.0;
        sends, faulted := UpdateTargetNow(sc);
        if faulted {
          return;
        }
      }
      ghost var a := Step(Model(), sends, faulted);
      assert a == TargetPhase(s0, sc, dt, detectionRange.detected, registry.enemies, cfg);
      if isGlobalSearching {
        globalSearchTimer := globalSearchTimer + dt;
        if globalSearchTimer >= GlobalSearchInterval {
          globalSearchTimer := 0.0;
          var more := CheckForNearbyEnemiesDuringGlobalSearch(sc);
          sends := sends + more;
        }
      }
      assert Step(Model(), sends, false) == SearchPhase(a, sc, dt, registry.enemies, cfg);
      var move := UpdateMovement(sc);
      sends := sends + move;
    }

    /** `UpdateTarget`. */
    method UpdateTargetNow(sc: Scene) returns (sends: seq<Vec2>, faulted: bool)
      modifies this
      ensures Step(Model(), sends, faulted) == UpdateTarget(old(Model()), sc, detectionRange.detected, registry.enemies, cfg)
    {
      sends, faulted := [], false;
      if isTargetTracking && !IsNull(sc, currentTarget) && currentTarget.value in sc.active {
        return;
      }
      var detectedCopy := detectionRange.detected;
      if |detectedCopy| > 0 {
        isGlobalSearching := false;
        SetNewTargetTo(sc, Some(detectedCopy[0]));
      } else if useGlobalSearch {
        faulted := FindEnemyGlobally(sc);
      } else {
        sends := ResetTargetNow();
      }
    }

    method FindEnemyGlobally(sc: Scene) returns (faulted: bool)
      modifies this
      ensures Step(Model(), [], faulted) == FindGlobally(old(Model()), sc, registry.enemies)
    {
      faulted := false;
      if !isGlobalSearching {
        isGlobalSearching := true;
        globalSearchTimer := 0.0;
      }
      if |registry.enemies| > 0 {
        var r := GlobalSearchLoop(registry.enemies, sc);
        match r
        case Faulted =>
          faulted := true;
        case NoneActive =>
        case Found(e) =>
          isGlobalSearching := false;
          SetNewTargetTo(sc, Some(e));
      }
    }

    method CheckForNearbyEnemiesDuringGlobalSearch(sc: Scene) returns (sends: seq<Vec2>)
      modifies this
      ensures Step(Model(), sends, false) == CheckNearby(old(Model()), sc, registry.enemies, cfg)
    {
      sends := [];
      if |registry.enemies| == 0 {
        return;
      }
      var nearest := RunningMinimum(registry.enemies, sc.alive, DistKey(sc));
      if nearest.Some? {
        currentTarget := nearest;
        if cfg.hasInputManager {
          sends := [sc.dirTo(nearest.value)];
        }
      }
    }

    method UpdateMovement(sc: Scene) returns (sends: seq<Vec2>)
      ensures sends == Movement(Model(), sc, cfg)
    {
      sends := [];
      if !IsNull(sc, currentTarget) {
        var v := if sc.dist(currentTarget.value) > MinDistanceToEnemy then sc.dirTo(currentTarget.value) else Zero;
        if cfg.hasInputManager {
          sends := [v];
        }
      }
    }

    method SetNewTargetTo(sc: Scene, target: Option<Entity>)
      modifies this
      ensures Model() == SetNewTarget(old(Model()), sc, target)
    {
      if IsNull(sc, target) {
        return;
      }
      currentTarget := target;
      isTargetTracking := true;
      inactivityTimer := 0.0;
    }

    /** `ResetTarget`, with `StopMovement`'s zero vector. */
    method ResetTargetNow() returns (sends: seq<Vec2>)
      modifies this
      ensures Model() == ResetTarget(old(Model())) && sends == Send(cfg, Zero)
    {
      currentTarget := None;
      isTargetTracking := false;
      targetCheckTimer := 0.0;
      globalSearchTimer := 0.0;
      sends := if cfg.hasInputManager then [Zero] else [];
    }

    /** `SetAutoMode(enabled)` at time `now`; `moving` is the character's movement state. */
    method SetAutoMode(sc: Scene, enabled: bool, now: real, moving: bool) returns (sends: seq<Vec2>)
      requires Valid()
      modifies this, detectionRange, attackRange
      ensures Valid()
      ensures enabled ==>
        && detectionRange.detected == Filter(old(detectionRange.detected), Detection.LiveActive(sc))
        && attackRange.enemiesInRange == Filter(old(attackRange.enemiesInRange), Detection.LiveActive(sc))
        && sends == []
        && Model() == EnableAuto(old(Model()), sc,
             Filter(old(detectionRange.detected), Elems(old(detectionRange.detected)) - Detection.LiveActive(sc)),
             Filter(old(attackRange.enemiesInRange), Elems(old(attackRange.enemiesInRange)) - Detection.LiveActive(sc)),
             detectionRange.detected, attackRange.HasEnemiesInRange(), registry.enemies, now, moving, cfg)
      ensures !enabled ==>
        && detectionRange.detected == old(detectionRange.detected)
        && attackRange.enemiesInRange == old(attackRange.enemiesInRange)
        && Model() == DisableAuto(old(Model())) && sends == Send(cfg, Zero)
    {
      if !enabled {
        autoModeEnabled := false;
        sends := ResetTargetNow();
      } else {
        sends := [];
        EnableAutoMode(sc, now, moving);
      }
    }

    /** `SetAutoMode(true)`: both spheres are swept, their notifications
        delivered, then the initial target chosen and the state validated. */
    method EnableAutoMode(sc: Scene, now: real, moving: bool)
      requires Valid()
      modifies this, detectionRange, attackRange
      ensures Valid()
      ensures detectionRange.detected == Filter(old(detectionRange.detected), Detection.LiveActive(sc))
      ensures attackRange.enemiesInRange == Filter(old(attackRange.enemiesInRange), Detection.LiveActive(sc))
      ensures Model() == EnableAuto(old(Model()), sc,
             Filter(old(detectionRange.detected), Elems(old(detectionRange.detected)) - Detection.LiveActive(sc)),
             Filter(old(attackRange.enemiesInRange), Elems(old(attackRange.enemiesInRange)) - Detection.LiveActive(sc)),
             detectionRange.detected, attackRange.HasEnemiesInRange(), registry.enemies, now, moving, cfg)
    {
      autoModeEnabled := true;
      var lost := detectionRange.ValidateDetectedEnemies(sc);
      DeliverLost(sc, lost);
      var exited := attackRange.ValidateEnemiesInRange(sc);
      DeliverExited(sc, exited, moving);
      var detected := detectionRange.GetDetectedEnemies();
      ChooseInitialTarget(sc, detected);
      ValidateCurrentState(now);
    }

    method ChooseInitialTarget(sc: Scene, detected: seq<Entity>)
      modifies this
      ensures Model() == InitialTarget(old(Model()), sc, detected)
    {
      if |detected| == 0 && useGlobalSearch {
        isGlobalSearching := true;
        globalSearchTimer := 0.0;
      } else if |detected| > 0 {
        SetNewTargetTo(sc, Some(detected[0]));
      }
    }

    /** The `OnEnemyLost` calls of the detection sphere's sweep, in order. */
    method DeliverLost(sc: Scene, lost: seq<Entity>)
      modifies this
      ensures Model() == LostAll(old(Model()), sc, lost, registry.enemies)
    {
      var i := 0;
      while i < |lost|
        invariant 0 <= i <= |lost|
        invariant Model() == LostAll(old(Model()), sc, lost[..i], registry.enemies)
      {
        assert lost[..i + 1][..i] == lost[..i];
        OnEnemyLost(sc, lost[i]);
        i := i + 1;
      }
      assert lost[..|lost|] == lost;
    }

    /** The `OnEnemyExitedAttackRange` calls of the attack sphere's sweep, in order. */
    method DeliverExited(sc: Scene, exited: seq<Entity>, moving: bool)
      modifies this
      ensures Model() == ExitedAll(old(Model()), sc, exited, moving, cfg)
    {
      var i := 0;
      while i < |exited|
        invariant 0 <= i <= |exited|
        invariant Model() == ExitedAll(old(Model()), sc, exited[..i], moving, cfg)
      {
        assert exited[..i + 1][..i] == exited[..i];
        OnEnemyExitedAttackRange(sc, exited[i], moving);
        i := i + 1;
      }
      assert exited[..|exited|] == exited;
    }

    method ValidateCurrentState(now: real)
      modifies this
      ensures Model() == ValidateState(old(Model()), attackRange.HasEnemiesInRange(), |detectionRange.detected| > 0, now, cfg)
    {
      if attackRange.HasEnemiesInRange() {
        pendingAttacks := pendingAttacks + [now + AttackAnimationDelay];
      } else if |detectionRange.detected| > 0 {
        anim := SetBool(cfg, SetBool(cfg, anim, WalkFlag, true), AttackFlag, false);
      }
    }

    method OnEnemyDetected(sc: Scene, enemy: Entity)
      modifies this
      ensures Model() == Detected(old(Model()), sc, enemy)
    {
      if !autoModeEnabled {
        return;
      }
      if IsNull(sc, currentTarget) {
        currentTarget := Some(enemy);
      }
    }

    method OnEnemyLost(sc: Scene, enemy: Entity)
      modifies this
      ensures Model() == Lost(old(Model()), sc, enemy, registry.enemies)
    {
      if SameRef(sc, Some(enemy), currentTarget) {
        var newTarget := RunningMinimum(registry.enemies, sc.alive, DistKey(sc));
        currentTarget := newTarget;
      }
    }

    method OnEnemyEnteredAttackRange(sc: Scene, enemy: Entity, now: real)
      modifies this
      ensures Model() == EnteredAttack(old(Model()), sc, enemy, now)
    {
      if !autoModeEnabled {
        return;
      }
      if SameRef(sc, Some(enemy), currentTarget) {
        pendingAttacks := pendingAttacks + [now + AttackAnimationDelay];
      }
    }

    method OnEnemyExitedAttackRange(sc: Scene, enemy: Entity, moving: bool)
      modifies this
      ensures Model() == ExitedAttack(old(Model()), sc, enemy, moving, cfg)
    {
      if !autoModeEnabled {
        return;
      }
      if SameRef(sc, Some(enemy), currentTarget) && cfg.hasAnimator {
        anim := anim[AttackFlag := false];
        if moving {
          anim := anim[WalkFlag := true][IdleFlag := false];
        } else {
          anim := anim[WalkFlag := false][IdleFlag := true];
        }
      }
    }

    /** The engine resuming the delayed attacks whose wait is over at time `now`. */
    method ResumeDelayedAttacks(sc: Scene, now: real)
      modifies this
      ensures Model() == ResumeAttacks(old(Model()), sc, now, cfg)
    {
      var due := AnyDue(pendingAttacks, now);
      pendingAttacks := Waiting(pendingAttacks, now);
      if due && cfg.hasAnimator && !IsNull(sc, currentTarget) {
        anim := anim[AttackFlag := true][WalkFlag := false];
      }
    }

    method SetGlobalSearchEnabled(sc: Scene, enabled: bool)
      modifies this
      ensures Model() == SetGlobalSearch(old(Model()), sc, enabled)
    {
      if useGlobalSearch == enabled {
        return;
      }
      useGlobalSearch := enabled;
      if autoModeEnabled && IsNull(sc, currentTarget) {
        targetCheckTimer := TargetUpdateInterval;
      }
    }

    method SetTarget(sc: Scene, target: Option<Entity>)
      modifies this
      ensures Model() == SetTargetTo(old(Model()), sc, target)
    {
      if !IsNull(sc, target) {
        SetNewTargetTo(sc, target);
        isGlobalSearching := false;
      }
    }

    method IsAutoModeEnabled() returns (b: bool)
      ensures b == autoModeEnabled
    {
      b := autoModeEnabled;
    }
  }
}
