/** The attack hitbox: a trigger object created inactive when the component
    wakes up, switched on and off by animation events. */
module Hitbox {

  datatype HitboxState = HitboxState(
    hasTrigger: bool,       // a hitbox trigger was created (there was a prefab)
    triggerActive: bool,    // the trigger object's own active flag
    isHitboxActive: bool)

  /** The flag mirrors the trigger object, and without a trigger it stays off. */
  predicate HitboxInv(s: HitboxState) {
    (s.hasTrigger ==> s.triggerActive == s.isHitboxActive) && (!s.hasTrigger ==> !s.isHitboxActive && !s.triggerActive)
  }

  /** `Awake`, that is `CreateHitboxTrigger`: with a prefab the trigger is created and deactivated. */
  function Created(hasPrefab: bool): HitboxState {
    HitboxState(hasPrefab, false, false)
  }

  /** `ActivateHitbox` */
  function Activate(s: HitboxState): HitboxState {
    if s.hasTrigger && !s.isHitboxActive then s.(triggerActive := true, isHitboxActive := true) else s
  }

  /** `DeactivateHitbox` */
  function Deactivate(s: HitboxState): HitboxState {
    if s.hasTrigger && s.isHitboxActive then s.(triggerActive := false, isHitboxActive := false) else s
  }

  // ---- Properties ----

  /** A created hitbox is inactive, with or without a trigger. */
  lemma CreatedInactive(hasPrefab: bool)
    ensures !Created(hasPrefab).isHitboxActive && !Created(hasPrefab).triggerActive
    ensures HitboxInv(Created(hasPrefab))
  {
  }

  /** Activation switches the hitbox on exactly when there is a trigger and it
      is off, and otherwise changes nothing; deactivation is the mirror image. */
  lemma ActivateRule(s: HitboxState)
    requires HitboxInv(s)
    ensures s.hasTrigger ==> Activate(s).isHitboxActive && Activate(s).triggerActive
    ensures !s.hasTrigger || s.isHitboxActive ==> Activate(s) == s
    ensures Activate(s).hasTrigger == s.hasTrigger
    ensures HitboxInv(Activate(s))
  {
  }

  lemma DeactivateRule(s: HitboxState)
    requires HitboxInv(s)
    ensures !Deactivate(s).isHitboxActive && !Deactivate(s).triggerActive
    ensures !s.hasTrigger || !s.isHitboxActive ==> Deactivate(s) == s
    ensures Deactivate(s).hasTrigger == s.hasTrigger
    ensures HitboxInv(Deactivate(s))
  {
  }

  /** Both operations are idempotent, and activating then deactivating leaves
      the hitbox off, as created. */
  lemma ToggleLaws(s: HitboxState)
    ensures Activate(Activate(s)) == Activate(s)
    ensures Deactivate(Deactivate(s)) == Deactivate(s)
    ensures Deactivate(Activate(Created(s.hasTrigger))) == Created(s.hasTrigger)
    ensures HitboxInv(s) ==> Activate(Deactivate(s)) == Activate(s) && Deactivate(Activate(s)) == Deactivate(s)
  {
  }

  class HitboxController {
    var triggerActive: bool
    var isHitboxActive: bool
    const hasTrigger: bool

    function Model(): HitboxState
      reads this
    {
      HitboxState(hasTrigger, triggerActive, isHitboxActive)
    }

    predicate Valid()
      reads this
    {
      HitboxInv(Model())
    }

    /** The field initialiser and `Awake`; `hasPrefab` says whether a hitbox prefab is assigned. */
    constructor (hasPrefab: bool)
      ensures Valid()
      ensures Model() == Created(hasPrefab)
    {
      hasTrigger := hasPrefab;
      isHitboxActive := false;
      triggerActive := false;
    }

    method ActivateHitbox()
      requires Valid()
      modifies this
      ensures Valid()
      ensures Model() == Activate(old(Model()))
    {
      if hasTrigger && !isHitboxActive {
        triggerActive := true;
        isHitboxActive := true;
      }
    }

    method DeactivateHitbox()
      requires Valid()
      modifies this
      ensures Valid()
      ensures Model() == Deactivate(old(Model()))
    {
      if hasTrigger && isHitboxActive {
        triggerActive := false;
        isHitboxActive := false;
      }
    }
  }
}
