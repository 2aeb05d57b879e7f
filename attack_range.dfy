/** The attack sphere around the player: the enemies close enough to hit.
    The calls into auto-combat (`OnEnemyEnteredAttackRange`,
    `OnEnemyExitedAttackRange`) are returned as notifications; with no
    auto-combat component the source skips them, which the caller models by
    not delivering them. */
module AttackZone {
  import opened World
  import opened TrackedSet
  import Detection

  class AttackRange {
    var enemiesInRange: seq<Entity>
    const attackRadius: real

    predicate Valid()
      reads this
    {
      Distinct(enemiesInRange)
    }

    constructor ()
      ensures Valid() && enemiesInRange == [] && attackRadius == 2.0
    {
      enemiesInRange := [];
      attackRadius := 2.0;
    }

    method OnTriggerEnter(sc: Scene, other: Entity) returns (entered: Option<Entity>)
      requires Valid()
      modifies this
      ensures Valid()
      ensures HasTag(sc, other, EnemyTag) ==> enemiesInRange == Insert(old(enemiesInRange), other) && entered == Some(other)
      ensures !HasTag(sc, other, EnemyTag) ==> enemiesInRange == old(enemiesInRange) && entered == None
    {
      entered := None;
      if HasTag(sc, other, EnemyTag) {
        enemiesInRange := Insert(enemiesInRange, other);
        entered := Some(other);
      }
    }

    method OnTriggerExit(sc: Scene, other: Entity) returns (exited: Option<Entity>)
      requires Valid()
      modifies this
      ensures Valid()
      ensures HasTag(sc, other, EnemyTag) ==> enemiesInRange == Delete(old(enemiesInRange), other) && exited == Some(other)
      ensures !HasTag(sc, other, EnemyTag) ==> enemiesInRange == old(enemiesInRange) && exited == None
    {
      exited := None;
      if HasTag(sc, other, EnemyTag) {
        enemiesInRange := Delete(enemiesInRange, other);
        exited := Some(other);
      }
    }

    /** Drops every destroyed or inactive entry; each dropped entry is reported
        as having left the attack range, once. */
    method ValidateEnemiesInRange(sc: Scene) returns (exited: seq<Entity>)
      requires Valid()
      modifies this
      ensures Valid()
      ensures enemiesInRange == Filter(old(enemiesInRange), Detection.LiveActive(sc))
      ensures exited == Filter(old(enemiesInRange), Elems(old(enemiesInRange)) - Detection.LiveActive(sc))
      ensures forall e | e in enemiesInRange :: IsActive(sc, e)
      ensures forall e | e in old(enemiesInRange) && !IsActive(sc, e) :: e in exited && e !in enemiesInRange
      ensures Distinct(exited)
    {
      var remaining;
      remaining, exited := SweepInvalid(enemiesInRange, Detection.LiveActive(sc));
      enemiesInRange := remaining;
    }

    function HasEnemiesInRange(): (b: bool)
      reads this
      ensures b <==> Elems(enemiesInRange) != {}
    {
      assert |enemiesInRange| > 0 ==> enemiesInRange[0] in Elems(enemiesInRange);
      |enemiesInRange| > 0
    }

    /** A copy of the set: a value, so changing it cannot change the original. */
    method GetEnemiesInRange() returns (copy: seq<Entity>)
      requires Valid()
      ensures copy == enemiesInRange && Distinct(copy)
    {
      copy := enemiesInRange;
    }
  }
}
