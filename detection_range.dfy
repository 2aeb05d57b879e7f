/** The detection sphere around the player: the set of enemies whose colliders
    are inside it, kept up to date by trigger events and a validation sweep.
    The calls it makes into auto-combat are returned as notifications
    (`OnEnemyDetected` on enter, `OnEnemyLost` on exit and for every entry the
    sweep drops), which auto-combat then handles. */
module Detection {
  import opened World
  import opened TrackedSet

  /** The objects the validation sweeps keep: not destroyed and active in the hierarchy. */
  function LiveActive(sc: Scene): (s: set<Entity>)
    ensures forall e :: e in s <==> IsActive(sc, e)
  {
    sc.alive * sc.active
  }

  class DetectionRange {
    var detected: seq<Entity>
    const detectionRadius: real

    predicate Valid()
      reads this
    {
      Distinct(detected)
    }

    constructor ()
      ensures Valid() && detected == [] && detectionRadius == 10.0
    {
      detected := [];
      detectionRadius := 10.0;
    }

    /** An Enemy-tagged collider entering is added and reported as detected;
        anything else is ignored. */
    method OnTriggerEnter(sc: Scene, other: Entity) returns (detectedNotice: Option<Entity>)
      requires Valid()
      modifies this
      ensures Valid()
      ensures HasTag(sc, other, EnemyTag) ==> detected == Insert(old(detected), other) && detectedNotice == Some(other)
      ensures !HasTag(sc, other, EnemyTag) ==> detected == old(detected) && detectedNotice == None
    {
      detectedNotice := None;
      if HasTag(sc, other, EnemyTag) {
        detected := Insert(detected, other);
        detectedNotice := Some(other);
      }
    }

    /** An Enemy-tagged collider leaving is removed and reported as lost. */
    method OnTriggerExit(sc: Scene, other: Entity) returns (lostNotice: Option<Entity>)
      requires Valid()
      modifies this
      ensures Valid()
      ensures HasTag(sc, other, EnemyTag) ==> detected == Delete(old(detected), other) && lostNotice == Some(other)
      ensures !HasTag(sc, other, EnemyTag) ==> detected == old(detected) && lostNotice == None
    {
      lostNotice := None;
      if HasTag(sc, other, EnemyTag) {
        detected := Delete(detected, other);
        lostNotice := Some(other);
      }
    }

    /** Drops every destroyed or inactive entry and reports each dropped entry
        as lost, once. Distance is not looked at. */
    method ValidateDetectedEnemies(sc: Scene) returns (lost: seq<Entity>)
      requires Valid()
      modifies this
      ensures Valid()
      ensures detected == Filter(old(detected), LiveActive(sc))
      ensures lost == Filter(old(detected), Elems(old(detected)) - LiveActive(sc))
      ensures forall e | e in detected :: IsActive(sc, e)
      ensures forall e | e in old(detected) && !IsActive(sc, e) :: e in lost && e !in detected
      ensures Distinct(lost)
    {
      var remaining;
      remaining, lost := SweepInvalid(detected, LiveActive(sc));
      detected := remaining;
    }

    /** A copy of the set: a value, so changing it cannot change the original. */
    method GetDetectedEnemies() returns (copy: seq<Entity>)
      requires Valid()
      ensures copy == detected && Distinct(copy)
    {
      copy := detected;
    }

    /** The nearest live entry, the earliest-enumerated one on ties; null when
        the set is empty or holds only destroyed objects. */
    method GetNearestEnemy(sc: Scene) returns (nearest: Option<Entity>)
      ensures nearest.None? <==> forall e | e in detected :: e !in sc.alive
      ensures nearest.Some? ==> nearest.value in detected && nearest.value in sc.alive
      ensures nearest.Some? ==> forall i | 0 <= i < |detected| && detected[i] in sc.alive ::
        sc.dist(nearest.value) <= sc.dist(detected[i])
      ensures nearest.Some? ==> forall i | 0 <= i < |detected| && detected[i] in sc.alive &&
        sc.dist(detected[i]) == sc.dist(nearest.value) :: nearest.value in detected[..i + 1]
    {
      if |detected| == 0 {
        return None;
      }
      nearest := RunningMinimum(detected, sc.alive, DistKey(sc));
      NearestChoice(detected, sc.alive, sc);
    }
  }
}
