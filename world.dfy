/** Engine-side facts the gameplay scripts read, supplied as plain values.

    A Unity object reference is an `Entity`; a nullable reference is an
    `Option<Entity>`. A `Scene` is what the engine would answer at the moment
    of one call: which objects still exist, which are active in the hierarchy,
    each object's tag, its distance from the component that asks, and the
    normalised XZ direction towards it. Vector arithmetic is not modelled:
    distances are given non-negative reals and directions are opaque values.
 */
module World {

  datatype Option<+T> = None | Some(value: T)

  /** An object reference, compared by identity. */
  datatype Entity = Entity(id: nat)

  /** A 2-D input or direction vector. */
  datatype Vec2 = Vec2(x: real, y: real)

  /** A world position. */
  datatype Vec3 = Vec3(x: real, y: real, z: real)

  const Zero: Vec2 := Vec2(0.0, 0.0)

  /** Largest finite single-precision value (`float.MaxValue`). */
  const FloatMax: real := 340282346638528859811704183484516925440.0

  /** A finite, non-negative distance. Because every distance is below
      `float.MaxValue`, the `float.MaxValue` seed of the source's running
      minimum searches never decides anything. */
  type Distance = r: real | 0.0 <= r < FloatMax

  /** An animator's bool parameters, by name (`Animator.SetBool`). */
  type Animator = map<string, bool>

  /** The bool parameters the player's animator controller declares. */
  const AttackFlag: string := "Attack"
  const WalkFlag: string := "Walk"
  const IdleFlag: string := "Idle"

  const EnemyTag: string := "Enemy"
  const PlayerTag: string := "Player"

  datatype Scene = Scene(
    alive: set<Entity>,            // not destroyed
    active: set<Entity>,           // activeInHierarchy
    tagOf: Entity -> string,       // CompareTag
    dist: Entity -> Distance,      // distance from the asking component
    dirTo: Entity -> Vec2)         // normalised XZ direction towards the object

  /** Unity's `o == null`: true for a missing reference and for a destroyed object. */
  predicate IsNull(sc: Scene, o: Option<Entity>) {
    o.None? || o.value !in sc.alive
  }

  /** `o != null && o.activeInHierarchy` */
  predicate IsActive(sc: Scene, e: Entity) {
    e in sc.alive && e in sc.active
  }

  predicate HasTag(sc: Scene, e: Entity, tag: string) {
    sc.tagOf(e) == tag
  }

  /** Unity's overloaded `a == b`: two "null" references are equal, whether
      missing or destroyed; otherwise equality is identity. */
  predicate SameRef(sc: Scene, a: Option<Entity>, b: Option<Entity>) {
    if IsNull(sc, a) || IsNull(sc, b) then IsNull(sc, a) && IsNull(sc, b) else a == b
  }

  function Min(a: int, b: int): int { if a <= b then a else b }

  function Max(a: int, b: int): int { if a >= b then a else b }

  /** Squared Euclidean length; comparing it against a squared bound avoids a square root. */
  function SqMagnitude(v: Vec2): real { v.x * v.x + v.y * v.y }

  function SqDistance(a: Vec2, b: Vec2): real {
    (a.x - b.x) * (a.x - b.x) + (a.y - b.y) * (a.y - b.y)
  }

  function SqMagnitude3(v: Vec3): real { v.x * v.x + v.y * v.y + v.z * v.z }

  /** `a - b` on world positions. */
  function Sub3(a: Vec3, b: Vec3): Vec3 { Vec3(a.x - b.x, a.y - b.y, a.z - b.z) }

  /** `v * k` */
  function Scale3(v: Vec3, k: real): Vec3 { Vec3(v.x * k, v.y * k, v.z * k) }

  const Zero3: Vec3 := Vec3(0.0, 0.0, 0.0)

  /** Two destroyed objects compare equal, although they are different objects. */
  lemma DestroyedObjectsCompareEqual(sc: Scene, a: Entity, b: Entity)
    requires a !in sc.alive && b !in sc.alive
    ensures SameRef(sc, Some(a), Some(b)) && SameRef(sc, Some(a), None)
  {
  }

  /** On live objects Unity equality is identity. */
  lemma SameRefOnLiveIsIdentity(sc: Scene, a: Entity, b: Entity)
    requires a in sc.alive && b in sc.alive
    ensures SameRef(sc, Some(a), Some(b)) <==> a == b
  {
  }
}
