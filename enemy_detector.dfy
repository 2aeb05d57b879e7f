/** Weighted target selection with a time-limited cache.

    The detector keeps, for every enemy it has seen, a distance and a
    "stability" weight. Each detection pass drops the entries that are no
    longer valid, lets the surviving weights decay, and raises the weight of
    every enemy the overlap query returned. The chosen target is the valid
    enemy with weight at least 1.0 whose distance divided by twice its weight
    is least. A chosen target is cached and re-used until it becomes invalid
    or five seconds pass.

    Weights are multiples of 0.1 held exactly as integers in tenths: 0.5 is 5,
    0.2 is 2, the threshold 1.0 is 10 and the caps 2.0 and 3.0 are 20 and 30.
    The overlap query's result (`colliders`, one entry per collider, so an
    object with two colliders appears twice) and the clock are parameters. */
module Targeting {
  import opened World
  import opened TrackedSet
  import Detection

  const WeightIncrease: int := 5
  const WeightDecrease: int := 2
  const WeightThreshold: int := 10
  const DetectionCap: int := 20
  const CachedCap: int := 30

  const MaxCacheTime: real := 5.0
  const CacheRefreshThreshold: real := 0.5
  const DetectionInterval: real := 1.5
  const MinDetectionInterval: real := 1.0

  type Weights = map<Entity, int>
  type Distances = map<Entity, Distance>

  /** `IsEnemyValid`: not destroyed, active, and within the search radius. */
  predicate IsEnemyValid(sc: Scene, searchRadius: real, e: Entity) {
    IsActive(sc, e) && sc.dist(e) <= searchRadius
  }

  /** A missing weight entry reads as 0. */
  function WeightOf(w: Weights, e: Entity): int {
    if e in w then w[e] else 0
  }

  predicate WeightsBounded(w: Weights) {
    forall e | e in w :: 0 <= w[e] <= CachedCap
  }

  /** The tracked enemies a detection pass drops. */
  function Stale(w: Weights, sc: Scene, searchRadius: real): set<Entity> {
    set e | e in w && !IsEnemyValid(sc, searchRadius, e)
  }

  /** First loop of `UpdateEnemyData`: every still-valid weight loses 0.2, never going below 0. */
  function Decay(w: Weights, sc: Scene, searchRadius: real): Weights {
    map e | e in w && IsEnemyValid(sc, searchRadius, e) :: Max(0, w[e] - WeightDecrease)
  }

  /** `enemyDistances` after the stale entries are removed. */
  function Prune<V>(d: map<Entity, V>, stale: set<Entity>): map<Entity, V> {
    map e | e in d && e !in stale :: d[e]
  }

  /** Last loop of `UpdateEnemyData`, on weights: every Enemy-tagged collider
      adds 0.5 to its object's weight, starting from 0, capped at 2.0. */
  function Bump(w: Weights, cols: seq<Entity>, sc: Scene): Weights {
    if cols == [] then w
    else
      var w' := Bump(w, cols[..|cols| - 1], sc);
      var c := cols[|cols| - 1];
      if HasTag(sc, c, EnemyTag) then w'[c := Min(WeightOf(w', c) + WeightIncrease, DetectionCap)] else w'
  }

  /** The same loop on distances: every Enemy-tagged collider records its object's distance. */
  function Record(d: Distances, cols: seq<Entity>, sc: Scene): Distances {
    if cols == [] then d
    else
      var d' := Record(d, cols[..|cols| - 1], sc);
      var c := cols[|cols| - 1];
      if HasTag(sc, c, EnemyTag) then d'[c := sc.dist(c)] else d'
  }

  /** The enumeration order of `enemyDistances`' keys as the loop adds them. */
  function RecordOrder(o: seq<Entity>, cols: seq<Entity>, sc: Scene): seq<Entity> {
    if cols == [] then o
    else
      var o' := RecordOrder(o, cols[..|cols| - 1], sc);
      var c := cols[|cols| - 1];
      if HasTag(sc, c, EnemyTag) then Insert(o', c) else o'
  }

  /** Number of Enemy-tagged colliders of `e` in the query result. */
  function Hits(cols: seq<Entity>, sc: Scene, e: Entity): nat {
    if HasTag(sc, e, EnemyTag) then Count(cols, e) else 0
  }

  /** The selection score `distance / (weight * 2)`, for weights at the threshold or above. */
  function Score(d: Distance, w: int): (r: real)
    requires w >= WeightThreshold
    ensures 0.0 <= r <= d / 2.0
  {
    var weight := w as real / 10.0;
    assert weight >= 1.0;
    d / (weight * 2.0)
  }

  datatype DetectorState = DetectorState(
    weights: Weights,
    distances: Distances,
    distanceOrder: seq<Entity>,     // enumeration order of `enemyDistances`' keys
    cachedEnemy: Option<Entity>,
    cacheTimer: real,
    detectionTimer: real,
    lastDetectionTime: real,
    searching: bool)

  /** What every step keeps: weights in [0, 3.0], every weighted enemy has a
      distance, and the key order lists each distance key once. */
  predicate Inv(s: DetectorState) {
    && WeightsBounded(s.weights)
    && s.weights.Keys <= s.distances.Keys
    && Elems(s.distanceOrder) == s.distances.Keys
    && Distinct(s.distanceOrder)
  }

  /** `UpdateEnemyData` as a whole. */
  function UpdateData(s: DetectorState, sc: Scene, searchRadius: real, cols: seq<Entity>): DetectorState {
    var stale := Stale(s.weights, sc, searchRadius);
    s.(weights := Bump(Decay(s.weights, sc, searchRadius), cols, sc),
       distances := Record(Prune(s.distances, stale), cols, sc),
       distanceOrder := RecordOrder(Filter(s.distanceOrder, Elems(s.distanceOrder) - stale), cols, sc))
  }

  /** The enemies `GetBestEnemy` may choose. */
  function Eligible(s: DetectorState, sc: Scene, searchRadius: real): set<Entity> {
    set e | e in s.distanceOrder && IsEnemyValid(sc, searchRadius, e) && WeightOf(s.weights, e) >= WeightThreshold
  }

  function ScoreKey(s: DetectorState): Entity -> real {
    e => if e in s.distances && WeightOf(s.weights, e) >= WeightThreshold
         then Score(s.distances[e], WeightOf(s.weights, e)) else 0.0
  }

  /** `GetBestEnemy`: the running minimum of the score over the distance keys. */
  function BestEnemy(s: DetectorState, sc: Scene, searchRadius: real): Option<Entity> {
    FirstMin(s.distanceOrder, Eligible(s, sc, searchRadius), ScoreKey(s))
  }

  /** `DetectEnemies`. */
  function Detect(s: DetectorState, sc: Scene, searchRadius: real, cols: seq<Entity>): DetectorState {
    if s.cachedEnemy.Some? && IsEnemyValid(sc, searchRadius, s.cachedEnemy.value) then BoostCached(s)
    else if cols == [] then s
    else FullPass(s, sc, searchRadius, cols)
  }

  /** A detection pass with a valid cached enemy: only its weight rises. */
  function BoostCached(s: DetectorState): DetectorState
    requires s.cachedEnemy.Some?
  {
    var c := s.cachedEnemy.value;
    if c in s.weights then s.(weights := s.weights[c := Min(s.weights[c] + WeightIncrease, CachedCap)]) else s
  }

  /** A full detection pass: update the data, then cache the best enemy if there is one. */
  function FullPass(s: DetectorState, sc: Scene, searchRadius: real, cols: seq<Entity>): DetectorState {
    var s1 := UpdateData(s, sc, searchRadius, cols);
    var best := BestEnemy(s1, sc, searchRadius);
    if best.Some? then s1.(cachedEnemy := best, cacheTimer := 0.0) else s1
  }

  /** `ResetCache`. */
  function ClearCache(s: DetectorState): DetectorState {
    s.(cachedEnemy := None, cacheTimer := 0.0)
  }

  /** The cache half of `Update`, after `detectionTimer` has advanced. */
  function TickCache(s: DetectorState, sc: Scene, searchRadius: real, dt: real, debug: bool): DetectorState {
    if IsNull(sc, s.cachedEnemy) then s
    else RefreshHeld(s.(cacheTimer := s.cacheTimer + dt), sc, searchRadius, debug)
  }

  /** The cache step once a live cached enemy's timer has advanced. */
  function RefreshHeld(s1: DetectorState, sc: Scene, searchRadius: real, debug: bool): DetectorState
    requires s1.cachedEnemy.Some?
  {
    var c := s1.cachedEnemy.value;
    if s1.cacheTimer >= MaxCacheTime then ClearCache(s1)
    else if s1.detectionTimer >= CacheRefreshThreshold then
      if !IsEnemyValid(sc, searchRadius, c) then ClearCache(s1)
      else
        var s2 := s1.(distances := s1.distances[c := sc.dist(c)], distanceOrder := Insert(s1.distanceOrder, c));
        if debug && s2.detectionTimer >= DetectionInterval then s2.(detectionTimer := 0.0) else s2
    else s1
  }

  /** Whether `Update` runs a detection pass this frame. */
  predicate DetectionDue(s: DetectorState, sc: Scene, now: real) {
    s.detectionTimer >= DetectionInterval
    || (now - s.lastDetectionTime >= MinDetectionInterval && IsNull(sc, s.cachedEnemy))
  }

  /** `Update`: one frame of `dt` seconds ending at time `now`. */
  function UpdateStep(s: DetectorState, sc: Scene, searchRadius: real, dt: real, now: real,
                      cols: seq<Entity>, debug: bool): DetectorState {
    DetectPhase(TickCache(s.(detectionTimer := s.detectionTimer + dt), sc, searchRadius, dt, debug), sc, searchRadius, now, cols)
  }

  /** The detection half of `Update`. */
  function DetectPhase(s1: DetectorState, sc: Scene, searchRadius: real, now: real, cols: seq<Entity>): DetectorState {
    if DetectionDue(s1, sc, now) then
      Detect(s1, sc, searchRadius, cols).(detectionTimer := 0.0, lastDetectionTime := now)
    else s1
  }

  /** The objects of the query result that carry the Enemy tag. */
  function Tagged(cols: seq<Entity>, sc: Scene): set<Entity> {
    set c | c in cols && HasTag(sc, c, EnemyTag)
  }

  /** What the collider loop does to the key sets: exactly the tagged objects
      are added to both dictionaries, and the bounds on weights survive. */
  lemma PassKeys(w: Weights, d: Distances, o: seq<Entity>, cols: seq<Entity>, sc: Scene)
    ensures Bump(w, cols, sc).Keys == w.Keys + Tagged(cols, sc)
    ensures Record(d, cols, sc).Keys == d.Keys + Tagged(cols, sc)
    ensures Elems(RecordOrder(o, cols, sc)) == Elems(o) + Tagged(cols, sc)
    ensures Distinct(o) ==> Distinct(RecordOrder(o, cols, sc))
    ensures WeightsBounded(w) ==> WeightsBounded(Bump(w, cols, sc))
  {
    BumpKeys(w, cols, sc);
    RecordKeys(d, cols, sc);
    RecordOrderKeys(o, cols, sc);
  }

  lemma TaggedSnoc(cols: seq<Entity>, sc: Scene)
    requires cols != []
    ensures Tagged(cols, sc) == Tagged(cols[..|cols| - 1], sc) +
      (if HasTag(sc, cols[|cols| - 1], EnemyTag) then {cols[|cols| - 1]} else {})
  {
    assert cols == cols[..|cols| - 1] + [cols[|cols| - 1]];
  }

  lemma {:induction false} BumpKeys(w: Weights, cols: seq<Entity>, sc: Scene)
    ensures Bump(w, cols, sc).Keys == w.Keys + Tagged(cols, sc)
    ensures WeightsBounded(w) ==> WeightsBounded(Bump(w, cols, sc))
  {
    if cols != [] {
      BumpKeys(w, cols[..|cols| - 1], sc);
      TaggedSnoc(cols, sc);
    }
  }

  lemma {:induction false} RecordKeys(d: Distances, cols: seq<Entity>, sc: Scene)
    ensures Record(d, cols, sc).Keys == d.Keys + Tagged(cols, sc)
  {
    if cols != [] {
      RecordKeys(d, cols[..|cols| - 1], sc);
      TaggedSnoc(cols, sc);
    }
  }

  lemma {:induction false} RecordOrderKeys(o: seq<Entity>, cols: seq<Entity>, sc: Scene)
    ensures Elems(RecordOrder(o, cols, sc)) == Elems(o) + Tagged(cols, sc)
    ensures Distinct(o) ==> Distinct(RecordOrder(o, cols, sc))
  {
    if cols != [] {
      RecordOrderKeys(o, cols[..|cols| - 1], sc);
      TaggedSnoc(cols, sc);
    }
  }

  /** An object without tagged colliders in the result keeps its weight and distance entries. */
  lemma {:induction false} PassLeavesOthers(w: Weights, d: Distances, cols: seq<Entity>, sc: Scene, e: Entity)
    requires Hits(cols, sc, e) == 0
    ensures (e in Bump(w, cols, sc) <==> e in w) && (e in w ==> Bump(w, cols, sc)[e] == w[e])
    ensures (e in Record(d, cols, sc) <==> e in d) && (e in d ==> Record(d, cols, sc)[e] == d[e])
  {
    if cols != [] {
      var init := cols[..|cols| - 1];
      if HasTag(sc, e, EnemyTag) {
        CountZeroIffAbsent(cols, e);
        CountZeroIffAbsent(init, e);
      }
      PassLeavesOthers(w, d, init, sc, e);
    }
  }

  /** An object with `k > 0` tagged colliders ends with its current distance
      and weight `min(w + 0.5 k, 2.0)`, `w` being its weight before the loop. */
  lemma {:induction false} PassRaises(w: Weights, d: Distances, cols: seq<Entity>, sc: Scene, e: Entity)
    requires Hits(cols, sc, e) > 0
    ensures e in Bump(w, cols, sc) && Bump(w, cols, sc)[e] == Min(WeightOf(w, e) + WeightIncrease * Hits(cols, sc, e), DetectionCap)
    ensures e in Record(d, cols, sc) && Record(d, cols, sc)[e] == sc.dist(e)
  {
    var init, last := cols[..|cols| - 1], cols[|cols| - 1];
    if Hits(init, sc, e) == 0 {
      PassLeavesOthers(w, d, init, sc, e);
    } else {
      PassRaises(w, d, init, sc, e);
    }
  }

  /** First candidate property: a tracked enemy that is no longer valid and
      was not detected again leaves both dictionaries. */
  lemma StaleEntriesRemoved(s: DetectorState, sc: Scene, searchRadius: real, cols: seq<Entity>, e: Entity)
    requires e in s.weights && !IsEnemyValid(sc, searchRadius, e) && Hits(cols, sc, e) == 0
    ensures e !in UpdateData(s, sc, searchRadius, cols).weights
    ensures e !in UpdateData(s, sc, searchRadius, cols).distances
    ensures e !in UpdateData(s, sc, searchRadius, cols).distanceOrder
  {
    var stale := Stale(s.weights, sc, searchRadius);
    PassLeavesOthers(Decay(s.weights, sc, searchRadius), Prune(s.distances, stale), cols, sc, e);
    PassKeys(Decay(s.weights, sc, searchRadius), Prune(s.distances, stale),
      Filter(s.distanceOrder, Elems(s.distanceOrder) - stale), cols, sc);
    if HasTag(sc, e, EnemyTag) {
      CountZeroIffAbsent(cols, e);
    }
    assert e !in Tagged(cols, sc);
    assert e in stale;
    var o1 := Filter(s.distanceOrder, Elems(s.distanceOrder) - stale);
    assert e !in o1;
    assert e !in Elems(o1) + Tagged(cols, sc);
  }

  /** A valid tracked enemy that was not detected again loses 0.2, floored at 0. */
  lemma SurvivorsDecay(s: DetectorState, sc: Scene, searchRadius: real, cols: seq<Entity>, e: Entity)
    requires e in s.weights && IsEnemyValid(sc, searchRadius, e) && Hits(cols, sc, e) == 0
    ensures e in UpdateData(s, sc, searchRadius, cols).weights
    ensures UpdateData(s, sc, searchRadius, cols).weights[e] == Max(0, s.weights[e] - WeightDecrease)
  {
    var stale := Stale(s.weights, sc, searchRadius);
    PassLeavesOthers(Decay(s.weights, sc, searchRadius), Prune(s.distances, stale), cols, sc, e);
  }

  /** A detected enemy gets its distance recorded and `k` raises of 0.5 on top
      of its decayed weight (0 when it was not tracked or was stale), capped at 2.0. */
  lemma DetectedRaised(s: DetectorState, sc: Scene, searchRadius: real, cols: seq<Entity>, e: Entity)
    requires Hits(cols, sc, e) > 0
    ensures var r := UpdateData(s, sc, searchRadius, cols);
      var base := if e in s.weights && IsEnemyValid(sc, searchRadius, e) then Max(0, s.weights[e] - WeightDecrease) else 0;
      && e in r.weights && r.weights[e] == Min(base + WeightIncrease * Hits(cols, sc, e), DetectionCap)
      && e in r.distances && r.distances[e] == sc.dist(e)
  {
    var stale := Stale(s.weights, sc, searchRadius);
    PassRaises(Decay(s.weights, sc, searchRadius), Prune(s.distances, stale), cols, sc, e);
  }

  /** The two rules together: an enemy first seen in this pass, through a
      single collider, ends the pass at 0.5 and so cannot be chosen in it. */
  lemma NewEnemyNotSelectable(s: DetectorState, sc: Scene, searchRadius: real, cols: seq<Entity>, e: Entity)
    requires e !in s.weights && HasTag(sc, e, EnemyTag) && Count(cols, e) == 1
    ensures e in UpdateData(s, sc, searchRadius, cols).weights
    ensures UpdateData(s, sc, searchRadius, cols).weights[e] == WeightIncrease
    ensures BestEnemy(UpdateData(s, sc, searchRadius, cols), sc, searchRadius) != Some(e)
  {
    var r := UpdateData(s, sc, searchRadius, cols);
    DetectedRaised(s, sc, searchRadius, cols, e);
    FirstMinFound(r.distanceOrder, Eligible(r, sc, searchRadius), ScoreKey(r));
  }

  /** Two colliders on one new enemy raise it to exactly the threshold: then
      it can be chosen in the pass that first sees it. */
  lemma DoubleColliderReachesThreshold(s: DetectorState, sc: Scene, searchRadius: real, cols: seq<Entity>, e: Entity)
    requires e !in s.weights && HasTag(sc, e, EnemyTag) && Count(cols, e) == 2
    ensures e in UpdateData(s, sc, searchRadius, cols).weights
    ensures UpdateData(s, sc, searchRadius, cols).weights[e] == WeightThreshold
  {
    DetectedRaised(s, sc, searchRadius, cols, e);
  }

  /** `GetBestEnemy` returns null or a valid enemy of weight at least 1.0 whose
      score no other eligible enemy beats; among equal scores the earlier key wins. */
  lemma BestEnemyChoice(s: DetectorState, sc: Scene, searchRadius: real)
    requires Inv(s)
    ensures var b := BestEnemy(s, sc, searchRadius);
      && (b.None? <==> forall e | e in s.distances :: !IsEnemyValid(sc, searchRadius, e) || WeightOf(s.weights, e) < WeightThreshold)
      && (b.Some? ==> (b.value in s.distances && IsEnemyValid(sc, searchRadius, b.value) && b.value in s.weights
                       && s.weights[b.value] >= WeightThreshold))
      && (b.Some? ==> forall e | e in Eligible(s, sc, searchRadius) ::
            Score(s.distances[b.value], s.weights[b.value]) <= Score(s.distances[e], s.weights[e]))
      && (b.Some? ==> forall i | 0 <= i < |s.distanceOrder| && s.distanceOrder[i] in Eligible(s, sc, searchRadius) &&
                                 Score(s.distances[s.distanceOrder[i]], s.weights[s.distanceOrder[i]]) ==
                                 Score(s.distances[b.value], s.weights[b.value]) ::
            b.value in s.distanceOrder[..i + 1])
  {
    var el, key := Eligible(s, sc, searchRadius), ScoreKey(s);
    FirstMinFound(s.distanceOrder, el, key);
    var b := BestEnemy(s, sc, searchRadius);
    if b.None? {
      forall e | e in s.distances
        ensures !IsEnemyValid(sc, searchRadius, e) || WeightOf(s.weights, e) < WeightThreshold
      {
        var i :| 0 <= i < |s.distanceOrder| && s.distanceOrder[i] == e;
      }
    } else {
      forall e | e in el
        ensures Score(s.distances[b.value], s.weights[b.value]) <= Score(s.distances[e], s.weights[e])
      {
        var i :| 0 <= i < |s.distanceOrder| && s.distanceOrder[i] == e;
        FirstMinLeast(s.distanceOrder, el, key, i);
      }
      forall i | 0 <= i < |s.distanceOrder| && s.distanceOrder[i] in el &&
                 Score(s.distances[s.distanceOrder[i]], s.weights[s.distanceOrder[i]]) ==
                 Score(s.distances[b.value], s.weights[b.value])
        ensures b.value in s.distanceOrder[..i + 1]
      {
        FirstMinEarliest(s.distanceOrder, el, key, i);
      }
    }
  }

  /** An enemy without a weight entry counts as weight 0 and is never chosen. */
  lemma UnweightedNeverChosen(s: DetectorState, sc: Scene, searchRadius: real, e: Entity)
    requires e !in s.weights
    ensures BestEnemy(s, sc, searchRadius) != Some(e)
  {
    FirstMinFound(s.distanceOrder, Eligible(s, sc, searchRadius), ScoreKey(s));
  }

  /** Removing the stale entries and decaying the rest keeps the invariant. */
  lemma PruneKeepsInv(s: DetectorState, sc: Scene, searchRadius: real)
    requires Inv(s)
    ensures var stale := Stale(s.weights, sc, searchRadius);
      Inv(s.(weights := Decay(s.weights, sc, searchRadius), distances := Prune(s.distances, stale),
             distanceOrder := Filter(s.distanceOrder, Elems(s.distanceOrder) - stale)))
  {
    var stale := Stale(s.weights, sc, searchRadius);
    var w1, d1 := Decay(s.weights, sc, searchRadius), Prune(s.distances, stale);
    var o1 := Filter(s.distanceOrder, Elems(s.distanceOrder) - stale);
    assert w1.Keys == s.weights.Keys - stale;
    assert d1.Keys == s.distances.Keys - stale;
    assert Elems(o1) == Elems(s.distanceOrder) - stale;
  }

  lemma UpdateDataKeepsInv(s: DetectorState, sc: Scene, searchRadius: real, cols: seq<Entity>)
    requires Inv(s)
    ensures Inv(UpdateData(s, sc, searchRadius, cols))
  {
    var stale := Stale(s.weights, sc, searchRadius);
    PruneKeepsInv(s, sc, searchRadius);
    PassKeys(Decay(s.weights, sc, searchRadius), Prune(s.distances, stale),
      Filter(s.distanceOrder, Elems(s.distanceOrder) - stale), cols, sc);
  }

  /** A detection pass keeps the bounds on weights and the agreement of the key sets. */
  lemma DetectKeepsInv(s: DetectorState, sc: Scene, searchRadius: real, cols: seq<Entity>)
    requires Inv(s)
    ensures Inv(Detect(s, sc, searchRadius, cols))
  {
    if !(s.cachedEnemy.Some? && IsEnemyValid(sc, searchRadius, s.cachedEnemy.value)) && cols != [] {
      UpdateDataKeepsInv(s, sc, searchRadius, cols);
    }
  }

  lemma TickCacheKeepsInv(s: DetectorState, sc: Scene, searchRadius: real, dt: real, debug: bool)
    requires Inv(s)
    ensures Inv(TickCache(s, sc, searchRadius, dt, debug))
  {
    if !IsNull(sc, s.cachedEnemy) {
      RefreshHeldKeepsInv(s.(cacheTimer := s.cacheTimer + dt), sc, searchRadius, debug);
    }
  }

  lemma RefreshHeldKeepsInv(s1: DetectorState, sc: Scene, searchRadius: real, debug: bool)
    requires Inv(s1) && s1.cachedEnemy.Some?
    ensures Inv(RefreshHeld(s1, sc, searchRadius, debug))
  {
    var c := s1.cachedEnemy.value;
    if s1.cacheTimer < MaxCacheTime && s1.detectionTimer >= CacheRefreshThreshold && IsEnemyValid(sc, searchRadius, c) {
      var s2 := s1.(distances := s1.distances[c := sc.dist(c)], distanceOrder := Insert(s1.distanceOrder, c));
      assert Inv(s2);
    }
  }

  /** Every frame keeps the invariant; in particular every stored weight stays in [0, 3.0]. */
  lemma UpdateKeepsInv(s: DetectorState, sc: Scene, searchRadius: real, dt: real, now: real, cols: seq<Entity>, debug: bool)
    requires Inv(s)
    ensures Inv(UpdateStep(s, sc, searchRadius, dt, now, cols, debug))
    ensures forall e | e in UpdateStep(s, sc, searchRadius, dt, now, cols, debug).weights ::
      0 <= UpdateStep(s, sc, searchRadius, dt, now, cols, debug).weights[e] <= CachedCap
  {
    var s0 := s.(detectionTimer := s.detectionTimer + dt);
    TickCacheKeepsInv(s0, sc, searchRadius, dt, debug);
    var s1 := TickCache(s0, sc, searchRadius, dt, debug);
    if DetectionDue(s1, sc, now) {
      DetectKeepsInv(s1, sc, searchRadius, cols);
      InvIgnoresTimers(Detect(s1, sc, searchRadius, cols), now);
    }
  }

  lemma InvIgnoresTimers(s: DetectorState, now: real)
    requires Inv(s)
    ensures Inv(s.(detectionTimer := 0.0, lastDetectionTime := now))
  {
  }

  /** With a valid cached enemy a detection pass only raises that enemy's
      weight, by 0.5 up to 3.0, and changes nothing else. */
  lemma CachedPassRaisesOnlyCached(s: DetectorState, sc: Scene, searchRadius: real, cols: seq<Entity>)
    requires s.cachedEnemy.Some? && IsEnemyValid(sc, searchRadius, s.cachedEnemy.value)
    ensures var r := Detect(s, sc, searchRadius, cols);
      var c := s.cachedEnemy.value;
      && r.(weights := s.weights) == s
      && r.weights.Keys == s.weights.Keys
      && (forall e | e in s.weights && e != c :: r.weights[e] == s.weights[e])
      && (c in s.weights ==> r.weights[c] == Min(s.weights[c] + WeightIncrease, CachedCap))
  {
  }

  /** Without a valid cached enemy and with an empty query result nothing changes. */
  lemma EmptyQueryChangesNothing(s: DetectorState, sc: Scene, searchRadius: real)
    requires !(s.cachedEnemy.Some? && IsEnemyValid(sc, searchRadius, s.cachedEnemy.value))
    ensures Detect(s, sc, searchRadius, []) == s
  {
  }

  /** The cache is cleared once it has been held for `maxCacheTime`. */
  lemma CacheExpires(s: DetectorState, sc: Scene, searchRadius: real, dt: real, debug: bool)
    requires !IsNull(sc, s.cachedEnemy) && s.cacheTimer + dt >= MaxCacheTime
    ensures TickCache(s, sc, searchRadius, dt, debug) == s.(cachedEnemy := None, cacheTimer := 0.0)
  {
  }

  /** A refresh check that finds the cached enemy destroyed, inactive or out of
      range clears the cache. */
  lemma InvalidCacheCleared(s: DetectorState, sc: Scene, searchRadius: real, dt: real, debug: bool)
    requires !IsNull(sc, s.cachedEnemy) && s.cacheTimer + dt < MaxCacheTime
    requires s.detectionTimer >= CacheRefreshThreshold && !IsEnemyValid(sc, searchRadius, s.cachedEnemy.value)
    ensures TickCache(s, sc, searchRadius, dt, debug) == s.(cachedEnemy := None, cacheTimer := 0.0)
  {
  }

  /** The cache survives a frame only while it is younger than `maxCacheTime`
      and, at a refresh check, still valid. */
  lemma CacheKeptOnlyWhileFreshAndValid(s: DetectorState, sc: Scene, searchRadius: real, dt: real, debug: bool)
    requires !IsNull(sc, s.cachedEnemy)
    requires TickCache(s, sc, searchRadius, dt, debug).cachedEnemy == s.cachedEnemy
    ensures s.cacheTimer + dt < MaxCacheTime
    ensures s.detectionTimer >= CacheRefreshThreshold ==> IsEnemyValid(sc, searchRadius, s.cachedEnemy.value)
    ensures TickCache(s, sc, searchRadius, dt, debug).cacheTimer == s.cacheTimer + dt
  {
  }

  /** The debug flag changes behaviour: with a valid cached enemy and the
      detection interval reached, logging resets `detectionTimer` before the
      detection gate, so the pass that would raise the cached weight is skipped. */
  lemma DebugFlagSkipsCachedPass(s: DetectorState, sc: Scene, searchRadius: real, dt: real, now: real, cols: seq<Entity>)
    requires s.cachedEnemy.Some? && IsEnemyValid(sc, searchRadius, s.cachedEnemy.value)
    requires s.cacheTimer + dt < MaxCacheTime && s.detectionTimer + dt >= DetectionInterval
    requires s.cachedEnemy.value in s.weights && s.weights[s.cachedEnemy.value] < CachedCap
    ensures UpdateStep(s, sc, searchRadius, dt, now, cols, true).weights == s.weights
    ensures UpdateStep(s, sc, searchRadius, dt, now, cols, false).weights[s.cachedEnemy.value]
         > s.weights[s.cachedEnemy.value]
  {
  }

  /** `SetActiveSearch`: an unchanged value does nothing; switching on makes the
      next frame run a detection pass; switching off adopts `nearest` as the
      cached enemy when it is not null. */
  function SetSearch(s: DetectorState, active: bool, nearest: Option<Entity>, sc: Scene): DetectorState {
    if s.searching == active then s
    else if active then s.(searching := true, detectionTimer := DetectionInterval)
    else if !IsNull(sc, nearest) then s.(searching := false, cachedEnemy := nearest, cacheTimer := 0.0)
    else s.(searching := false)
  }

  /** The `nearestEnemy` field is never assigned, so switching the search off
      never touches the cache. */
  lemma SetSearchNeverTouchesCache(s: DetectorState, active: bool, sc: Scene)
    ensures SetSearch(s, active, None, sc).(searching := s.searching, detectionTimer := s.detectionTimer) == s
    ensures SetSearch(s, s.searching, None, sc) == s
  {
  }

  /** The entries `ValidateDetectedEnemies` keeps: live, active and within `detectionRadius`. */
  function InDetectionRadius(xs: seq<Entity>, sc: Scene, detectionRadius: real): (keep: set<Entity>)
    ensures forall e | e in xs :: e in keep <==> IsActive(sc, e) && sc.dist(e) <= detectionRadius
  {
    set e | e in xs && IsActive(sc, e) && sc.dist(e) <= detectionRadius
  }

  class EnemyDetector {
    var weights: Weights
    var distances: Distances
    var distanceOrder: seq<Entity>
    var cachedEnemy: Option<Entity>
    var cacheTimer: real
    var detectionTimer: real
    var lastDetectionTime: real
    var isActivelySearching: bool
    var detected: seq<Entity>

    /** `settings.searchRadius`. */
    const searchRadius: real
    const detectionRadius: real
    const debugDetection: bool
    /** Declared and read, but never assigned: it stays null. */
    const nearestEnemy: Option<Entity>

    function Model(): DetectorState
      reads this
    {
      DetectorState(weights, distances, distanceOrder, cachedEnemy, cacheTimer, detectionTimer,
                    lastDetectionTime, isActivelySearching)
    }

    predicate Valid()
      reads this
    {
      Inv(Model()) && Distinct(detected)
    }

    constructor (searchRadius: real, debugDetection: bool)
      ensures Valid() && this.searchRadius == searchRadius && this.debugDetection == debugDetection
      ensures detectionRadius == 10.0 && nearestEnemy == None && detected == []
      ensures Model() == DetectorState(map[], map[], [], None, 0.0, 0.0, 0.0, false)
    {
      weights, distances, distanceOrder := map[], map[], [];
      cachedEnemy, cacheTimer, detectionTimer, lastDetectionTime := None, 0.0, 0.0, 0.0;
      isActivelySearching := false;
      detected := [];
      this.searchRadius := searchRadius;
      detectionRadius := 10.0;
      this.debugDetection := debugDetection;
      nearestEnemy := None;
    }

    /** `Awake`: a detection pass may run on the very first frame. */
    method Awake()
      modifies this
      ensures Model() == old(Model()).(lastDetectionTime := -MinDetectionInterval)
      ensures detected == old(detected)
    {
      lastDetectionTime := -MinDetectionInterval;
    }

    method SetActiveSearch(sc: Scene, active: bool)
      requires Valid()
      modifies this
      ensures Valid() && detected == old(detected)
      ensures Model() == SetSearch(old(Model()), active, nearestEnemy, sc)
    {
      if isActivelySearching == active {
        return;
      }
      isActivelySearching := active;
      if active {
        detectionTimer := DetectionInterval;
      } else {
        if !IsNull(sc, nearestEnemy) {
          cachedEnemy := nearestEnemy;
          cacheTimer := 0.0;
        }
      }
    }

    method ResetCache()
      modifies this
      ensures Model() == ClearCache(old(Model())) && detected == old(detected)
    {
      cachedEnemy := None;
      cacheTimer := 0.0;
    }

    method GetCurrentTarget() returns (t: Option<Entity>)
      ensures t == cachedEnemy
    {
      t := cachedEnemy;
    }

    /** One frame: `dt` seconds have passed and the clock reads `now`;
        `cols` is what the overlap query would return this frame. */
    method Update(sc: Scene, dt: real, now: real, cols: seq<Entity>)
      requires Valid()
      modifies this
      ensures Valid() && detected == old(detected)
      ensures Model() == UpdateStep(old(Model()), sc, searchRadius, dt, now, cols, debugDetection)
    {
      detectionTimer := detectionTimer + dt;
      RefreshCache(sc, dt);
      DetectIfDue(sc, now, cols);
    }

    /** The detection half of `Update`. */
    method DetectIfDue(sc: Scene, now: real, cols: seq<Entity>)
      requires Valid()
      modifies this
      ensures Valid() && detected == old(detected)
      ensures Model() == DetectPhase(old(Model()), sc, searchRadius, now, cols)
    {
      if detectionTimer >= DetectionInterval || (now - lastDetectionTime >= MinDetectionInterval && IsNull(sc, cachedEnemy)) {
        DetectEnemies(sc, cols);
        detectionTimer := 0.0;
        lastDetectionTime := now;
      }
    }

    /** The cache half of `Update`. */
    method RefreshCache(sc: Scene, dt: real)
      requires Valid()
      modifies this
      ensures Valid() && detected == old(detected)
      ensures Model() == TickCache(old(Model()), sc, searchRadius, dt, debugDetection)
    {
      TickCacheKeepsInv(Model(), sc, searchRadius, dt, debugDetection);
      if IsNull(sc, cachedEnemy) {
        return;
      }
      cacheTimer := cacheTimer + dt;
      RefreshHeldCache(sc);
    }

    /** The cache half of `Update` once a live cached enemy's timer has advanced. */
    method RefreshHeldCache(sc: Scene)
      requires cachedEnemy.Some?
      modifies this
      ensures detected == old(detected)
      ensures Model() == RefreshHeld(old(Model()), sc, searchRadius, debugDetection)
    {
      if cacheTimer >= MaxCacheTime {
        cachedEnemy, cacheTimer := None, 0.0;
        return;
      }
      if detectionTimer < CacheRefreshThreshold {
        return;
      }
      var c := cachedEnemy.value;
      if !IsEnemyValid(sc, searchRadius, c) {
        cachedEnemy, cacheTimer := None, 0.0;
        return;
      }
      distances := distances[c := sc.dist(c)];
      distanceOrder := Insert(distanceOrder, c);
      if debugDetection && detectionTimer >= DetectionInterval {
        detectionTimer := 0.0;
      }
    }

    method DetectEnemies(sc: Scene, cols: seq<Entity>)
      requires Valid()
      modifies this
      ensures Valid() && detected == old(detected)
      ensures Model() == Detect(old(Model()), sc, searchRadius, cols)
    {
      DetectKeepsInv(Model(), sc, searchRadius, cols);
      if cachedEnemy.Some? && IsEnemyValid(sc, searchRadius, cachedEnemy.value) {
        var c := cachedEnemy.value;
        if c in weights {
          weights := weights[c := Min(weights[c] + WeightIncrease, CachedCap)];
        }
      } else if |cols| > 0 {
        FullDetection(sc, cols);
      }
    }

    /** The pass without a valid cached enemy. */
    method FullDetection(sc: Scene, cols: seq<Entity>)
      requires Valid()
      modifies this
      ensures detected == old(detected)
      ensures Model() == FullPass(old(Model()), sc, searchRadius, cols)
    {
      UpdateEnemyData(sc, cols);
      var best := GetBestEnemy(sc);
      if best.Some? {
        cachedEnemy := best;
        cacheTimer := 0.0;
      }
    }

    /** The three loops of `UpdateEnemyData`: decay the valid weights while
        collecting the invalid keys, remove those from both dictionaries, then
        record every Enemy-tagged collider. */
    method UpdateEnemyData(sc: Scene, cols: seq<Entity>)
      requires Valid()
      modifies this
      ensures Valid() && detected == old(detected)
      ensures Model() == UpdateData(old(Model()), sc, searchRadius, cols)
    {
      ghost var s0 := Model();
      UpdateDataKeepsInv(s0, sc, searchRadius, cols);
      PruneStale(sc);
      RecordColliders(sc, cols);
    }

    /** Loops one and two of `UpdateEnemyData`. */
    method PruneStale(sc: Scene)
      requires Valid()
      modifies this
      ensures detected == old(detected)
      ensures var stale := Stale(old(weights), sc, searchRadius);
        Model() == old(Model()).(weights := Decay(old(weights), sc, searchRadius),
                                 distances := Prune(old(distances), stale),
                                 distanceOrder := Filter(old(distanceOrder), Elems(old(distanceOrder)) - stale))
    {
      var w1, toRemove := DecayValid(sc, searchRadius, weights);
      var w, d, o := RemoveKeys(w1, distances, distanceOrder, toRemove);
      DecayThenRemove(weights, w1, sc, searchRadius);
      weights, distances, distanceOrder := w, d, o;
    }

    /** Loop three of `UpdateEnemyData`. */
    method RecordColliders(sc: Scene, cols: seq<Entity>)
      modifies this
      ensures detected == old(detected)
      ensures Model() == old(Model()).(weights := Bump(old(weights), cols, sc),
                                       distances := Record(old(distances), cols, sc),
                                       distanceOrder := RecordOrder(old(distanceOrder), cols, sc))
    {
      var w, d, o := weights, distances, distanceOrder;
      var i := 0;
      while i < |cols|
        invariant 0 <= i <= |cols|
        invariant w == Bump(weights, cols[..i], sc)
        invariant d == Record(distances, cols[..i], sc)
        invariant o == RecordOrder(distanceOrder, cols[..i], sc)
      {
        assert cols[..i + 1][..i] == cols[..i];
        var c := cols[i];
        if HasTag(sc, c, EnemyTag) {
          d := d[c := sc.dist(c)];
          o := Insert(o, c);
          if c !in w {
            w := w[c := 0];
          }
          w := w[c := Min(w[c] + WeightIncrease, DetectionCap)];
        }
        i := i + 1;
      }
      assert cols[..|cols|] == cols;
      weights, distances, distanceOrder := w, d, o;
    }

    /** `GetBestEnemy`. */
    method GetBestEnemy(sc: Scene) returns (best: Option<Entity>)
      requires Valid()
      ensures best == BestEnemy(Model(), sc, searchRadius)
    {
      var key := ScoreKey(Model());
      forall i | 0 <= i < |distanceOrder|
        ensures key(distanceOrder[i]) < FloatMax
      {
      }
      best := RunningMinimum(distanceOrder, Eligible(Model(), sc, searchRadius), key);
    }

    method OnTriggerEnter(sc: Scene, other: Entity) returns (detectedNotice: Option<Entity>)
      requires Valid()
      modifies this
      ensures Valid() && Model() == old(Model())
      ensures HasTag(sc, other, EnemyTag) ==> detected == Insert(old(detected), other) && detectedNotice == Some(other)
      ensures !HasTag(sc, other, EnemyTag) ==> detected == old(detected) && detectedNotice == None
    {
      detectedNotice := None;
      if HasTag(sc, other, EnemyTag) {
        detected := Insert(detected, other);
        detectedNotice := Some(other);
      }
    }

    method OnTriggerExit(sc: Scene, other: Entity) returns (lostNotice: Option<Entity>)
      requires Valid()
      modifies this
      ensures Valid() && Model() == old(Model())
      ensures HasTag(sc, other, EnemyTag) ==> detected == Delete(old(detected), other) && lostNotice == Some(other)
      ensures !HasTag(sc, other, EnemyTag) ==> detected == old(detected) && lostNotice == None
    {
      lostNotice := None;
      if HasTag(sc, other, EnemyTag) {
        detected := Delete(detected, other);
        lostNotice := Some(other);
      }
    }

    /** Drops every destroyed, inactive or too distant entry and reports each as lost, once. */
    method ValidateDetectedEnemies(sc: Scene) returns (lost: seq<Entity>)
      requires Valid()
      modifies this
      ensures Valid() && Model() == old(Model())
      ensures detected == Filter(old(detected), InDetectionRadius(old(detected), sc, detectionRadius))
      ensures lost == Filter(old(detected), Elems(old(detected)) - InDetectionRadius(old(detected), sc, detectionRadius))
      ensures forall e | e in detected :: IsActive(sc, e) && sc.dist(e) <= detectionRadius
      ensures Distinct(lost)
    {
      var remaining;
      remaining, lost := SweepInvalid(detected, InDetectionRadius(detected, sc, detectionRadius));
      detected := remaining;
    }

    method GetDetectedEnemies() returns (copy: seq<Entity>)
      requires Valid()
      ensures copy == detected && Distinct(copy)
    {
      copy := detected;
    }
  }

  /** Loop one of `UpdateEnemyData`: decay every valid weight in place and
      collect the invalid keys; their weights are left as they were. */
  method DecayValid(sc: Scene, searchRadius: real, w0: Weights) returns (w: Weights, toRemove: seq<Entity>)
    ensures w.Keys == w0.Keys
    ensures forall e | e in w0 ::
      (w[e] == if IsEnemyValid(sc, searchRadius, e) then Max(0, w0[e] - WeightDecrease) else w0[e])
    ensures Elems(toRemove) == Stale(w0, sc, searchRadius) && Distinct(toRemove)
  {
    w := w0;
    toRemove := [];
    var pending := w0.Keys;
    while pending != {}
      invariant pending <= w0.Keys && w.Keys == w0.Keys
      invariant forall e | e in w0 ::
        (w[e] == if e in pending || !IsEnemyValid(sc, searchRadius, e) then w0[e] else Max(0, w0[e] - WeightDecrease))
      invariant forall e :: e in toRemove <==> e in w0 && e !in pending && !IsEnemyValid(sc, searchRadius, e)
      invariant Distinct(toRemove)
      decreases |pending|
    {
      var e :| e in pending;
      if !IsEnemyValid(sc, searchRadius, e) {
        toRemove := toRemove + [e];
      } else {
        w := w[e := Max(0, w[e] - WeightDecrease)];
      }
      pending := pending - {e};
    }
  }

  /** Loop two of `UpdateEnemyData`: remove every collected key from both
      dictionaries (and so from the key order). */
  method RemoveKeys(w0: Weights, d0: Distances, o0: seq<Entity>, toRemove: seq<Entity>)
      returns (w: Weights, d: Distances, o: seq<Entity>)
    ensures w == Prune(w0, Elems(toRemove)) && d == Prune(d0, Elems(toRemove))
    ensures o == Filter(o0, Elems(o0) - Elems(toRemove))
  {
    w, d, o := w0, d0, o0;
    var j := 0;
    assert Elems(o0) - Elems(toRemove[..0]) == Elems(o0);
    FilterKeepsAll(o0);
    while j < |toRemove|
      invariant 0 <= j <= |toRemove|
      invariant w == Prune(w0, Elems(toRemove[..j]))
      invariant d == Prune(d0, Elems(toRemove[..j]))
      invariant o == Filter(o0, Elems(o0) - Elems(toRemove[..j]))
    {
      var e := toRemove[j];
      RemoveKeysStep(w0, d0, o0, toRemove, j);
      w := w - {e};
      d := d - {e};
      o := Delete(o, e);
      j := j + 1;
    }
    assert toRemove[..|toRemove|] == toRemove;
  }

  /** One iteration of `RemoveKeys`. */
  lemma RemoveKeysStep(w0: Weights, d0: Distances, o0: seq<Entity>, toRemove: seq<Entity>, j: nat)
    requires j < |toRemove|
    ensures Prune(w0, Elems(toRemove[..j + 1])) == Prune(w0, Elems(toRemove[..j])) - {toRemove[j]}
    ensures Prune(d0, Elems(toRemove[..j + 1])) == Prune(d0, Elems(toRemove[..j])) - {toRemove[j]}
    ensures Delete(Filter(o0, Elems(o0) - Elems(toRemove[..j])), toRemove[j])
         == Filter(o0, Elems(o0) - Elems(toRemove[..j + 1]))
  {
    SweepStep(o0, toRemove, j);
    assert Elems(toRemove[..j + 1]) == Elems(toRemove[..j]) + {toRemove[j]} by {
      assert toRemove[..j + 1] == toRemove[..j] + [toRemove[j]];
    }
    PruneOneMore(w0, Elems(toRemove[..j]), toRemove[j]);
    PruneOneMore(d0, Elems(toRemove[..j]), toRemove[j]);
  }

  lemma PruneOneMore<V>(m: map<Entity, V>, ks: set<Entity>, e: Entity)
    ensures Prune(m, ks + {e}) == Prune(m, ks) - {e}
  {
    assert Prune(m, ks + {e}).Keys == (Prune(m, ks) - {e}).Keys;
  }

  /** Decaying in place and then removing the stale keys leaves exactly `Decay`. */
  lemma DecayThenRemove(w0: Weights, w1: Weights, sc: Scene, searchRadius: real)
    requires w1.Keys == w0.Keys
    requires forall e | e in w0 ::
      (w1[e] == if IsEnemyValid(sc, searchRadius, e) then Max(0, w0[e] - WeightDecrease) else w0[e])
    ensures Prune(w1, Stale(w0, sc, searchRadius)) == Decay(w0, sc, searchRadius)
  {
    var p, dec := Prune(w1, Stale(w0, sc, searchRadius)), Decay(w0, sc, searchRadius);
    assert p.Keys == dec.Keys;
    assert forall e | e in p :: p[e] == dec[e];
  }


  /** The detector's own sweep is stricter than the detection sphere's: an
      enemy that is alive and active but beyond `detectionRadius` survives the
      one and is dropped by the other; every entry the detector keeps, the
      sphere keeps too. */
  lemma DetectorSweepStricter(xs: seq<Entity>, sc: Scene, detectionRadius: real, e: Entity)
    requires e in xs && IsActive(sc, e) && sc.dist(e) > detectionRadius
    ensures e in Filter(xs, Detection.LiveActive(sc))
    ensures e !in Filter(xs, InDetectionRadius(xs, sc, detectionRadius))
    ensures forall x | x in Filter(xs, InDetectionRadius(xs, sc, detectionRadius)) :: x in Filter(xs, Detection.LiveActive(sc))
  {
  }
}
