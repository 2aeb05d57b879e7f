/** The collections the combat scripts keep: a `HashSet<GameObject>` (or the
    key set of a `Dictionary`) is a duplicate-free sequence whose order is the
    order in which the collection is enumerated. Enumeration order is modelled
    as insertion order.

    Also here: the two loops the components share, the two-phase validation
    sweep and the running-minimum search with a strict `<`.
 */
module TrackedSet {
  import opened World

  predicate Distinct(xs: seq<Entity>) {
    forall i, j | 0 <= i < j < |xs| :: xs[i] != xs[j]
  }

  function Elems(xs: seq<Entity>): set<Entity> {
    set e | e in xs
  }

  /** `HashSet.Add`: a new element goes to the end, a present one changes nothing. */
  function Insert(xs: seq<Entity>, x: Entity): (r: seq<Entity>)
    ensures Elems(r) == Elems(xs) + {x}
    ensures Distinct(xs) ==> Distinct(r)
    ensures x in xs ==> r == xs
    ensures |xs| <= |r| && r[..|xs|] == xs
  {
    if x in xs then xs else xs + [x]
  }

  /** The entries of `xs` that lie in `keep`, in their original order. */
  function Filter(xs: seq<Entity>, keep: set<Entity>): (r: seq<Entity>)
    ensures forall e {:trigger e in r} :: e in r <==> e in xs && e in keep
    ensures |r| <= |xs|
    ensures Distinct(xs) ==> Distinct(r)
  {
    if xs == [] then []
    else
      var init, last := xs[..|xs| - 1], xs[|xs| - 1];
      var f := Filter(init, keep);
      assert last in f ==> last in init;
      f + (if last in keep then [last] else [])
  }

  /** `HashSet.Remove`: the element goes, the others keep their order. */
  function Delete(xs: seq<Entity>, x: Entity): (r: seq<Entity>)
    ensures Elems(r) == Elems(xs) - {x}
    ensures Distinct(xs) ==> Distinct(r)
  {
    Filter(xs, Elems(xs) - {x})
  }

  /** Number of occurrences of `x` in `xs`. */
  function Count(xs: seq<Entity>, x: Entity): nat {
    if xs == [] then 0 else Count(xs[..|xs| - 1], x) + (if xs[|xs| - 1] == x then 1 else 0)
  }

  lemma {:induction false} CountZeroIffAbsent(xs: seq<Entity>, x: Entity)
    ensures Count(xs, x) == 0 <==> x !in xs
  {
    if xs != [] {
      CountZeroIffAbsent(xs[..|xs| - 1], x);
      assert xs == xs[..|xs| - 1] + [xs[|xs| - 1]];
    }
  }

  lemma {:induction false} DistinctCountAtMostOne(xs: seq<Entity>, x: Entity)
    requires Distinct(xs)
    ensures Count(xs, x) <= 1
  {
    if xs != [] {
      var init := xs[..|xs| - 1];
      DistinctCountAtMostOne(init, x);
      if xs[|xs| - 1] == x {
        assert x !in init;
        CountZeroIffAbsent(init, x);
      }
    }
  }

  /** Filtering only looks at the elements of `xs`: two keep-sets that agree on
      them give the same result. */
  lemma {:induction false} FilterCongruent(xs: seq<Entity>, a: set<Entity>, b: set<Entity>)
    requires forall e | e in xs :: e in a <==> e in b
    ensures Filter(xs, a) == Filter(xs, b)
  {
    if xs != [] {
      FilterCongruent(xs[..|xs| - 1], a, b);
    }
  }

  lemma {:induction false} FilterTwice(xs: seq<Entity>, a: set<Entity>, b: set<Entity>)
    ensures Filter(Filter(xs, a), b) == Filter(xs, a * b)
  {
    if xs != [] {
      var init, last := xs[..|xs| - 1], xs[|xs| - 1];
      FilterTwice(init, a, b);
      var fa := Filter(init, a);
      if last in a {
        var ext := fa + [last];
        assert Filter(xs, a) == ext;
        assert ext[..|ext| - 1] == fa;
        assert Filter(ext, b) == Filter(fa, b) + (if last in b then [last] else []);
      } else {
        assert Filter(xs, a) == fa;
      }
    }
  }

  /** Deleting one more element from a filtered sequence is filtering by a smaller set. */
  lemma DeleteFromFilter(xs: seq<Entity>, keep: set<Entity>, x: Entity)
    ensures Delete(Filter(xs, keep), x) == Filter(xs, keep - {x})
  {
    var f := Filter(xs, keep);
    FilterTwice(xs, keep, Elems(f) - {x});
    FilterCongruent(xs, keep * (Elems(f) - {x}), keep - {x});
  }

  /** The validation sweep shared by DetectionRange, AttackRange and
      EnemyDetector: first collect every entry that is not in `valid`, then
      remove the collected entries one by one. `removed` lists them in
      enumeration order; each one is removed, and reported, exactly once. */
  method SweepInvalid(xs: seq<Entity>, valid: set<Entity>) returns (remaining: seq<Entity>, removed: seq<Entity>)
    requires Distinct(xs)
    ensures remaining == Filter(xs, valid)
    ensures removed == Filter(xs, Elems(xs) - valid)
    ensures Distinct(remaining) && Distinct(removed)
    ensures Elems(remaining) + Elems(removed) == Elems(xs)
    ensures Elems(remaining) !! Elems(removed)
  {
    removed := CollectInvalid(xs, valid);
    remaining := RemoveEach(xs, removed);
    FilterCongruent(xs, Elems(xs) - Elems(removed), valid);
    FilterSplits(xs, valid);
  }

  /** The first phase of `SweepInvalid`: the entries outside `valid`, in enumeration order. */
  method CollectInvalid(xs: seq<Entity>, valid: set<Entity>) returns (removed: seq<Entity>)
    ensures removed == Filter(xs, Elems(xs) - valid)
  {
    var bad := Elems(xs) - valid;
    removed := [];
    var i := 0;
    while i < |xs|
      invariant 0 <= i <= |xs|
      invariant removed == Filter(xs[..i], bad)
    {
      FilterPrefixStep(xs, i, bad);
      if xs[i] !in valid {
        removed := removed + [xs[i]];
      }
      i := i + 1;
    }
    FilterWholePrefix(xs, bad);
  }

  lemma FilterPrefixStep(xs: seq<Entity>, i: nat, keep: set<Entity>)
    requires i < |xs|
    ensures Filter(xs[..i + 1], keep) == Filter(xs[..i], keep) + (if xs[i] in keep then [xs[i]] else [])
  {
    FilterSnoc(xs[..i], xs[i], keep);
    assert xs[..i + 1] == xs[..i] + [xs[i]];
  }

  lemma FilterWholePrefix(xs: seq<Entity>, keep: set<Entity>)
    ensures Filter(xs[..|xs|], keep) == Filter(xs, keep)
  {
    assert xs[..|xs|] == xs;
  }

  /** The second phase of `SweepInvalid`: delete the collected entries one by one. */
  method RemoveEach(xs: seq<Entity>, removed: seq<Entity>) returns (remaining: seq<Entity>)
    ensures remaining == Filter(xs, Elems(xs) - Elems(removed))
  {
    remaining := xs;
    var j := 0;
    RemoveNone(xs, removed);
    while j < |removed|
      invariant 0 <= j <= |removed|
      invariant remaining == Filter(xs, Elems(xs) - Elems(removed[..j]))
    {
      SweepStep(xs, removed, j);
      remaining := Delete(remaining, removed[j]);
      j := j + 1;
    }
    WholePrefix(removed);
  }

  lemma WholePrefix(xs: seq<Entity>)
    ensures Elems(xs[..|xs|]) == Elems(xs)
  {
    assert xs[..|xs|] == xs;
  }

  lemma RemoveNone(xs: seq<Entity>, removed: seq<Entity>)
    ensures Filter(xs, Elems(xs) - Elems(removed[..0])) == xs
  {
    assert Elems(xs) - Elems(removed[..0]) == Elems(xs);
    FilterKeepsAll(xs);
  }

  /** Keeping `valid` and keeping the rest split a sequence into two disjoint parts. */
  lemma FilterSplits(xs: seq<Entity>, valid: set<Entity>)
    ensures Elems(Filter(xs, valid)) + Elems(Filter(xs, Elems(xs) - valid)) == Elems(xs)
    ensures Elems(Filter(xs, valid)) !! Elems(Filter(xs, Elems(xs) - valid))
  {
  }

  lemma FilterSnoc(xs: seq<Entity>, x: Entity, keep: set<Entity>)
    ensures Filter(xs + [x], keep) == Filter(xs, keep) + (if x in keep then [x] else [])
  {
    assert (xs + [x])[..|xs|] == xs;
  }

  /** One removal of the second phase of `SweepInvalid`. */
  lemma SweepStep(xs: seq<Entity>, removed: seq<Entity>, j: nat)
    requires j < |removed|
    ensures Delete(Filter(xs, Elems(xs) - Elems(removed[..j])), removed[j])
         == Filter(xs, Elems(xs) - Elems(removed[..j + 1]))
  {
    DeleteFromFilter(xs, Elems(xs) - Elems(removed[..j]), removed[j]);
    assert removed[..j + 1] == removed[..j] + [removed[j]];
    assert Elems(removed[..j + 1]) == Elems(removed[..j]) + {removed[j]};
    assert Elems(xs) - Elems(removed[..j]) - {removed[j]} == Elems(xs) - Elems(removed[..j + 1]);
  }

  lemma FilterKeepsAll(xs: seq<Entity>)
    ensures Filter(xs, Elems(xs)) == xs
  {
    FilterAllKept(xs, Elems(xs));
  }

  /** Filtering by a set that holds every entry changes nothing. */
  lemma {:induction false} FilterAllKept(xs: seq<Entity>, keep: set<Entity>)
    requires forall i | 0 <= i < |xs| :: xs[i] in keep
    ensures Filter(xs, keep) == xs
  {
    if xs != [] {
      var init, last := xs[..|xs| - 1], xs[|xs| - 1];
      FilterAllKept(init, keep);
      assert xs == init + [last];
    }
  }

  /** The running minimum with a strict `<`: the eligible entry of `xs` with
      the least `key`, the earliest one among equal keys, or `None` when no
      entry is eligible. */
  function FirstMin(xs: seq<Entity>, eligible: set<Entity>, key: Entity -> real): Option<Entity>
  {
    if xs == [] then None
    else
      var best := FirstMin(xs[..|xs| - 1], eligible, key);
      var last := xs[|xs| - 1];
      if last in eligible && (best.None? || key(last) < key(best.value)) then Some(last) else best
  }

  /** `FirstMin` finds nothing exactly when no entry is eligible, and what it
      finds is an eligible entry. */
  lemma {:induction false} FirstMinFound(xs: seq<Entity>, eligible: set<Entity>, key: Entity -> real)
    ensures FirstMin(xs, eligible, key).None? <==> forall i | 0 <= i < |xs| :: xs[i] !in eligible
    ensures FirstMin(xs, eligible, key).Some? ==>
      FirstMin(xs, eligible, key).value in xs && FirstMin(xs, eligible, key).value in eligible
  {
    if xs != [] {
      var init := xs[..|xs| - 1];
      FirstMinFound(init, eligible, key);
      assert forall i | 0 <= i < |init| :: xs[i] == init[i];
    }
  }

  /** No eligible entry has a smaller key than the one `FirstMin` finds. */
  lemma {:induction false} FirstMinLeast(xs: seq<Entity>, eligible: set<Entity>, key: Entity -> real, i: nat)
    requires i < |xs| && xs[i] in eligible
    ensures FirstMin(xs, eligible, key).Some?
    ensures key(FirstMin(xs, eligible, key).value) <= key(xs[i])
  {
    var init := xs[..|xs| - 1];
    if i < |init| {
      FirstMinLeast(init, eligible, key, i);
    }
  }

  /** Ties go to the earlier entry: an eligible entry with the same key as the
      one `FirstMin` finds never occurs before it. */
  lemma {:induction false} FirstMinEarliest(xs: seq<Entity>, eligible: set<Entity>, key: Entity -> real, i: nat)
    requires i < |xs| && xs[i] in eligible
    requires FirstMin(xs, eligible, key).Some? && key(xs[i]) == key(FirstMin(xs, eligible, key).value)
    ensures FirstMin(xs, eligible, key).value in xs[..i + 1]
  {
    var init := xs[..|xs| - 1];
    if i < |init| {
      FirstMinLeast(init, eligible, key, i);
      var best := FirstMin(init, eligible, key);
      assert FirstMin(xs, eligible, key) == best;
      FirstMinEarliest(init, eligible, key, i);
      assert init[..i + 1] == xs[..i + 1];
    } else {
      FirstMinFound(xs, eligible, key);
      assert xs[..i + 1] == xs;
    }
  }

  /** Distance from the asking component, as the key of a nearest-object search. */
  function DistKey(sc: Scene): Entity -> real {
    e => sc.dist(e) as real
  }

  /** The nearest-object search (`FirstMin` on distance): nothing exactly when
      no entry is eligible; otherwise an eligible entry no eligible entry is
      nearer than, and the earliest one among equally near entries. */
  lemma NearestChoice(xs: seq<Entity>, eligible: set<Entity>, sc: Scene)
    ensures var n := FirstMin(xs, eligible, DistKey(sc));
      && (n.None? <==> forall i | 0 <= i < |xs| :: xs[i] !in eligible)
      && (n.Some? ==> n.value in xs && n.value in eligible)
      && (n.Some? ==> forall i | 0 <= i < |xs| && xs[i] in eligible :: sc.dist(n.value) <= sc.dist(xs[i]))
      && (n.Some? ==> forall i | 0 <= i < |xs| && xs[i] in eligible && sc.dist(xs[i]) == sc.dist(n.value) ::
            n.value in xs[..i + 1])
  {
    var key := DistKey(sc);
    var n := FirstMin(xs, eligible, key);
    FirstMinFound(xs, eligible, key);
    forall i | 0 <= i < |xs| && xs[i] in eligible
      ensures n.Some? && sc.dist(n.value) <= sc.dist(xs[i])
    {
      FirstMinLeast(xs, eligible, key, i);
    }
    forall i | 0 <= i < |xs| && xs[i] in eligible && n.Some? && sc.dist(xs[i]) == sc.dist(n.value)
      ensures n.value in xs[..i + 1]
    {
      FirstMinEarliest(xs, eligible, key, i);
    }
  }

  /** The source's loop for `FirstMin`: a best-so-far entry and score, the score
      seeded with `float.MaxValue`. Every key lies below that seed, so the seed
      never decides anything. */
  method RunningMinimum(xs: seq<Entity>, eligible: set<Entity>, key: Entity -> real) returns (best: Option<Entity>)
    requires forall i | 0 <= i < |xs| :: key(xs[i]) < FloatMax
    ensures best == FirstMin(xs, eligible, key)
  {
    best := None;
    var bestScore := FloatMax;
    var i := 0;
    while i < |xs|
      invariant 0 <= i <= |xs|
      invariant best == FirstMin(xs[..i], eligible, key)
      invariant best.None? ==> bestScore == FloatMax
      invariant best.Some? ==> bestScore == key(best.value)
    {
      assert xs[..i + 1][..i] == xs[..i];
      if xs[i] in eligible {
        var score := key(xs[i]);
        if score < bestScore {
          bestScore := score;
          best := Some(xs[i]);
        }
      }
      i := i + 1;
    }
    assert xs[..|xs|] == xs;
  }
}
