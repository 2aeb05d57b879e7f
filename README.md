# Auto-combat core of a Unity action game, modelled in Dafny

This project models the decision logic of a small Unity action game, together with the
spreadsheet-to-JSON tool that ships with it:

- how the player's character picks and keeps a target (`AutoCombat`, `EnemyDetector`,
  `DetectionRange`, `AttackRange`);
- how movement input is arbitrated between joystick and "virtual" input (`InputManager`);
- how the player moves, turns and reports movement (`CharacterMovement`);
- how attacks are shown and repeated (`CombatManager`, `CombatController`, `HitboxController`);
- the enemy's Chase/Attack/Stunned state machine with distance-based update throttling
  (`NewEnemyMovement`, `NewConstants`);
- the Excel processor, which validates cell types (`@Program/excel_processor.py`).

The engine is not modelled. What a script reads from it arrives as plain values:

- `World.Scene` says which objects are alive, which are active, what tag each carries, how far
  each is and in which direction;
- `Time.deltaTime` and `Time.time` arrive as `dt` and `now`;
- physics queries are sequences of colliders.

Unity's overloaded `==` on destroyed objects is modelled as `World.IsNull` and `World.SameRef`.

Each component whose fields change in place is a `class`. Its `Model()` is the datatype of its
state, and every method ensures `Model() == Step(old(Model()), …)` for a pure step function.
The properties are lemmas about those step functions. Notes on the form:

- A `HashSet`'s or `Dictionary`'s enumeration order is the insertion order. Sweeps are sequences
  without duplicates (`TrackedSet`).
- A Unity event or callback into another component is returned as a notification value.
- A coroutine is a deadline, and the engine resuming it is a method (`ResumeCooldown`,
  `ResumeStun`, `ResumeDelayedAttacks`).
- Fractional constants are exact `real`s. Where the source compares magnitudes it is compared on
  squares, so no square root is taken.
- The enemy detector's weights are counted in tenths: +5, −2, threshold 10, caps 20 and 30.

Behaviour of the enemy detector worth noting:

- **Decay.** A detection pass first decays the weight of every valid tracked enemy by 0.2,
  floored at 0, and then raises the weight of each enemy it detects
  (`EnemyDetector.cs:228-262`).
- **Refresh.** While a valid enemy is cached, a detection pass raises only that enemy's weight,
  by 0.5 with a cap of 3.0 (`EnemyDetector.cs:181-189`).
- **Removal.** An entry is removed when it becomes invalid; an entry whose weight is 0 stays
  (`EnemyDetector.cs:228-246`).
- **Cache timer.** The cache timer restarts when a new best enemy is cached
  (`EnemyDetector.cs:209-212`). The cache therefore expires `maxCacheTime` after it was chosen,
  however often it is refreshed (`EnemyDetector.cs:130-142`).
- **Caps.** A freshly detected enemy's weight is capped at 2.0 (`EnemyDetector.cs:261`) and the
  cached enemy's at 3.0 (`EnemyDetector.cs:186`).

## Model

Source cells are relative to the repository root.

| member | source | states |
|---|---|---|
| World.DestroyedObjectsCompareEqual | Assets/Scripts/Combat/AutoCombat.cs:572-600 | Two destroyed objects compare equal under Unity's `==`, and each equals null, although they are different objects. |
| World.SameRefOnLiveIsIdentity | Assets/Scripts/Combat/AutoCombat.cs:572-600 | On live objects Unity's `==` is identity, in both directions. |
| TrackedSet.Insert | Assets/Scripts/Combat/DetectionRange.cs:56 | `HashSet.Add`: the element set grows by exactly `x` and the order of the old entries is kept; a present element changes nothing; no duplicates appear. |
| TrackedSet.Delete | Assets/Scripts/Combat/DetectionRange.cs:68 | `HashSet.Remove`: the element set loses exactly `x`; no duplicates appear. |
| TrackedSet.Filter | Assets/Scripts/Combat/DetectionRange.cs:76-99 | The kept entries are exactly those of `xs` in `keep`, in order, and never more than `xs`. |
| TrackedSet.CountZeroIffAbsent | Assets/Scripts/Combat/EnemyDetector.cs:249-262 | An object has no occurrence in a collider list exactly when it is not in it. |
| TrackedSet.DistinctCountAtMostOne | Assets/Scripts/Combat/DetectionRange.cs:56 | A duplicate-free set holds each object at most once. |
| TrackedSet.FilterCongruent | Assets/Scripts/Combat/DetectionRange.cs:80-89 | Filtering reads the keep-set only on the entries present. |
| TrackedSet.FilterTwice | Assets/Scripts/Combat/DetectionRange.cs:76-99 | Two sweeps in a row are one sweep by the intersection of their keep-sets. |
| TrackedSet.DeleteFromFilter | Assets/Scripts/Combat/DetectionRange.cs:91-98 | Removing one more entry after a sweep is a sweep with a smaller keep-set. |
| TrackedSet.SweepInvalid | Assets/Scripts/Combat/DetectionRange.cs:76-99 | The two loops of a validation sweep: the remaining entries are the valid ones in order; the removed ones are the invalid ones in order; together they partition the old set. |
| TrackedSet.CollectInvalid | Assets/Scripts/Combat/DetectionRange.cs:80-89 | The first loop collects exactly the invalid entries, in enumeration order. |
| TrackedSet.RemoveEach | Assets/Scripts/Combat/DetectionRange.cs:91-98 | The second loop removes exactly the collected entries and keeps the order of the rest. |
| TrackedSet.FilterSplits | Assets/Scripts/Combat/DetectionRange.cs:76-99 | The kept and the removed entries are disjoint and together are the old set. |
| TrackedSet.FilterKeepsAll | Assets/Scripts/Combat/DetectionRange.cs:76-99 | A sweep in which every entry is valid changes nothing. |
| TrackedSet.FilterAllKept | Assets/Scripts/Combat/DetectionRange.cs:76-99 | A keep-set that holds every entry changes nothing. |
| TrackedSet.FirstMinFound | Assets/Scripts/Combat/DetectionRange.cs:107-127 | The strict running minimum finds nothing exactly when no entry is eligible; what it finds is an eligible entry. |
| TrackedSet.FirstMinLeast | Assets/Scripts/Combat/DetectionRange.cs:114-124 | No eligible entry has a smaller key than the one found. |
| TrackedSet.FirstMinEarliest | Assets/Scripts/Combat/DetectionRange.cs:119 | The strict `<` breaks ties in favour of the earliest eligible entry. |
| TrackedSet.NearestChoice | Assets/Scripts/Combat/DetectionRange.cs:107-127 | Nearest-object search: nothing exactly when nothing is eligible; otherwise an eligible entry at minimal distance, the earliest such. |
| TrackedSet.RunningMinimum | Assets/Scripts/Combat/DetectionRange.cs:111-126 | The loop, with its best score seeded at `float.MaxValue`, computes that minimum. |
| Detection.LiveActive | Assets/Scripts/Combat/DetectionRange.cs:82 | The sweep keeps exactly the objects that are not destroyed and are active in the hierarchy. |
| Detection.DetectionRange.constructor | Assets/Scripts/Combat/DetectionRange.cs:16-19 | The sphere starts empty, with radius 10. |
| Detection.DetectionRange.OnTriggerEnter | Assets/Scripts/Combat/DetectionRange.cs:52-62 | An Enemy-tagged collider is added and reported to auto-combat as detected; anything else changes nothing and is not reported. |
| Detection.DetectionRange.OnTriggerExit | Assets/Scripts/Combat/DetectionRange.cs:64-74 | An Enemy-tagged collider is removed and reported as lost; anything else changes nothing. |
| Detection.DetectionRange.ValidateDetectedEnemies | Assets/Scripts/Combat/DetectionRange.cs:76-99 | Every destroyed or inactive entry is dropped and reported as lost exactly once, in enumeration order; the rest are kept in order. |
| Detection.DetectionRange.GetDetectedEnemies | Assets/Scripts/Combat/DetectionRange.cs:101-105 | A copy of the set, without duplicates. |
| Detection.DetectionRange.GetNearestEnemy | Assets/Scripts/Combat/DetectionRange.cs:107-127 | Null exactly when every entry is destroyed (including an empty set); otherwise a live entry at minimal distance, the earliest such. |
| AttackZone.AttackRange.constructor | Assets/Scripts/Combat/AttackRange.cs:16-19 | The sphere starts empty, with radius 2. |
| AttackZone.AttackRange.OnTriggerEnter | Assets/Scripts/Combat/AttackRange.cs:33-43 | An Enemy-tagged collider is added and reported as entering the attack range; anything else changes nothing. |
| AttackZone.AttackRange.OnTriggerExit | Assets/Scripts/Combat/AttackRange.cs:45-55 | An Enemy-tagged collider is removed and reported as exiting; anything else changes nothing. |
| AttackZone.AttackRange.ValidateEnemiesInRange | Assets/Scripts/Combat/AttackRange.cs:57-80 | Every destroyed or inactive entry is dropped and reported as exiting exactly once; the rest are kept in order. |
| AttackZone.AttackRange.HasEnemiesInRange | Assets/Scripts/Combat/AttackRange.cs:82-85 | True exactly when the set is non-empty. |
| AttackZone.AttackRange.GetEnemiesInRange | Assets/Scripts/Combat/AttackRange.cs:87-90 | A copy of the set, without duplicates. |
| Input.AwakeState | Assets/Scripts/Input/InputManager.cs:44-76 | `Awake` leaves Joystick priority, joystick use on, virtual input off and cleared; a controller is kept or found. |
| Input.WithPriority | Assets/Scripts/Input/InputManager.cs:145-153 | The priority is set, and virtual input is enabled exactly for Virtual priority; nothing else changes. |
| Input.WithVirtualInput | Assets/Scripts/Input/InputManager.cs:178-189 | The vector is stored and virtual input enabled; the priority is untouched. |
| Input.Tick | Assets/Scripts/Input/InputManager.cs:85-104 | A stored vector survives a frame only while virtual input is enabled and prioritised; otherwise it becomes zero; nothing else changes. |
| Input.MovementInput | Assets/Scripts/Input/InputManager.cs:106-134 | With the joystick usable and not overridden, the joystick's reading is returned. Joystick priority without a usable joystick gives zero. The stored vector comes out only under Virtual priority with virtual input on. |
| Input.JoystickValue | Assets/Scripts/Input/InputManager.cs:136-143 | The controller's reading, or zero without a controller. |
| Input.JoystickPriorityNeverVirtual | Assets/Scripts/Input/InputManager.cs:106-134 | Under Joystick priority the answer is the joystick's reading or zero, never the stored virtual vector. |
| Input.VirtualPriorityReturnsStored | Assets/Scripts/Input/InputManager.cs:106-134 | Under Virtual priority, in a consistent state, the stored vector is returned. |
| Input.VirtualHandOff | Assets/Scripts/Input/InputManager.cs:145-189 | After storing `v` and prioritising virtual input, in either order, `v` is returned and survives the next `Update`. |
| Input.StoredVectorClearedUnderJoystick | Assets/Scripts/Input/InputManager.cs:96-103 | A vector stored under Joystick priority is cleared by the next `Update`. |
| Input.OperationsKeepConsistent | Assets/Scripts/Input/InputManager.cs:44-189 | Every operation keeps "Virtual priority implies virtual input enabled". |
| Input.LastSendWins | Assets/Scripts/Input/InputManager.cs:178-189 | Of several vectors sent in a row only the last matters. |
| Input.InputManager.constructor | Assets/Scripts/Input/InputManager.cs:28-41 | The serialised defaults. |
| Input.InputManager.Awake | Assets/Scripts/Input/InputManager.cs:44-76 | The new state is `AwakeState` of the old one. |
| Input.InputManager.Update | Assets/Scripts/Input/InputManager.cs:85-104 | The new state is `Tick` of the old one. |
| Input.InputManager.GetMovementInput | Assets/Scripts/Input/InputManager.cs:106-134 | Returns `MovementInput` of the current state. |
| Input.InputManager.GetJoystickValue | Assets/Scripts/Input/InputManager.cs:136-143 | Returns `JoystickValue` of the current state. |
| Input.InputManager.SetPriorityInputType | Assets/Scripts/Input/InputManager.cs:145-153 | The new state is `WithPriority` of the old one. |
| Input.InputManager.SetVirtualInput | Assets/Scripts/Input/InputManager.cs:178-189 | The new state is `WithVirtualInput` of the old one. |
| NewConstants.UpdateFrequency.Frames | Assets/Scripts/Enemy/NewConstants.cs:10-19 | Each enum value's period lies between 1 and 30 frames. |
| NewConstants.GetUpdateFrequencyByDistance | Assets/Scripts/Enemy/NewConstants.cs:32-44 | Inclusive bounds 5, 10, 20 and 30 select periods of 3, 4, 6, 10 and 30 frames. |
| NewConstants.FrequencyMonotone | Assets/Scripts/Enemy/NewConstants.cs:32-44 | A farther enemy never updates more often than a nearer one. |
| NewConstants.FrequencyAtLeastThree | Assets/Scripts/Enemy/NewConstants.cs:32-44 | The 1- and 2-frame periods are never chosen. |
| NewConstants.RadiusOrdering | Assets/Scripts/Enemy/NewConstants.cs:59-66 | Attack radius < stopping distance < detection radius, and walk speed < run speed. |
| Targeting.Score | Assets/Scripts/Combat/EnemyDetector.cs:281 | The score `distance / (weight * 2)` of a selectable enemy is between 0 and half its distance. |
| Targeting.PassKeys | Assets/Scripts/Combat/EnemyDetector.cs:249-262 | The collider loop adds exactly the Enemy-tagged objects to the weight and distance keys and to their enumeration order, with no duplicate and no weight above the cap. |
| Targeting.BumpKeys | Assets/Scripts/Combat/EnemyDetector.cs:257-261 | The weight part of `PassKeys`. |
| Targeting.RecordKeys | Assets/Scripts/Combat/EnemyDetector.cs:256 | The distance part of `PassKeys`. |
| Targeting.RecordOrderKeys | Assets/Scripts/Combat/EnemyDetector.cs:256 | The enumeration-order part of `PassKeys`. |
| Targeting.PassLeavesOthers | Assets/Scripts/Combat/EnemyDetector.cs:249-262 | An object without tagged colliders in the query keeps its entries unchanged. |
| Targeting.PassRaises | Assets/Scripts/Combat/EnemyDetector.cs:249-262 | An object with `k` tagged colliders gets its current distance and `min(w + 0.5k, 2.0)`. |
| Targeting.StaleEntriesRemoved | Assets/Scripts/Combat/EnemyDetector.cs:221-246 | A tracked enemy that is no longer valid and not detected again loses its weight, its distance and its place in the order. |
| Targeting.SurvivorsDecay | Assets/Scripts/Combat/EnemyDetector.cs:228-239 | A valid tracked enemy not detected again loses 0.2, floored at 0. |
| Targeting.DetectedRaised | Assets/Scripts/Combat/EnemyDetector.cs:221-263 | A detected enemy gets its distance and `k` raises after the decay, capped at 2.0. |
| Targeting.NewEnemyNotSelectable | Assets/Scripts/Combat/EnemyDetector.cs:257-278 | An enemy first seen through one collider gets weight 0.5 and is not chosen in that pass. |
| Targeting.DoubleColliderReachesThreshold | Assets/Scripts/Combat/EnemyDetector.cs:249-262 | Two colliders on one new enemy raise it to exactly the threshold 1.0. |
| Targeting.BestEnemyChoice | Assets/Scripts/Combat/EnemyDetector.cs:265-291 | The best enemy is null exactly when no valid enemy has weight ≥ 1.0. Otherwise it is such an enemy, with no other such enemy scoring lower, and no such enemy with an equal score comes before it in enumeration order. |
| Targeting.UnweightedNeverChosen | Assets/Scripts/Combat/EnemyDetector.cs:275 | An enemy without a weight entry reads as weight 0 and is never chosen. |
| Targeting.PruneKeepsInv | Assets/Scripts/Combat/EnemyDetector.cs:224-246 | Removing the stale entries and decaying the rest keeps the invariant: bounded weights and agreeing key sets. |
| Targeting.UpdateDataKeepsInv | Assets/Scripts/Combat/EnemyDetector.cs:221-263 | `UpdateEnemyData` keeps the invariant. |
| Targeting.DetectKeepsInv | Assets/Scripts/Combat/EnemyDetector.cs:178-219 | `DetectEnemies` keeps the invariant. |
| Targeting.TickCacheKeepsInv | Assets/Scripts/Combat/EnemyDetector.cs:130-167 | The cache half of `Update` keeps the invariant. |
| Targeting.RefreshHeldKeepsInv | Assets/Scripts/Combat/EnemyDetector.cs:143-166 | The refresh of a held cache keeps the invariant. |
| Targeting.UpdateKeepsInv | Assets/Scripts/Combat/EnemyDetector.cs:125-176 | Every frame keeps the invariant, so every stored weight stays in [0, 3.0]. |
| Targeting.InvIgnoresTimers | Assets/Scripts/Combat/EnemyDetector.cs:173-174 | Resetting the detection timers keeps the invariant. |
| Targeting.CachedPassRaisesOnlyCached | Assets/Scripts/Combat/EnemyDetector.cs:181-189 | With a valid cached enemy a pass only raises its weight by 0.5 (cap 3.0), when it has one, and changes nothing else. |
| Targeting.EmptyQueryChangesNothing | Assets/Scripts/Combat/EnemyDetector.cs:192-201 | Without a valid cached enemy, an empty query result changes nothing. |
| Targeting.CacheExpires | Assets/Scripts/Combat/EnemyDetector.cs:130-142 | A live cache held for `maxCacheTime` is cleared. |
| Targeting.InvalidCacheCleared | Assets/Scripts/Combat/EnemyDetector.cs:143-153 | A refresh check that finds the cached enemy invalid clears the cache. |
| Targeting.CacheKeptOnlyWhileFreshAndValid | Assets/Scripts/Combat/EnemyDetector.cs:130-167 | The cache survives a frame only while it is younger than `maxCacheTime` and, at a check, valid; its timer then advances by `dt`. |
| Targeting.DebugFlagSkipsCachedPass | Assets/Scripts/Combat/EnemyDetector.cs:160-175 | With the debug flag on, the refresh resets the detection timer, so the cached enemy's weight is not raised that frame; with it off, the weight is raised. |
| Targeting.SetSearchNeverTouchesCache | Assets/Scripts/Combat/EnemyDetector.cs:68-96 | `SetActiveSearch` never changes the cache, because `nearestEnemy` is never assigned; an unchanged value does nothing. |
| Targeting.InDetectionRadius | Assets/Scripts/Combat/EnemyDetector.cs:474-502 | The detector's sweep keeps exactly the live, active entries within `detectionRadius`. |
| Targeting.DetectorSweepStricter | Assets/Scripts/Combat/EnemyDetector.cs:474-502 | The detector's sweep drops an active entry beyond its radius, which the detection sphere's sweep keeps; whatever it keeps, the sphere's sweep keeps too. |
| Targeting.DecayValid | Assets/Scripts/Combat/EnemyDetector.cs:224-239 | The first loop decays every valid weight in place and collects exactly the stale keys, once each. |
| Targeting.RemoveKeys | Assets/Scripts/Combat/EnemyDetector.cs:242-246 | The second loop removes exactly the collected keys from both maps and from the order. |
| Targeting.DecayThenRemove | Assets/Scripts/Combat/EnemyDetector.cs:224-246 | Decaying in place and then removing gives exactly `Decay`. |
| Targeting.EnemyDetector.constructor | Assets/Scripts/Combat/EnemyDetector.cs:30-61 | The field initialisers. |
| Targeting.EnemyDetector.Awake | Assets/Scripts/Combat/EnemyDetector.cs:98-123 | `lastDetectionTime` becomes −1.0, so a detection pass may run on the first frame. |
| Targeting.EnemyDetector.SetActiveSearch | Assets/Scripts/Combat/EnemyDetector.cs:68-96 | An unchanged value does nothing; switching on makes the next frame detect; switching off copies `nearestEnemy` into the cache when it is not null. |
| Targeting.EnemyDetector.ResetCache | Assets/Scripts/Combat/EnemyDetector.cs:301-305 | The cache is cleared and its timer reset. |
| Targeting.EnemyDetector.GetCurrentTarget | Assets/Scripts/Combat/EnemyDetector.cs:307-312 | Returns the cached enemy. |
| Targeting.EnemyDetector.Update | Assets/Scripts/Combat/EnemyDetector.cs:125-176 | The new state is `UpdateStep` of the old one for this frame. |
| Targeting.EnemyDetector.DetectIfDue | Assets/Scripts/Combat/EnemyDetector.cs:169-175 | A pass runs when the interval has elapsed, or when 1 s has passed without a cache; the timers restart. |
| Targeting.EnemyDetector.RefreshCache | Assets/Scripts/Combat/EnemyDetector.cs:127-167 | The cache half of `Update`. |
| Targeting.EnemyDetector.RefreshHeldCache | Assets/Scripts/Combat/EnemyDetector.cs:135-166 | The expiry and validity checks on a held cache. |
| Targeting.EnemyDetector.DetectEnemies | Assets/Scripts/Combat/EnemyDetector.cs:178-219 | The new state is `Detect` of the old one. |
| Targeting.EnemyDetector.FullDetection | Assets/Scripts/Combat/EnemyDetector.cs:191-218 | Without a valid cache: the data is updated, and the best enemy is cached with a fresh timer when there is one. |
| Targeting.EnemyDetector.UpdateEnemyData | Assets/Scripts/Combat/EnemyDetector.cs:221-263 | The new state is `UpdateData` of the old one. |
| Targeting.EnemyDetector.PruneStale | Assets/Scripts/Combat/EnemyDetector.cs:224-246 | The stale entries are removed and the rest decayed. |
| Targeting.EnemyDetector.RecordColliders | Assets/Scripts/Combat/EnemyDetector.cs:249-262 | Every tagged collider raises and records its object. |
| Targeting.EnemyDetector.GetBestEnemy | Assets/Scripts/Combat/EnemyDetector.cs:265-291 | Returns `BestEnemy` of the current state. |
| Targeting.EnemyDetector.OnTriggerEnter | Assets/Scripts/Combat/EnemyDetector.cs:448-459 | An Enemy-tagged collider is added and reported as detected; the weights are untouched. |
| Targeting.EnemyDetector.OnTriggerExit | Assets/Scripts/Combat/EnemyDetector.cs:461-472 | An Enemy-tagged collider is removed and reported as lost. |
| Targeting.EnemyDetector.ValidateDetectedEnemies | Assets/Scripts/Combat/EnemyDetector.cs:474-502 | Every destroyed, inactive or too distant entry is dropped and reported as lost exactly once; the rest are kept in order. |
| Targeting.EnemyDetector.GetDetectedEnemies | Assets/Scripts/Combat/EnemyDetector.cs:504-507 | A copy of the set. |
| AutoTargeting.RegisterAll | Assets/Scripts/Combat/AutoCombat.cs:143-179 | Registering a list adds exactly its live, Enemy-tagged objects, without duplicates. |
| AutoTargeting.RegisterAddsOnlyLiveEnemies | Assets/Scripts/Combat/AutoCombat.cs:705-714 | Only a live, Enemy-tagged object is added, never twice; registering again changes nothing. |
| AutoTargeting.UnregisterRemovesExactly | Assets/Scripts/Combat/AutoCombat.cs:716-724 | Exactly that object is removed; an absent object changes nothing. |
| AutoTargeting.RegisterThenUnregister | Assets/Scripts/Combat/AutoCombat.cs:705-724 | Registering a new enemy and unregistering it restores the registry, order included. |
| AutoTargeting.GlobalNearestChoice | Assets/Scripts/Combat/AutoCombat.cs:352-395 | The global search throws exactly when a registry entry is destroyed. It finds nothing exactly when no entry is active. Otherwise it finds an active entry at minimal distance, the earliest such. |
| AutoTargeting.GlobalSearchLoop | Assets/Scripts/Combat/AutoCombat.cs:360-380 | The loop computes that outcome. |
| AutoTargeting.Waiting | Assets/Scripts/Combat/AutoCombat.cs:683-702 | The delayed attacks still waiting are exactly the pending ones due after `now`, each as often as it was pending. |
| AutoTargeting.SetNewTargetRule | Assets/Scripts/Combat/AutoCombat.cs:295-306 | A null target changes nothing; otherwise the target is set and tracked from a fresh inactivity timer. |
| AutoTargeting.UpdateOffDoesNothing | Assets/Scripts/Combat/AutoCombat.cs:181-204 | While auto mode is off a frame does nothing. |
| AutoTargeting.UpdateTargetKeepsTracked | Assets/Scripts/Combat/AutoCombat.cs:322-350 | A tracked, live, active target is kept and nothing else changes. |
| AutoTargeting.UpdateTargetTakesFirstDetected | Assets/Scripts/Combat/AutoCombat.cs:322-350 | Otherwise the first detected enemy is taken and the global search stops. |
| AutoTargeting.UpdateTargetFallsBackToGlobal | Assets/Scripts/Combat/AutoCombat.cs:322-350 | With nothing detected and global search on, the global search decides the target. |
| AutoTargeting.UpdateTargetResets | Assets/Scripts/Combat/AutoCombat.cs:322-350 | With nothing detected and global search off, the target is reset and a zero vector sent. |
| AutoTargeting.MovementRule | Assets/Scripts/Combat/AutoCombat.cs:531-560 | Without a target nothing is sent. Close to the target a zero vector is sent, otherwise the direction towards it, and never more than one vector. |
| AutoTargeting.FrameEndsWithMovement | Assets/Scripts/Combat/AutoCombat.cs:181-204 | A frame in auto mode ends with the movement update's vectors, unless the global search threw. |
| AutoTargeting.DetectedRule | Assets/Scripts/Combat/AutoCombat.cs:562-570 | Detection sets the target only in auto mode without a target, and then to the detected enemy. |
| AutoTargeting.LostRule | Assets/Scripts/Combat/AutoCombat.cs:572-600 | Only losing the current target re-aims. The new target is nothing exactly when no registered enemy is live; otherwise it is the nearest live registered enemy, the earliest registered among equally near ones. Nothing else changes. |
| AutoTargeting.DetectedTargetNotKept | Assets/Scripts/Combat/AutoCombat.cs:562-570 | A target set on detection is not tracked, so the next target check replaces it with the first detected enemy. |
| AutoTargeting.DisableAutoRule | Assets/Scripts/Combat/AutoCombat.cs:412-465 | Switching auto mode off resets the target and the timers and leaves the delayed attacks running. |
| AutoTargeting.ResumeRule | Assets/Scripts/Combat/AutoCombat.cs:683-702 | A delayed attack whose wait is over sets Attack and clears Walk while the target is still there. The attacks whose wait is over are gone, the ones still waiting stay with their multiplicity, and nothing else changes. |
| AutoTargeting.EnableAutoTargetsFirstDetected | Assets/Scripts/Combat/AutoCombat.cs:412-465 | Enabling auto mode with a non-empty detection set targets its first entry. |
| AutoTargeting.EnableAutoStartsGlobalSearch | Assets/Scripts/Combat/AutoCombat.cs:412-465 | Enabling auto mode with nothing detected and global search on starts a global search. |
| AutoTargeting.EnableKeepsAuto | Assets/Scripts/Combat/AutoCombat.cs:412-465 | Delivering the sweeps' notifications keeps auto mode and the global-search setting. |
| AutoTargeting.LostAllKeeps | Assets/Scripts/Combat/AutoCombat.cs:572-600 | A run of lost-notifications changes at most the target. |
| AutoTargeting.ExitedAllKeeps | Assets/Scripts/Combat/AutoCombat.cs:616-645 | A run of exit-notifications changes at most the animator. |
| AutoTargeting.EnemyRegistry.constructor | Assets/Scripts/Combat/AutoCombat.cs:29-97 | The registry starts empty. |
| AutoTargeting.EnemyRegistry.RegisterEnemy | Assets/Scripts/Combat/AutoCombat.cs:705-714 | The registry becomes `Register` of the old one. |
| AutoTargeting.EnemyRegistry.UnregisterEnemy | Assets/Scripts/Combat/AutoCombat.cs:716-724 | The registry becomes `Unregister` of the old one, and the result says whether the object was there. |
| AutoTargeting.AutoCombat.constructor | Assets/Scripts/Combat/AutoCombat.cs:29-97 | The serialised defaults: auto mode off, global search on. |
| AutoTargeting.AutoCombat.Start | Assets/Scripts/Combat/AutoCombat.cs:143-179 | The first frame checks targets, and every existing object is registered. |
| AutoTargeting.AutoCombat.Update | Assets/Scripts/Combat/AutoCombat.cs:181-204 | The new state and the vectors sent are `Tick` of the old state. |
| AutoTargeting.AutoCombat.UpdateTargetNow | Assets/Scripts/Combat/AutoCombat.cs:322-350 | The new state and the vectors are `UpdateTarget` of the old state. |
| AutoTargeting.AutoCombat.FindEnemyGlobally | Assets/Scripts/Combat/AutoCombat.cs:352-395 | The new state is `FindGlobally` of the old one. |
| AutoTargeting.AutoCombat.CheckForNearbyEnemiesDuringGlobalSearch | Assets/Scripts/Combat/AutoCombat.cs:244-285 | The new state and vectors are `CheckNearby` of the old state. |
| AutoTargeting.AutoCombat.UpdateMovement | Assets/Scripts/Combat/AutoCombat.cs:531-560 | The vectors sent are `Movement` of the current state. |
| AutoTargeting.AutoCombat.SetNewTargetTo | Assets/Scripts/Combat/AutoCombat.cs:295-306 | The new state is `SetNewTarget` of the old one. |
| AutoTargeting.AutoCombat.ResetTargetNow | Assets/Scripts/Combat/AutoCombat.cs:308-320 | The target is reset and one zero vector is sent. |
| AutoTargeting.AutoCombat.SetAutoMode | Assets/Scripts/Combat/AutoCombat.cs:412-465 | Enabling sweeps both spheres, delivers their notifications and chooses a target; disabling resets and sends a zero vector. |
| AutoTargeting.AutoCombat.EnableAutoMode | Assets/Scripts/Combat/AutoCombat.cs:412-450 | Both spheres are left with exactly their live, active entries, and the state is `EnableAuto`. |
| AutoTargeting.AutoCombat.ChooseInitialTarget | Assets/Scripts/Combat/AutoCombat.cs:430-450 | The state is `InitialTarget` of the old one. |
| AutoTargeting.AutoCombat.DeliverLost | Assets/Scripts/Combat/AutoCombat.cs:572-600 | The state is the lost-notifications delivered in order. |
| AutoTargeting.AutoCombat.DeliverExited | Assets/Scripts/Combat/AutoCombat.cs:616-645 | The state is the exit-notifications delivered in order. |
| AutoTargeting.AutoCombat.ValidateCurrentState | Assets/Scripts/Combat/AutoCombat.cs:658-681 | The state is `ValidateState` of the old one. |
| AutoTargeting.AutoCombat.OnEnemyDetected | Assets/Scripts/Combat/AutoCombat.cs:562-570 | The state is `Detected` of the old one. |
| AutoTargeting.AutoCombat.OnEnemyLost | Assets/Scripts/Combat/AutoCombat.cs:572-600 | The state is `Lost` of the old one. |
| AutoTargeting.AutoCombat.OnEnemyEnteredAttackRange | Assets/Scripts/Combat/AutoCombat.cs:602-614 | The target entering schedules a delayed attack. |
| AutoTargeting.AutoCombat.OnEnemyExitedAttackRange | Assets/Scripts/Combat/AutoCombat.cs:616-645 | The target leaving stops the attack pose. |
| AutoTargeting.AutoCombat.ResumeDelayedAttacks | Assets/Scripts/Combat/AutoCombat.cs:683-702 | The delayed attacks whose wait is over resume. |
| AutoTargeting.AutoCombat.SetGlobalSearchEnabled | Assets/Scripts/Combat/AutoCombat.cs:480-495 | A change while in auto mode without a target makes the next frame check targets. |
| AutoTargeting.AutoCombat.SetTarget | Assets/Scripts/Combat/AutoCombat.cs:497-504 | The state is `SetTargetTo` of the old one. |
| AutoTargeting.AutoCombat.IsAutoModeEnabled | Assets/Scripts/Combat/AutoCombat.cs:506-509 | Returns the auto-mode flag. |
| EnemyAI.ChaseEntersAttack | Assets/Scripts/Enemy/NewEnemyMovement.cs:265-298 | From Chase, the next state is Attack exactly at or inside the attack radius, and Chase otherwise. |
| EnemyAI.AttackHysteresis | Assets/Scripts/Enemy/NewEnemyMovement.cs:265-298 | From Attack, the next state is Chase exactly beyond 1.2 times the attack radius; between the two radii the state is kept. |
| EnemyAI.TransitionsKeepOtherStates | Assets/Scripts/Enemy/NewEnemyMovement.cs:265-298 | Stunned and every other state is never left by the transition check; a change re-initialises the state's properties. |
| EnemyAI.InitializeRule | Assets/Scripts/Enemy/NewEnemyMovement.cs:202-219 | Chase runs at run speed; Attack and Stunned stop the agent. |
| EnemyAI.AnimationExclusive | Assets/Scripts/Enemy/NewEnemyMovement.cs:176-186 | After an update with an animator, Walk is set exactly in Chase and Attack exactly in Attack. |
| EnemyAI.NoPlayerNoUpdate | Assets/Scripts/Enemy/NewEnemyMovement.cs:140-144 | Without a player an update changes nothing. |
| EnemyAI.UpdateRefreshesFrequency | Assets/Scripts/Enemy/NewEnemyMovement.cs:189-199 | An update re-reads the distance and re-derives the update period from it. |
| EnemyAI.FrameCounterRule | Assets/Scripts/Enemy/NewEnemyMovement.cs:117-137 | The counter stays below the period. The update runs exactly on the frame that reaches the period, and the counter then resets to 0. Other frames only count. |
| EnemyAI.CounterCountsUp | Assets/Scripts/Enemy/NewEnemyMovement.cs:117-137 | From a reset counter, the first `period − 1` frames only count up. |
| EnemyAI.AttackCooldownRule | Assets/Scripts/Enemy/NewEnemyMovement.cs:241-258 | An attack fires exactly once the 1.5 s cooldown has passed, and then records the time. |
| EnemyAI.OnlyAttackStateAttacks | Assets/Scripts/Enemy/NewEnemyMovement.cs:140-174 | Only the Attack state attacks. |
| EnemyAI.StunRule | Assets/Scripts/Enemy/NewEnemyMovement.cs:369-379 | A stun while stunned is ignored. Otherwise the enemy is stunned and stopped, and the old state is saved for the coroutine's end. |
| EnemyAI.StunRestores | Assets/Scripts/Enemy/NewEnemyMovement.cs:382-404 | A stun, once over, restores the saved state, moves the agent again and leaves no stun pending. |
| EnemyAI.StunnedUpdatesKeepStun | Assets/Scripts/Enemy/NewEnemyMovement.cs:140-174 | While stunned, updates keep the state and the stopped agent. |
| EnemyAI.TriggerOverridesStun | Assets/Scripts/Enemy/NewEnemyMovement.cs:407-417 | The player's trigger overwrites the Stunned state while the stun coroutine is still pending. |
| EnemyAI.OverriddenStunCanStack | Assets/Scripts/Enemy/NewEnemyMovement.cs:369-379 | After such an override a second stun starts, and two coroutines are pending. |
| EnemyAI.PatrolIndexRule | Assets/Scripts/Enemy/NewEnemyMovement.cs:331-339 | The patrol index stays in range and advances cyclically; for an allocated empty array (the guard at line 333) nothing changes. |
| EnemyAI.NewEnemyMovement.constructor | Assets/Scripts/Enemy/NewEnemyMovement.cs:37-115 | The field initialisers, `Awake` and `Start`: Chase at full speed, with a period from the first distance. |
| EnemyAI.NewEnemyMovement.Update | Assets/Scripts/Enemy/NewEnemyMovement.cs:117-137 | The new counter, state and attack are `Tick` of the old ones. |
| EnemyAI.NewEnemyMovement.PerformUpdateNow | Assets/Scripts/Enemy/NewEnemyMovement.cs:140-174 | The state is `PerformUpdate` of the old one. |
| EnemyAI.NewEnemyMovement.BehaveNow | Assets/Scripts/Enemy/NewEnemyMovement.cs:148-167 | The state is the state-dependent behaviour of the old one. |
| EnemyAI.NewEnemyMovement.UpdateAttackBehavior | Assets/Scripts/Enemy/NewEnemyMovement.cs:241-258 | The state is `AttackBehavior` of the old one. |
| EnemyAI.NewEnemyMovement.CheckStateTransitions | Assets/Scripts/Enemy/NewEnemyMovement.cs:265-298 | The state is `CheckTransitions` of the old one. |
| EnemyAI.NewEnemyMovement.InitializeStateBasedProperties | Assets/Scripts/Enemy/NewEnemyMovement.cs:202-219 | The state is `Initialize` of the old one. |
| EnemyAI.NewEnemyMovement.UpdateAnimationState | Assets/Scripts/Enemy/NewEnemyMovement.cs:176-186 | The state is `Animate` of the old one. |
| EnemyAI.NewEnemyMovement.Stun | Assets/Scripts/Enemy/NewEnemyMovement.cs:369-379 | The state is `ApplyStun` of the old one. |
| EnemyAI.NewEnemyMovement.ResumeStun | Assets/Scripts/Enemy/NewEnemyMovement.cs:382-404 | The state is `EndStun` of the old one. |
| EnemyAI.NewEnemyMovement.OnTriggerEnter | Assets/Scripts/Enemy/NewEnemyMovement.cs:407-417 | The player entering sets Attack. |
| EnemyAI.NewEnemyMovement.OnTriggerExit | Assets/Scripts/Enemy/NewEnemyMovement.cs:419-429 | The player leaving sets Chase. |
| EnemyAI.NewEnemyMovement.SetDestinationToNextPatrolPoint | Assets/Scripts/Enemy/NewEnemyMovement.cs:331-339 | Given an allocated patrol array, the agent heads for the current point and the index advances cyclically; for an empty array, nothing changes. |
| Movement.TurnRule | Assets/Scripts/Movement/CharacterMovement.cs:182-198 | The facing flips, and the event fires, exactly when `|x| > 0.1` and `x`'s sign points the other way. |
| Movement.TurnSetsRotation | Assets/Scripts/Movement/CharacterMovement.cs:188-196 | A flip sets the Y rotation to 0 facing right and −180 facing left, and changes nothing else. |
| Movement.TurnIdempotent | Assets/Scripts/Movement/CharacterMovement.cs:182-198 | Turning twice with the same input flips at most once. |
| Movement.HoldRule | Assets/Scripts/Movement/CharacterMovement.cs:129-136 | A non-zero input within 0.05 of the previous one is replaced by it; any other input is used and remembered. |
| Movement.HoldIdempotent | Assets/Scripts/Movement/CharacterMovement.cs:129-136 | Feeding the same input twice uses the same input both times. |
| Movement.VelocityRule | Assets/Scripts/Movement/CharacterMovement.cs:138-160 | The target velocity is zero at or below the threshold, else the normalised direction times the speed. The rigidbody keeps its vertical speed. |
| Movement.MoveTurnsOnlyWhenMoving | Assets/Scripts/Movement/CharacterMovement.cs:138-157 | Only a step above the movement threshold can turn the character. |
| Movement.SpeedRule | Assets/Scripts/Movement/CharacterMovement.cs:146 | The settings' speed, or the fallback without settings. |
| Movement.NoInputManagerNoOp | Assets/Scripts/Movement/CharacterMovement.cs:116-122 | Without an input manager a physics step changes nothing. |
| Movement.MovementEventRule | Assets/Scripts/Movement/CharacterMovement.cs:104-180 | The movement event fires exactly when the moving flag changes, with the new flag, and the animator's Walk follows. |
| Movement.SetMovingRule | Assets/Scripts/Movement/CharacterMovement.cs:205-216 | Sets the flag and fires only on a change; a second identical call does nothing; the animator is untouched. |
| Movement.CharacterMovement.constructor | Assets/Scripts/Movement/CharacterMovement.cs:92-97 | Facing right, not moving, forward move direction, and the last position at the transform. |
| Movement.CharacterMovement.MoveCharacter | Assets/Scripts/Movement/CharacterMovement.cs:116-161 | The state and event are `MoveStep` of the old state. |
| Movement.CharacterMovement.SteerTowards | Assets/Scripts/Movement/CharacterMovement.cs:138-157 | The state and event are `Steer` of the old state. |
| Movement.CharacterMovement.UpdateRotation | Assets/Scripts/Movement/CharacterMovement.cs:182-198 | The state and event are `Turn` of the old state. |
| Movement.CharacterMovement.Update | Assets/Scripts/Movement/CharacterMovement.cs:104-114 | The state and event are `Frame` of the old state. |
| Movement.CharacterMovement.UpdateAnimationState | Assets/Scripts/Movement/CharacterMovement.cs:163-180 | The state and event are `AnimationStep` of the old state. |
| Movement.CharacterMovement.SetMovementState | Assets/Scripts/Movement/CharacterMovement.cs:205-216 | The state and event are `SetMoving` of the old state. |
| CombatManagement.HandlersKeepInv | Assets/Scripts/Combat/CombatManager.cs:62-144 | Every handler keeps "attacking is blocked exactly while one cooldown runs". |
| CombatManagement.ShowAttackRule | Assets/Scripts/Combat/CombatManager.cs:92-131 | The attack animation goes to the CharacterAnimator when there is one, else to the Animator's parameter, else nowhere; nothing else changes. |
| CombatManagement.StartAttackRule | Assets/Scripts/Combat/CombatManager.cs:92-113 | Does nothing during a cooldown; otherwise shows the attack and blocks attacking until `now + attackCooldown`. |
| CombatManagement.EnterRule | Assets/Scripts/Combat/CombatManager.cs:62-75 | Entering always sets the target, and attacks exactly when attacking is allowed. |
| CombatManagement.ExitRule | Assets/Scripts/Combat/CombatManager.cs:77-90 | Only the current target leaving stops the attack and clears the target; anything else changes nothing. |
| CombatManagement.EnterThenExit | Assets/Scripts/Combat/CombatManager.cs:62-90 | Entering and then leaving leaves no target and the attack animation off. |
| CombatManagement.CooldownRule | Assets/Scripts/Combat/CombatManager.cs:133-144 | At the cooldown's end attacking is allowed again; if the target is still there the next attack starts at once. |
| CombatManagement.CombatManager.constructor | Assets/Scripts/Combat/CombatManager.cs:7-42 | No target, attacking allowed, no cooldown. |
| CombatManagement.CombatManager.HandleEnemyEnter | Assets/Scripts/Combat/CombatManager.cs:62-75 | The state is `EnemyEnter` of the old one. |
| CombatManagement.CombatManager.HandleEnemyExit | Assets/Scripts/Combat/CombatManager.cs:77-90 | The state is `EnemyExit` of the old one. |
| CombatManagement.CombatManager.StartAttackNow | Assets/Scripts/Combat/CombatManager.cs:92-113 | The state is `StartAttack` of the old one. |
| CombatManagement.CombatManager.StopAttackNow | Assets/Scripts/Combat/CombatManager.cs:115-131 | The state is `StopAttack` of the old one. |
| CombatManagement.CombatManager.SetAttackAnimation | Assets/Scripts/Combat/CombatManager.cs:96-110 | The state is `ShowAttack` of the old one. |
| CombatManagement.CombatManager.ResumeCooldown | Assets/Scripts/Combat/CombatManager.cs:133-144 | The state is `CooldownOver` of the old one. |
| Hitbox.CreatedInactive | Assets/Scripts/Combat/HitboxController.cs:31-64 | A created hitbox is inactive, with or without a trigger. |
| Hitbox.ActivateRule | Assets/Scripts/Combat/HitboxController.cs:66-76 | With a trigger the hitbox ends up on; without one, or already on, nothing changes. |
| Hitbox.DeactivateRule | Assets/Scripts/Combat/HitboxController.cs:78-88 | The hitbox ends up off; off or without a trigger, nothing changes. |
| Hitbox.ToggleLaws | Assets/Scripts/Combat/HitboxController.cs:66-88 | Both are idempotent; each undoes the other's effect on the flag. |
| Hitbox.HitboxController.constructor | Assets/Scripts/Combat/HitboxController.cs:31-64 | The state is `Created`. |
| Hitbox.HitboxController.ActivateHitbox | Assets/Scripts/Combat/HitboxController.cs:66-76 | The state is `Activate` of the old one. |
| Hitbox.HitboxController.DeactivateHitbox | Assets/Scripts/Combat/HitboxController.cs:78-88 | The state is `Deactivate` of the old one. |
| CombatControl.PoseRule | Assets/Scripts/Combat/CombatController.cs:105-129 | A live enemy touching the hitbox sets the attack pose, and one leaving sets the idle pose, when there is an animator; only the animator changes. |
| CombatControl.PosesRead | Assets/Scripts/Combat/CombatController.cs:109-127 | The poses read back as stated; each overrides the other entirely. |
| CombatControl.EnterThenExitIdles | Assets/Scripts/Combat/CombatController.cs:105-129 | Entering and then leaving ends in the idle pose. |
| CombatControl.AutoAttackRule | Assets/Scripts/Combat/CombatController.cs:220-236 | `AutoAttack` is `TryAttack` for a live target while attacking is allowed, and nothing otherwise. |
| CombatControl.FrameRule | Assets/Scripts/Combat/CombatController.cs:140-162 | `Update` turns an attack pose into Idle exactly when no enemy is near. |
| CombatControl.CombatRule | Assets/Scripts/Combat/CombatController.cs:250-268 | `StartCombat` with a null target does nothing; otherwise combat starts with that target. `EndCombat` clears both. |
| CombatControl.AttackFiresRule | Assets/Scripts/Combat/CombatController.cs:270-282 | In combat with a live target, the attack fires exactly within the attack range. |
| CombatControl.CombatController.constructor | Assets/Scripts/Combat/CombatController.cs:31-44 | No target, not in combat, attacking allowed. |
| CombatControl.CombatController.HandleEnemyEntered | Assets/Scripts/Combat/CombatController.cs:105-116 | The state is `Entered` of the old one. |
| CombatControl.CombatController.HandleEnemyExited | Assets/Scripts/Combat/CombatController.cs:118-129 | The state is `Exited` of the old one. |
| CombatControl.CombatController.OnTriggerExit | Assets/Scripts/Combat/CombatController.cs:131-138 | The state is `TriggerExit` of the old one. |
| CombatControl.CombatController.EnemyNearby | Assets/Scripts/Combat/CombatController.cs:144-154 | The loop reports an enemy exactly when some nearby collider is Enemy-tagged. |
| CombatControl.CombatController.Update | Assets/Scripts/Combat/CombatController.cs:140-162 | The state is `Frame` of the old one. |
| CombatControl.CombatController.TryAttackNow | Assets/Scripts/Combat/CombatController.cs:164-178 | The state is `TryAttack` of the old one. |
| CombatControl.CombatController.AutoAttackTarget | Assets/Scripts/Combat/CombatController.cs:220-236 | The state is `AutoAttack` of the old one. |
| CombatControl.CombatController.StartCombatWith | Assets/Scripts/Combat/CombatController.cs:250-259 | The state is `StartCombat` of the old one. |
| CombatControl.CombatController.EndCombatNow | Assets/Scripts/Combat/CombatController.cs:261-268 | The state is `EndCombat` of the old one. |
| CombatControl.CombatController.ProcessAttack | Assets/Scripts/Combat/CombatController.cs:270-282 | The trigger fires exactly when `AttackFires`. |
| CombatControl.CombatController.ActivateHitbox | Assets/Scripts/Combat/CombatController.cs:197-200 | The hitbox's state is `Activate` of the old one. |
| CombatControl.CombatController.DeactivateHitbox | Assets/Scripts/Combat/CombatController.cs:203-206 | The hitbox's state is `Deactivate` of the old one. |
| ExcelProcessing.ValidateCellType | @Program/excel_processor.py:34-48 | A missing cell is `(None, True)`, and `None` comes out exactly for a missing cell. An invalid cell keeps its original value. A valid present cell holds the conversion for its type. |
| ExcelProcessing.NatTextRoundTrip | @Program/excel_processor.py:64-72 | The row number in a log message is written as non-empty decimal digits without a leading zero, which read back as the number. |
| ExcelProcessing.LoggedMessages | @Program/excel_processor.py:64-72 | A null cell's and a mismatched cell's notes render as the processor's messages: sheet, row `row_idx + 2`, column and, for a mismatch, the type checked against. |
| ExcelProcessing.ValidityRule | @Program/excel_processor.py:34-48 | A cell is valid exactly when it is missing, or its type is INT, FLOAT or STRING and the conversion succeeds. |
| ExcelProcessing.LoadDefsLookup | @Program/excel_processor.py:25-29 | After loading, each sheet and column maps to the type of the last row declaring it; undeclared pairs keep their earlier entry. |
| ExcelProcessing.LoadDefsSheets | @Program/excel_processor.py:25-29 | No sheet is dropped, and every sheet a row names gets an entry. |
| ExcelProcessing.CellOutcomeRule | @Program/excel_processor.py:59-74 | A missing cell stays `None` and is logged as null. An invalid cell becomes "Error" and is logged as a type mismatch. A valid cell keeps its converted value. Logs name spreadsheet row `row_idx + 2`. |
| ExcelProcessing.UndeclaredIsString | @Program/excel_processor.py:60 | A column without a declared type is checked as STRING. |
| ExcelProcessing.RowKeys | @Program/excel_processor.py:57-74 | A row's dict has exactly the sheet's columns as keys. |
| ExcelProcessing.RowValues | @Program/excel_processor.py:57-74 | With distinct column names, each column's key holds that cell's processed value. |
| ExcelProcessing.RowNulls | @Program/excel_processor.py:64-67 | The null log of a row lists exactly its missing cells. |
| ExcelProcessing.RowErrors | @Program/excel_processor.py:68-72 | The mismatch log of a row lists exactly its present cells that fail validation. |
| ExcelProcessing.SheetRows | @Program/excel_processor.py:54-76 | The sheet's output has one dict per input row, in row order. |
| ExcelProcessing.AddNewRule | @Program/excel_processor.py:100-103 | The success list never gets a duplicate, keeps its order, and ends with a new name. |
| ExcelProcessing.AddNewIdempotent | @Program/excel_processor.py:100-103 | Adding a name twice is adding it once. |
| ExcelProcessing.ProcessRows | @Program/excel_processor.py:56-76 | The row loop builds the sheet's dicts and logs. |
| ExcelProcessing.ProcessRow | @Program/excel_processor.py:57-75 | The column loop builds one row's dict and logs. |
| ExcelProcessing.ExcelProcessor.constructor | @Program/excel_processor.py:6-14 | No paths, and every table and log empty. |
| ExcelProcessing.ExcelProcessor.SetPaths | @Program/excel_processor.py:16-19 | Both paths are set; nothing else changes. |
| ExcelProcessing.ExcelProcessor.LoadTypeDefinitions | @Program/excel_processor.py:21-32 | Fails exactly when the sheet cannot be read, leaving the table unchanged. Otherwise every row is merged into the table, which is returned. Nothing else changes. |
| ExcelProcessing.ExcelProcessor.ProcessSheet | @Program/excel_processor.py:50-82 | Succeeds exactly when the sheet is read and either has a type table or no cell. It then stores the sheet's dicts, marks it processed and appends its logs. A failure changes nothing. |
| ExcelProcessing.ExcelProcessor.ClearResults | @Program/excel_processor.py:92-98 | Every result is emptied; the type table and the paths stay. |
| ExcelProcessing.ExcelProcessor.AddSuccessFile | @Program/excel_processor.py:100-103 | The list becomes `AddNew` of the old one; nothing else changes. |
| ExcelProcessing.ExcelProcessor.GetProcessingResults | @Program/excel_processor.py:105-112 | The four result collections. |

## Left out

- Rendering, physics, navigation and UI are not modelled. Their results are parameters:
  - overlap queries are collider sequences;
  - `Vector3.normalized` and the navigation agent's velocity are inputs;
  - the agent's destination and stopping state are stored, not followed.
- The `DetectionRange` and `AttackRange` components are assumed present. `AutoCombat`'s null
  checks on them and the `enabled = false` paths of the `Start` methods are not modelled.
- Null `MovementSettings` is not modelled; the detector's search radius is a constant.
- Floating point is not modelled. Constants are exact reals, and thresholds with square roots
  are compared on squares. Values exactly at a boundary can therefore differ from
  single-precision arithmetic.
- `Dictionary` and `HashSet` enumeration is modelled as insertion order. .NET reuses the slots of
  removed entries, so after a removal the real order can differ.
- Coroutines are deadlines that the engine resumes.
  - Stopping them when a component is disabled is not modelled.
  - When several stun coroutines are due together, the engine picks the order;
    `ResumeStun` takes any one of them.
- Component wiring and listener lifecycle are not modelled: `CombatManager.OnEnable`/`OnDisable`,
  `CombatController.SetupHitboxController`, `SetupHitboxTriggerEvents`, `RemoveEventListeners` and
  `OnDestroy`.
- Logging-only code is not modelled: `OnEnemyHit`, `HitboxController.OnHitboxHit`, gizmos,
  `OnValidate` and the debug logs.
- `HitboxController.SetHitboxProperties` only moves and resizes the collider, which has no
  decision effect.
- `InputManager.OnAttackButtonPressed` only forwards to `CombatController.TryAttack`, which is
  modelled. `GetPriorityInput` is a plain getter.
- `EnemyDetector.FindNearestEnemyInWorld`, `FindAllGameObjectsWithLayer` and
  `GetAllDetectedEnemies` are not called by the modelled core.
- Dead code is not modelled: `AutoCombat.ProcessMovementTowardsTarget`, `UpdateTargetPosition`,
  `DelayedAttackStop` and `ToggleJoystickVisibility`, none of which is called.
  - The `StopCoroutine` on `attackDelayCoroutine` is dead too, because that field is never
    assigned.
  - `validationTimer`, `isAttacking` and `movementInput` are written but never read.
- `NewEnemyMovement.GeneratePatrolPoints` uses randomness and NavMesh sampling and is not
  modelled. Nothing calls it, so `patrolPoints` stays null, and nothing calls
  `SetDestinationToNextPatrolPoint` either: both patrol methods are dead code, and a call to the
  latter would throw at `patrolPoints.Length`. The model's patrol points are a parameter that
  stands for an array allocated elsewhere; the null case is not modelled.
- The `LateUpdate` height fix and `LookAtTarget`'s and `UpdateRotationBasedOnMovement`'s transform
  writes are kept only as the yaw value.
- The states Idle, Patrol, Flee and Dead have no behaviour in the source and are only carried.
- `CharacterMovement.smoothedVelocity` and the `MovementDelta` / `GetPositionDelta` accessors are
  not modelled. `Awake`'s rigidbody constraints become `ApplyVelocity` keeping the vertical speed.
- `CombatController.AutoAttack`'s turn of `transform.forward` towards the target is not modelled.
- `CombatController.PerformAttack` and `ProcessAttack` are never started or called by the source.
  - `canAttack` therefore stays true: this is `Valid()`.
  - The Attack trigger that `ProcessAttack` would set is reported as a result, not stored.
- `CombatController.IsInCombat` / `CurrentTarget` and `DetectionRange.DetectionRadius` are
  plain getters.
- `CombatManager` calls `CharacterAnimator.SetAttackAnimation`, which `CharacterAnimator.cs` does
  not define. The model records the value passed as `characterAttack`.
- `ExcelProcessor.save_to_json` is file output and is not modelled.
  - `pd.read_excel` is a parameter: `None` when reading fails.
  - `int()`, `float()` and `str()` are the `Converters` parameters.
  - A raised exception is a `false` result that changes nothing.
- A TypeDefinition sheet with missing columns is not modelled: rows are well-formed records.
- Log strings are structured `Note` records. `NullMessage` and `TypeMessage` render them, and the
  row number is rendered without separators.
- `ProcessSheet` appends a sheet's logs once, after its rows, instead of cell by cell. Nothing can
  fail after the first cell, so the final lists are the same.
- `GetProcessingResults`: the processed-sheet list is returned as a set, because Python's order
  for it is arbitrary. The result is a value copy, so later changes to the lists do not show
  through it as they do in Python.
