/** Tuning constants of the enemy AI and the distance-to-update-period table. */
module NewConstants {

  /** How often an enemy re-runs its AI, as a number of rendered frames. */
  datatype UpdateFrequency =
    | EveryFrame
    | EveryTwoFrames
    | EveryThreeFrames
    | EveryFourFrames
    | EverySixFrames
    | EveryTenFrames
    | EveryThirtyFrames
  {
    /** The enum's underlying integer: the period in frames. */
    function Frames(): (n: nat)
      ensures 1 <= n <= 30
    {
      match this
      case EveryFrame => 1
      case EveryTwoFrames => 2
      case EveryThreeFrames => 3
      case EveryFourFrames => 4
      case EverySixFrames => 6
      case EveryTenFrames => 10
      case EveryThirtyFrames => 30
    }
  }

  const DefaultUpdateFrequency: UpdateFrequency := EveryThreeFrames

  const CloseDistance: real := 5.0
  const MediumDistance: real := 10.0
  const FarDistance: real := 20.0
  const VeryFarDistance: real := 30.0
  const ExtremeDistance: real := 50.0

  /** The AI states of an enemy. */
  datatype EnemyState = Idle | Patrol | Chase | Attack | Flee | Stunned | Dead

  const DetectionRadius: real := 10.0
  const AttackRadius: real := 3.0
  const WalkSpeed: real := 1.0
  const RunSpeed: real := 3.0
  const StoppingDistance: real := 3.5
  const AttackCooldown: real := 1.5

  /** Animator parameter names. */
  const AnimWalk: string := "Walk"
  const AnimAttack: string := "Attack"

  /** Farther enemies update less often. Each bound is inclusive. */
  function GetUpdateFrequencyByDistance(distance: real): (f: UpdateFrequency)
    ensures distance <= CloseDistance ==> f == EveryThreeFrames
    ensures CloseDistance < distance <= MediumDistance ==> f == EveryFourFrames
    ensures MediumDistance < distance <= FarDistance ==> f == EverySixFrames
    ensures FarDistance < distance <= VeryFarDistance ==> f == EveryTenFrames
    ensures VeryFarDistance < distance ==> f == EveryThirtyFrames
  {
    if distance <= CloseDistance then EveryThreeFrames
    else if distance <= MediumDistance then EveryFourFrames
    else if distance <= FarDistance then EverySixFrames
    else if distance <= VeryFarDistance then EveryTenFrames
    else EveryThirtyFrames
  }

  /** A farther enemy never updates more often than a nearer one. */
  lemma FrequencyMonotone(d1: real, d2: real)
    requires d1 <= d2
    ensures GetUpdateFrequencyByDistance(d1).Frames() <= GetUpdateFrequencyByDistance(d2).Frames()
  {
  }

  /** The two fastest periods are never chosen: every enemy skips at least two frames. */
  lemma FrequencyAtLeastThree(d: real)
    ensures GetUpdateFrequencyByDistance(d) != EveryFrame
    ensures GetUpdateFrequencyByDistance(d) != EveryTwoFrames
    ensures 3 <= GetUpdateFrequencyByDistance(d).Frames() <= 30
  {
  }

  /** The attack radius lies inside the stopping distance, which lies inside the detection radius. */
  lemma RadiusOrdering()
    ensures AttackRadius < StoppingDistance < DetectionRadius
    ensures WalkSpeed < RunSpeed
  {
  }
}
