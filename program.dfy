/**
 * The program constants of the linear 5x5 progression and the fresh
 * session values built from them (src/constants/constants.ts).
 */
module Program {
  import opened Wrappers

  datatype Lift = Squat | Bench | Row | Ohp | Deadlift
  datatype WorkoutType = A | B
  datatype Unit = Lbs | Kg
  datatype Scheme = FiveByFive | ThreeByFive | OneByFive

  /** A record with one field per lift (`Record<ExerciseKey, T>`). */
  datatype PerLift<T> = PerLift(squat: T, bench: T, row: T, ohp: T, deadlift: T) {
    function Get(l: Lift): T {
      match l
      case Squat => squat
      case Bench => bench
      case Row => row
      case Ohp => ohp
      case Deadlift => deadlift
    }
  }

  /** The lifts in the key order of the source's records. */
  const AllLifts: seq<Lift> := [Squat, Bench, Row, Ohp, Deadlift]

  /** The sentinel of a set that has not been attempted. */
  const EmptySet: int := -1

  datatype ExerciseSession = ExerciseSession(sets: seq<int>, completed: bool)

  /** x is a positive whole number of `step`s. */
  ghost predicate IsPositiveMultiple(x: real, step: real) {
    step > 0.0 && x > 0.0 && (x / step).Floor as real == x / step
  }

  function Workout(t: WorkoutType): (r: seq<Lift>)
    ensures |r| == 3 && r[0] == Squat
  {
    match t
    case A => [Squat, Bench, Row]
    case B => [Squat, Ohp, Deadlift]
  }

  function ExerciseName(l: Lift): string {
    match l
    case Squat => "Squat"
    case Bench => "Bench Press"
    case Row => "Barbell Row"
    case Ohp => "Overhead Press"
    case Deadlift => "Deadlift"
  }

  function DefaultWeights(u: Unit): PerLift<real> {
    match u
    case Lbs => PerLift(45.0, 45.0, 65.0, 45.0, 95.0)
    case Kg => PerLift(20.0, 20.0, 30.0, 20.0, 40.0)
  }

  const DefaultFailures: PerLift<int> := PerLift(0, 0, 0, 0, 0)
  const DefaultDeloads: PerLift<int> := PerLift(0, 0, 0, 0, 0)
  const DefaultRepSchemes: PerLift<Scheme> :=
    PerLift(FiveByFive, FiveByFive, FiveByFive, FiveByFive, OneByFive)

  /** Total reps that complete an exercise under a scheme. */
  function TargetRepsForScheme(s: Scheme): (r: int)
    ensures r % 5 == 0 && 5 <= r <= 25
  {
    match s
    case FiveByFive => 25
    case ThreeByFive => 15
    case OneByFive => 5
  }

  /** A fresh, unattempted set list: one set of five reps per five target reps. */
  function DefaultSessionForScheme(s: Scheme): (r: seq<int>)
    ensures 5 * |r| == TargetRepsForScheme(s)
    ensures forall i :: 0 <= i < |r| ==> r[i] == EmptySet
  {
    match s
    case FiveByFive => [-1, -1, -1, -1, -1]
    case ThreeByFive => [-1, -1, -1]
    case OneByFive => [-1]
  }

  /** `repSchemes || defaultRepSchemes`: a missing argument means the defaults. */
  function CreateDefaultSession(repSchemes: Option<PerLift<Scheme>>): (r: PerLift<ExerciseSession>)
    ensures forall l: Lift ::
      && 5 * |r.Get(l).sets| == TargetRepsForScheme(repSchemes.GetOr(DefaultRepSchemes).Get(l))
      && (forall i :: 0 <= i < |r.Get(l).sets| ==> r.Get(l).sets[i] == EmptySet)
      && !r.Get(l).completed
  {
    var s := repSchemes.GetOr(DefaultRepSchemes);
    PerLift(
      ExerciseSession(DefaultSessionForScheme(s.squat), false),
      ExerciseSession(DefaultSessionForScheme(s.bench), false),
      ExerciseSession(DefaultSessionForScheme(s.row), false),
      ExerciseSession(DefaultSessionForScheme(s.ohp), false),
      ExerciseSession(DefaultSessionForScheme(s.deadlift), false))
  }

  function ProgressionIncrement(u: Unit, l: Lift): real {
    match u
    case Lbs => if l == Deadlift then 10.0 else 5.0
    case Kg => if l == Deadlift then 5.0 else 2.5
  }

  function MinimumIncrement(u: Unit): (r: real)
    ensures r > 0.0
  {
    match u
    case Lbs => 5.0
    case Kg => 2.5
  }

  const TargetReps: PerLift<int> := PerLift(25, 25, 25, 25, 5)

  const DeloadPercentage: real := 0.1
  const MaxFailuresBeforeDeload: int := 3
  const MaxDeloadsBefore3x5: int := 3

  // ---------------------------------------------------------------- properties

  lemma DefaultSessionLengths()
    ensures |DefaultSessionForScheme(FiveByFive)| == 5
    ensures |DefaultSessionForScheme(ThreeByFive)| == 3
    ensures |DefaultSessionForScheme(OneByFive)| == 1
  {
  }

  /** With no argument the deadlift gets a single set, every other lift five. */
  lemma DefaultSessionUsesDefaultSchemes()
    ensures CreateDefaultSession(None).deadlift.sets == [EmptySet]
    ensures forall l :: l != Deadlift ==> CreateDefaultSession(None).Get(l).sets == [-1, -1, -1, -1, -1]
  {
  }

  /** The templates: squat is the one lift of both, and every lift is trained. */
  lemma WorkoutTemplates()
    ensures forall l :: l in Workout(A) && l in Workout(B) <==> l == Squat
    ensures forall l :: l in Workout(A) || l in Workout(B)
    ensures forall t, i, j :: 0 <= i < j < 3 ==> Workout(t)[i] != Workout(t)[j]
  {
  }

  lemma IncrementsAreMultiplesOfMinimum(u: Unit, l: Lift)
    ensures IsPositiveMultiple(ProgressionIncrement(u, l), MinimumIncrement(u))
    ensures IsPositiveMultiple(DefaultWeights(u).Get(l), MinimumIncrement(u))
  {
  }

  lemma TargetRepsAgreesWithDefaultSchemes(l: Lift)
    ensures TargetReps.Get(l) == TargetRepsForScheme(DefaultRepSchemes.Get(l))
    ensures TargetReps.Get(l) == 5 * |CreateDefaultSession(None).Get(l).sets|
  {
  }

  lemma DefaultCountersAreZero(l: Lift)
    ensures DefaultFailures.Get(l) == 0 && DefaultDeloads.Get(l) == 0
  {
  }
}
