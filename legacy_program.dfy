/**
 * The older constants variant (app/constants.ts): pound-only tables and a
 * fixed five-set session for every lift.
 */
module LegacyProgram {
  import P = Program

  function Workout(t: P.WorkoutType): (r: seq<P.Lift>)
    ensures r == P.Workout(t)
  {
    match t
    case A => [P.Squat, P.Bench, P.Row]
    case B => [P.Squat, P.Ohp, P.Deadlift]
  }

  const DefaultWeights: P.PerLift<real> := P.PerLift(45.0, 45.0, 65.0, 45.0, 95.0)
  const DefaultFailures: P.PerLift<int> := P.PerLift(0, 0, 0, 0, 0)
  const DefaultDeloads: P.PerLift<int> := P.PerLift(0, 0, 0, 0, 0)

  /** Every lift, deadlift included, starts with five unattempted sets. */
  function CreateDefaultSession(): (r: P.PerLift<P.ExerciseSession>)
    ensures forall l: P.Lift :: |r.Get(l).sets| == 5 && !r.Get(l).completed
    ensures forall l: P.Lift, i :: 0 <= i < |r.Get(l).sets| ==> r.Get(l).sets[i] == P.EmptySet
  {
    var unattempted := P.ExerciseSession([-1, -1, -1, -1, -1], false);
    P.PerLift(unattempted, unattempted, unattempted, unattempted, unattempted)
  }

  const ProgressionIncrements: P.PerLift<real> := P.PerLift(5.0, 5.0, 5.0, 5.0, 10.0)
  const TargetReps: P.PerLift<int> := P.PerLift(25, 25, 25, 25, 5)

  const DeloadPercentage: real := 0.1
  const MaxFailuresBeforeDeload: int := 3
  const MaxDeloadsBefore3x5: int := 3

  /** The older tables are the pound rows of the newer ones. */
  lemma TablesArePoundRowsOfNewer(l: P.Lift)
    ensures DefaultWeights.Get(l) == P.DefaultWeights(P.Lbs).Get(l)
    ensures ProgressionIncrements.Get(l) == P.ProgressionIncrement(P.Lbs, l)
    ensures TargetReps.Get(l) == P.TargetReps.Get(l)
    ensures DefaultFailures.Get(l) == 0 && DefaultDeloads.Get(l) == 0
  {
  }

  /**
   * The older session gives the deadlift five sets while its target stays
   * five reps, so unlike the newer variant the target is not five reps per set.
   */
  lemma DeadliftTargetBelowSetCapacity()
    ensures TargetReps.Get(P.Deadlift) == 5
    ensures 5 * |CreateDefaultSession().Get(P.Deadlift).sets| == 25
    ensures forall l :: l != P.Deadlift ==> TargetReps.Get(l) == 5 * |CreateDefaultSession().Get(l).sets|
  {
  }
}
