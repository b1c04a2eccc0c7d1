/**
 * The in-app review prompt (app/reviewPrompt.ts): the schedule on which the
 * prompt appears, the stored counters, and how completing a workout and
 * answering the prompt change them.
 */
module Review {
  import opened Wrappers

  const ReviewStorageKey: string := "lifts_review_data"

  datatype ReviewData = ReviewData(completedWorkouts: int, lastPromptedAt: int, hasRequestedReview: bool)

  /** The stored record; `None` stands for nothing stored, an empty string, or a read or parse that threw. */
  function GetReviewData(stored: Option<ReviewData>): (r: ReviewData)
    ensures stored.Some? ==> r == stored.value
    ensures stored.None? ==> r.completedWorkouts == 0 && r.lastPromptedAt == 0 && !r.hasRequestedReview
  {
    match stored
    case Some(d) => d
    case None => ReviewData(0, 0, false)
  }

  /**
   * Whether the `completedWorkouts`-th workout shows the prompt. JavaScript's `%` truncates,
   * Dafny's is Euclidean; they agree on `n % 2 == 0`, and `n - 12` is positive where the
   * other test is made.
   */
  function ShouldPromptForReview(completedWorkouts: int, testMode: bool): (r: bool)
    ensures testMode ==> (r <==> completedWorkouts % 2 == 0)
  {
    if testMode then completedWorkouts % 2 == 0
    else if completedWorkouts == 2 || completedWorkouts == 6 || completedWorkouts == 12 then true
    else completedWorkouts > 12 && (completedWorkouts - 12) % 10 == 0
  }

  /** The schedule outside test mode read as digits: 2, 6, and every count from 12 on ending in 2. */
  lemma ScheduleEndsInTwo(n: int)
    ensures ShouldPromptForReview(n, false) <==> n == 2 || n == 6 || (n >= 12 && n % 10 == 2)
  {
  }

  /** From 12 on, prompts come exactly ten workouts apart, with none in between. */
  lemma ScheduleEveryTenAfterTwelve(n: int)
    requires n >= 12 && ShouldPromptForReview(n, false)
    ensures ShouldPromptForReview(n + 10, false)
    ensures forall m :: n < m < n + 10 ==> !ShouldPromptForReview(m, false)
  {
    forall m | n < m < n + 10 ensures !ShouldPromptForReview(m, false) {
      ScheduleEndsInTwo(m);
      ScheduleEndsInTwo(n);
    }
  }

  /** The first prompts: counts below 40 prompt exactly at 2, 6, 12, 22 and 32. */
  lemma FirstPrompts()
    ensures forall n :: 0 <= n < 40 ==> (ShouldPromptForReview(n, false) <==> n in [2, 6, 12, 22, 32])
  {
  }

  /** Before any answer, `lastPromptedAt` records a count already reached. */
  ghost predicate Consistent(d: ReviewData) {
    0 <= d.lastPromptedAt <= d.completedWorkouts
  }

  /** What one call of `handleWorkoutCompletion` does, given whether the store can take reviews. */
  datatype Completion = Completion(data: ReviewData, prompted: bool, saved: bool)

  function CompleteWorkout(d: ReviewData, testMode: bool, reviewAvailable: bool): (r: Completion)
    ensures d.hasRequestedReview ==> r.data == d && !r.prompted && !r.saved
    ensures !d.hasRequestedReview ==>
      r.saved &&
      r.data == d.(completedWorkouts := d.completedWorkouts + 1) &&
      (r.prompted <==> reviewAvailable && ShouldPromptForReview(d.completedWorkouts + 1, testMode))
    ensures Consistent(d) ==> Consistent(r.data)
  {
    if d.hasRequestedReview then Completion(d, false, false)
    else
      var next := d.(completedWorkouts := d.completedWorkouts + 1);
      Completion(next, reviewAvailable && ShouldPromptForReview(next.completedWorkouts, testMode), true)
  }

  datatype Answer = NotReally | Yes

  /** The prompt's buttons: both record the count, only "Yes!" stops further prompts. */
  function AnswerPrompt(d: ReviewData, a: Answer): (r: ReviewData)
    ensures r.completedWorkouts == d.completedWorkouts
    ensures r.lastPromptedAt == d.completedWorkouts
    ensures r.hasRequestedReview == (a == Yes || d.hasRequestedReview)
    ensures d.completedWorkouts >= 0 ==> Consistent(r)
  {
    match a
    case NotReally => d.(lastPromptedAt := d.completedWorkouts)
    case Yes => d.(hasRequestedReview := true, lastPromptedAt := d.completedWorkouts)
  }

  /** `n` completions in a row, none of them answered. */
  function Completions(d: ReviewData, testMode: bool, reviewAvailable: bool, n: nat): ReviewData
    decreases n
  {
    if n == 0 then d else Completions(CompleteWorkout(d, testMode, reviewAvailable).data, testMode, reviewAvailable, n - 1)
  }

  /** Without a "Yes!", the counter counts completions exactly. */
  lemma {:induction false} CounterCountsCompletions(d: ReviewData, testMode: bool, reviewAvailable: bool, n: nat)
    requires !d.hasRequestedReview
    ensures Completions(d, testMode, reviewAvailable, n) == d.(completedWorkouts := d.completedWorkouts + n)
    decreases n
  {
    if n > 0 {
      CounterCountsCompletions(CompleteWorkout(d, testMode, reviewAvailable).data, testMode, reviewAvailable, n - 1);
    }
  }

  /** After "Yes!", completions change nothing, save nothing and never prompt again. */
  lemma {:induction false} YesIsFinal(d: ReviewData, testMode: bool, reviewAvailable: bool, n: nat)
    ensures var after := AnswerPrompt(d, Yes);
      Completions(after, testMode, reviewAvailable, n) == after &&
      !CompleteWorkout(after, testMode, reviewAvailable).prompted &&
      !CompleteWorkout(after, testMode, reviewAvailable).saved
    decreases n
  {
    if n > 0 {
      YesIsFinal(d, testMode, reviewAvailable, n - 1);
    }
  }

  /** The app's stored review record, loaded once and updated in place. */
  class ReviewRecord {
    var completedWorkouts: int
    var lastPromptedAt: int
    var hasRequestedReview: bool

    function Data(): ReviewData
      reads this
    {
      ReviewData(completedWorkouts, lastPromptedAt, hasRequestedReview)
    }

    constructor Load(stored: Option<ReviewData>)
      ensures Data() == GetReviewData(stored)
    {
      var d := GetReviewData(stored);
      completedWorkouts := d.completedWorkouts;
      lastPromptedAt := d.lastPromptedAt;
      hasRequestedReview := d.hasRequestedReview;
    }

    /** Returns whether the prompt is shown and whether the record is saved. */
    method HandleWorkoutCompletion(testMode: bool, reviewAvailable: bool) returns (prompted: bool, saved: bool)
      modifies this
      ensures Data() == CompleteWorkout(old(Data()), testMode, reviewAvailable).data
      ensures prompted == CompleteWorkout(old(Data()), testMode, reviewAvailable).prompted
      ensures saved == CompleteWorkout(old(Data()), testMode, reviewAvailable).saved
    {
      if hasRequestedReview {
        return false, false;
      }
      completedWorkouts := completedWorkouts + 1;
      prompted := reviewAvailable && ShouldPromptForReview(completedWorkouts, testMode);
      saved := true;
    }

    method AnswerNotReally()
      modifies this
      ensures Data() == AnswerPrompt(old(Data()), NotReally)
    {
      lastPromptedAt := completedWorkouts;
    }

    /** Returns whether the store's review sheet is requested, which only iOS and Android do. */
    method AnswerYes(mobilePlatform: bool) returns (requestReview: bool)
      modifies this
      ensures Data() == AnswerPrompt(old(Data()), Yes)
      ensures requestReview == mobilePlatform
    {
      hasRequestedReview := true;
      lastPromptedAt := completedWorkouts;
      requestReview := mobilePlatform;
    }
  }
}
