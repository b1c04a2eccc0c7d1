/**
 * The progress screen's data (app/progress.tsx): the accessory ids seen in the
 * history, the per-exercise chart series with their date labels, and the
 * filters and lookups the screen applies to them.
 */
module Progress {
  import opened Wrappers
  import opened Program
  import Units

  datatype WorkoutExercise = WorkoutExercise(name: string, weight: real, sets: seq<int>, completed: bool)

  datatype AccessoryEntry = AccessoryEntry(id: string, name: string, weight: real, sets: seq<int>, targetReps: int)

  /** A finished workout; the optional fields are absent in older records. */
  datatype WorkoutHistoryItem = WorkoutHistoryItem(
    date: string,
    wtype: WorkoutType,
    exercises: seq<WorkoutExercise>,
    accessories: Option<seq<AccessoryEntry>>,
    bodyweight: Option<real>,
    unit: Option<Unit>)

  /** The keys of `exerciseData`: the five lifts, bodyweight, and one per accessory id. */
  datatype SeriesKey = LiftSeries(lift: Lift) | BodyweightSeries | AccessorySeries(id: string)

  // ---------------------------------------------------------------- names and keys

  /** The `exerciseNames` entry whose display name is `name`. */
  function LiftOfName(name: string): (r: Option<Lift>)
    ensures r.Some? ==> ExerciseName(r.value) == name
    ensures r.None? ==> forall l :: ExerciseName(l) != name
  {
    if name == "Squat" then Some(Squat)
    else if name == "Bench Press" then Some(Bench)
    else if name == "Barbell Row" then Some(Row)
    else if name == "Overhead Press" then Some(Ohp)
    else if name == "Deadlift" then Some(Deadlift)
    else None
  }

  lemma LiftOfNameInvertsExerciseName(l: Lift)
    ensures LiftOfName(ExerciseName(l)) == Some(l)
  {
  }

  /** The `ExerciseKey` string of a lift. */
  function LiftKey(l: Lift): string {
    match l
    case Squat => "squat"
    case Bench => "bench"
    case Row => "row"
    case Ohp => "ohp"
    case Deadlift => "deadlift"
  }

  /** `key in exerciseNames`. */
  function LiftOfKey(key: string): (r: Option<Lift>)
    ensures r.Some? ==> LiftKey(r.value) == key
    ensures r.None? ==> forall l :: LiftKey(l) != key
  {
    if key == "squat" then Some(Squat)
    else if key == "bench" then Some(Bench)
    else if key == "row" then Some(Row)
    else if key == "ohp" then Some(Ohp)
    else if key == "deadlift" then Some(Deadlift)
    else None
  }

  /** `workout.unit || "lbs"`. */
  function WorkoutUnit(w: WorkoutHistoryItem): Unit {
    w.unit.GetOr(Lbs)
  }

  function AccessoriesOf(w: WorkoutHistoryItem): seq<AccessoryEntry> {
    w.accessories.GetOr([])
  }

  // ---------------------------------------------------------------- date labels

  /** The first field of `s.split("/")`. */
  function Field(s: string): (r: string)
    ensures |r| <= |s| && r == s[..|r|]
    ensures forall j :: 0 <= j < |r| ==> r[j] != '/'
    ensures r == s || s[|r|] == '/'
  {
    var k := Units.IndexOf(s, '/');
    if k < 0 then s else s[..k]
  }

  /**
   * The chart label. `date.split("/")` has at least two parts exactly when the date
   * holds a '/', and then the first two parts are the text before it and the field
   * after it; the label joins those two, otherwise it is the whole date.
   */
  function ShortDate(date: string): string {
    var i := Units.IndexOf(date, '/');
    if i < 0 then date else date[..i] + "/" + Field(date[i + 1..])
  }

  /**
   * The label is a prefix of the date: all of it when there is no '/', and otherwise
   * one that runs past the first '/' up to, not including, the next one or the end.
   */
  lemma ShortDateIsLabelPrefix(date: string)
    ensures var r := ShortDate(date);
      && |r| <= |date| && r == date[..|r|]
      && (Units.IndexOf(date, '/') < 0 ==> r == date)
      && (r == date || date[|r|] == '/')
      && (Units.IndexOf(date, '/') >= 0 ==>
            Units.IndexOf(date, '/') < |r| && forall j :: Units.IndexOf(date, '/') < j < |r| ==> r[j] != '/')
  {
    var i := Units.IndexOf(date, '/');
    var r := ShortDate(date);
    if i < 0 {
      assert r == date;
      assert date[..|date|] == date;
    } else {
      var f := Field(date[i + 1..]);
      assert r == date[..i] + "/" + f;
      ShortDateShape(date, i, f);
    }
  }

  /** The label `date[..i] + "/" + f` is the prefix of `date` up to the end of the field `f` after the slash at `i`. */
  lemma ShortDateShape(date: string, i: int, f: string)
    requires 0 <= i < |date| && date[i] == '/'
    requires f == Field(date[i + 1..])
    ensures var r := date[..i] + "/" + f;
      && |r| == i + 1 + |f| <= |date| && r == date[..|r|]
      && (r == date || date[|r|] == '/')
      && forall j :: i < j < |r| ==> r[j] != '/'
  {
    var tail := date[i + 1..];
    var r := date[..i] + "/" + f;
    assert |f| <= |tail| && f == tail[..|f|];
    forall j | 0 <= j < |r| ensures r[j] == date[j] {
      if j > i {
        assert r[j] == f[j - i - 1] == tail[j - i - 1];
      }
    }
    if f != tail {
      assert date[|r|] == tail[|f|];
    }
  }

  lemma ShortDateOfFullDate()
    ensures ShortDate("10/14/2026") == "10/14"
  {
    var d := "10/14/2026";
    assert d[0] != '/' && d[1] != '/' && d[2] == '/';
    assert Units.IndexOf(d, '/') == 2;
    var rest := d[3..];
    assert rest == "14/2026";
    assert rest[0] != '/' && rest[1] != '/' && rest[2] == '/';
    assert Units.IndexOf(rest, '/') == 2;
    assert Field(rest) == "14";
    assert d[..2] + "/" + "14" == "10/14";
  }

  lemma ShortDateWithoutSlash()
    ensures ShortDate("2026-10-14") == "2026-10-14"
  {
    var d := "2026-10-14";
    assert forall j :: 0 <= j < |d| ==> d[j] != '/';
  }

  // ---------------------------------------------------------------- accessory ids

  ghost predicate AccessoryInHistory(history: seq<WorkoutHistoryItem>, id: string) {
    exists i, j :: 0 <= i < |history| && 0 <= j < |AccessoriesOf(history[i])| && AccessoriesOf(history[i])[j].id == id
  }

  ghost predicate NoDuplicates<T>(s: seq<T>) {
    forall i, j :: 0 <= i < j < |s| ==> s[i] != s[j]
  }

  /** The `Set` of accessory ids, in insertion order. */
  method AccessoryIdsInHistory(history: seq<WorkoutHistoryItem>) returns (ids: seq<string>)
    ensures NoDuplicates(ids)
    ensures forall id :: id in ids <==> AccessoryInHistory(history, id)
  {
    ids := [];
    for i := 0 to |history|
      invariant NoDuplicates(ids)
      invariant forall id :: id in ids <==> AccessoryInHistory(history[..i], id)
    {
      var accs := AccessoriesOf(history[i]);
      ghost var before := ids;
      for j := 0 to |accs|
        invariant NoDuplicates(ids)
        invariant forall id :: id in ids <==> id in before || exists m :: 0 <= m < j && accs[m].id == id
      {
        if accs[j].id !in ids {
          ids := ids + [accs[j].id];
        }
      }
      forall id ensures AccessoryInHistory(history[..i + 1], id) <==> AccessoryInHistory(history[..i], id) || exists m :: 0 <= m < |accs| && accs[m].id == id {
        if AccessoryInHistory(history[..i + 1], id) {
          var a, b :| 0 <= a < i + 1 && 0 <= b < |AccessoriesOf(history[..i + 1][a])| && AccessoriesOf(history[..i + 1][a])[b].id == id;
          if a < i {
            assert history[..i][a] == history[..i + 1][a];
          }
        }
        if AccessoryInHistory(history[..i], id) {
          var a, b :| 0 <= a < i && 0 <= b < |AccessoriesOf(history[..i][a])| && AccessoriesOf(history[..i][a])[b].id == id;
          assert history[..i + 1][a] == history[..i][a];
        }
        if exists m :: 0 <= m < |accs| && accs[m].id == id {
          var m :| 0 <= m < |accs| && accs[m].id == id;
          assert history[..i + 1][i] == history[i];
        }
      }
    }
    assert history[..|history|] == history;
  }

  // ---------------------------------------------------------------- chart series

  /** The converted weights of the workout's entries named after `l`, in order. */
  function LiftMatches(exercises: seq<WorkoutExercise>, l: Lift, from: Unit, to: Unit): (r: seq<real>)
    ensures |r| <= |exercises|
    decreases |exercises|
  {
    if exercises == [] then []
    else
      var last := exercises[|exercises| - 1];
      LiftMatches(exercises[..|exercises| - 1], l, from, to) +
        (if LiftOfName(last.name) == Some(l) then [Units.ConvertWeight(last.weight, from, to)] else [])
  }

  lemma LiftMatchesStep(exercises: seq<WorkoutExercise>, j: nat, from: Unit, to: Unit)
    requires j < |exercises|
    ensures forall l ::
              LiftMatches(exercises[..j + 1], l, from, to) ==
              LiftMatches(exercises[..j], l, from, to) + (if LiftOfName(exercises[j].name) == Some(l) then [Units.ConvertWeight(exercises[j].weight, from, to)] else [])
  {
    assert exercises[..j + 1][..j] == exercises[..j];
  }

  /** A lift has no point of its own in a workout exactly when no entry carries its name. */
  lemma {:induction false} NoLiftMatches(exercises: seq<WorkoutExercise>, l: Lift, from: Unit, to: Unit)
    ensures LiftMatches(exercises, l, from, to) == [] <==> forall j :: 0 <= j < |exercises| ==> ExerciseName(l) != exercises[j].name
    decreases |exercises|
  {
    if exercises != [] {
      var init, last := exercises[..|exercises| - 1], exercises[|exercises| - 1];
      NoLiftMatches(init, l, from, to);
      LiftOfNameMatches(l, last.name);
      LastLiftMatches(exercises, l, from, to);
      NamesAvoidStep(exercises, ExerciseName(l));
    }
  }

  /** The matches of a non-empty log are empty exactly when those of all but its last entry are and the last entry is not the lift. */
  lemma LastLiftMatches(exercises: seq<WorkoutExercise>, l: Lift, from: Unit, to: Unit)
    requires exercises != []
    ensures var last := exercises[|exercises| - 1];
      LiftMatches(exercises, l, from, to) == [] <==>
        LiftMatches(exercises[..|exercises| - 1], l, from, to) == [] && LiftOfName(last.name) != Some(l)
  {
  }

  /** No entry of a non-empty log bears a name exactly when no entry before the last does and the last does not. */
  lemma NamesAvoidStep(exercises: seq<WorkoutExercise>, name: string)
    requires exercises != []
    ensures var init := exercises[..|exercises| - 1];
      (forall j :: 0 <= j < |exercises| ==> name != exercises[j].name) <==>
        (forall j :: 0 <= j < |init| ==> name != init[j].name) && name != exercises[|exercises| - 1].name
  {
    var init := exercises[..|exercises| - 1];
    assert forall j :: 0 <= j < |init| ==> init[j] == exercises[j];
  }

  /** Looking a name up finds `l` exactly when it is `l`'s display name. */
  lemma LiftOfNameMatches(l: Lift, name: string)
    ensures LiftOfName(name) == Some(l) <==> ExerciseName(l) == name
  {
    if ExerciseName(l) == name {
      LiftOfNameInvertsExerciseName(l);
    }
  }

  /** The converted weights of the workout's accessory entries with the id, in order. */
  function AccessoryMatches(accessories: seq<AccessoryEntry>, id: string, from: Unit, to: Unit): (r: seq<real>)
    ensures |r| <= |accessories|
    decreases |accessories|
  {
    if accessories == [] then []
    else
      var last := accessories[|accessories| - 1];
      AccessoryMatches(accessories[..|accessories| - 1], id, from, to) +
        (if last.id == id then [Units.ConvertWeight(last.weight, from, to)] else [])
  }

  lemma AccessoryMatchesStep(accessories: seq<AccessoryEntry>, j: nat, from: Unit, to: Unit)
    requires j < |accessories|
    ensures forall id ::
              AccessoryMatches(accessories[..j + 1], id, from, to) ==
              AccessoryMatches(accessories[..j], id, from, to) + (if accessories[j].id == id then [Units.ConvertWeight(accessories[j].weight, from, to)] else [])
  {
    assert accessories[..j + 1][..j] == accessories[..j];
  }

  /** An accessory has no point of its own in a workout exactly when no entry carries its id. */
  lemma {:induction false} NoAccessoryMatches(accessories: seq<AccessoryEntry>, id: string, from: Unit, to: Unit)
    ensures AccessoryMatches(accessories, id, from, to) == [] <==> forall j :: 0 <= j < |accessories| ==> accessories[j].id != id
    decreases |accessories|
  {
    if accessories != [] {
      var init := accessories[..|accessories| - 1];
      NoAccessoryMatches(init, id, from, to);
      assert forall j :: 0 <= j < |init| ==> init[j] == accessories[j];
    }
  }

  /** What one workout appends to a series: its matching weights, or a single 0. */
  function Points(w: WorkoutHistoryItem, k: SeriesKey, current: Unit): (r: seq<real>)
    ensures |r| >= 1
  {
    match k
    case LiftSeries(l) =>
      var m := LiftMatches(w.exercises, l, WorkoutUnit(w), current);
      if m == [] then [0.0] else m
    case BodyweightSeries =>
      if w.bodyweight.Some? && w.bodyweight.value != 0.0 then [Units.ConvertWeight(w.bodyweight.value, WorkoutUnit(w), current)]
      else [0.0]
    case AccessorySeries(id) =>
      var m := AccessoryMatches(AccessoriesOf(w), id, WorkoutUnit(w), current);
      if m == [] then [0.0] else m
  }

  /** A series over a newest-first history, built oldest workout first. */
  function Series(history: seq<WorkoutHistoryItem>, k: SeriesKey, current: Unit): seq<real> {
    if history == [] then [] else Series(history[1..], k, current) + Points(history[0], k, current)
  }

  /** The labels over a newest-first history, oldest workout first. */
  function Labels(history: seq<WorkoutHistoryItem>): seq<string> {
    if history == [] then [] else Labels(history[1..]) + [ShortDate(history[0].date)]
  }

  /** The keys `exerciseData` ends up with. */
  ghost predicate ChartKey(k: SeriesKey, history: seq<WorkoutHistoryItem>) {
    k.AccessorySeries? ==> AccessoryInHistory(history, k.id)
  }

  function LiftIndex(l: Lift): (i: nat)
    ensures i < |AllLifts| && AllLifts[i] == l
  {
    match l
    case Squat => 0
    case Bench => 1
    case Row => 2
    case Ohp => 3
    case Deadlift => 4
  }

  /** The lift series of `data'` extend those of `data` by the matches of `exercises`. */
  ghost predicate LiftsExtended(data': map<SeriesKey, seq<real>>, data: map<SeriesKey, seq<real>>,
                                exercises: seq<WorkoutExercise>, unit: Unit, current: Unit)
    requires forall l :: LiftSeries(l) in data && LiftSeries(l) in data'
  {
    forall l :: data'[LiftSeries(l)] == data[LiftSeries(l)] + LiftMatches(exercises, l, unit, current)
  }

  ghost predicate LiftsRecorded(present: set<Lift>, exercises: seq<WorkoutExercise>, unit: Unit, current: Unit) {
    forall l :: l in present <==> LiftMatches(exercises, l, unit, current) != []
  }

  lemma LiftEntryStep(data': map<SeriesKey, seq<real>>, data: map<SeriesKey, seq<real>>, present: set<Lift>,
                      exercises: seq<WorkoutExercise>, j: nat, unit: Unit, current: Unit)
    requires j < |exercises|
    requires forall l :: LiftSeries(l) in data && LiftSeries(l) in data'
    requires LiftsExtended(data', data, exercises[..j], unit, current)
    requires LiftsRecorded(present, exercises[..j], unit, current)
    ensures match LiftOfName(exercises[j].name)
      case Some(l) =>
        LiftsExtended(data'[LiftSeries(l) := data'[LiftSeries(l)] + [Units.ConvertWeight(exercises[j].weight, unit, current)]],
                      data, exercises[..j + 1], unit, current) &&
        LiftsRecorded(present + {l}, exercises[..j + 1], unit, current)
      case None =>
        LiftsExtended(data', data, exercises[..j + 1], unit, current) &&
        LiftsRecorded(present, exercises[..j + 1], unit, current)
  {
    match LiftOfName(exercises[j].name)
    case Some(l) => LiftEntryFound(data', data, present, exercises, j, unit, current, l);
    case None => LiftEntrySkipped(data', data, present, exercises, j, unit, current);
  }

  lemma LiftEntryFound(data': map<SeriesKey, seq<real>>, data: map<SeriesKey, seq<real>>, present: set<Lift>,
                       exercises: seq<WorkoutExercise>, j: nat, unit: Unit, current: Unit, l: Lift)
    requires j < |exercises| && LiftOfName(exercises[j].name) == Some(l)
    requires forall l :: LiftSeries(l) in data && LiftSeries(l) in data'
    requires LiftsExtended(data', data, exercises[..j], unit, current)
    requires LiftsRecorded(present, exercises[..j], unit, current)
    ensures LiftsExtended(data'[LiftSeries(l) := data'[LiftSeries(l)] + [Units.ConvertWeight(exercises[j].weight, unit, current)]],
                          data, exercises[..j + 1], unit, current)
    ensures LiftsRecorded(present + {l}, exercises[..j + 1], unit, current)
  {
    LiftMatchesStep(exercises, j, unit, current);
    var x := Units.ConvertWeight(exercises[j].weight, unit, current);
    var data'' := data'[LiftSeries(l) := data'[LiftSeries(l)] + [x]];
    forall m ensures data''[LiftSeries(m)] == data[LiftSeries(m)] + LiftMatches(exercises[..j + 1], m, unit, current) {
      if m != l {
        assert data''[LiftSeries(m)] == data'[LiftSeries(m)];
      }
    }
    forall m ensures m in present + {l} <==> LiftMatches(exercises[..j + 1], m, unit, current) != [] {
      if m != l {
        assert LiftMatches(exercises[..j + 1], m, unit, current) == LiftMatches(exercises[..j], m, unit, current);
      }
    }
  }

  lemma LiftEntrySkipped(data': map<SeriesKey, seq<real>>, data: map<SeriesKey, seq<real>>, present: set<Lift>,
                         exercises: seq<WorkoutExercise>, j: nat, unit: Unit, current: Unit)
    requires j < |exercises| && LiftOfName(exercises[j].name) == None
    requires forall l :: LiftSeries(l) in data && LiftSeries(l) in data'
    requires LiftsExtended(data', data, exercises[..j], unit, current)
    requires LiftsRecorded(present, exercises[..j], unit, current)
    ensures LiftsExtended(data', data, exercises[..j + 1], unit, current)
    ensures LiftsRecorded(present, exercises[..j + 1], unit, current)
  {
    LiftMatchesStep(exercises, j, unit, current);
    assert forall m :: LiftMatches(exercises[..j + 1], m, unit, current) == LiftMatches(exercises[..j], m, unit, current);
  }

  /** The `workout.exercises.forEach`: pushes each lift entry's weight and records the lift. */
  method PushLiftEntries(data: map<SeriesKey, seq<real>>, w: WorkoutHistoryItem, current: Unit)
    returns (data': map<SeriesKey, seq<real>>, present: set<Lift>)
    requires forall l :: LiftSeries(l) in data
    ensures data'.Keys == data.Keys
    ensures forall l :: data'[LiftSeries(l)] == data[LiftSeries(l)] + LiftMatches(w.exercises, l, WorkoutUnit(w), current)
    ensures forall k :: k in data && !k.LiftSeries? ==> data'[k] == data[k]
    ensures forall l :: l in present <==> LiftMatches(w.exercises, l, WorkoutUnit(w), current) != []
  {
    var unit := WorkoutUnit(w);
    present := {};
    data' := data;
    for j := 0 to |w.exercises|
      invariant data'.Keys == data.Keys
      invariant LiftsExtended(data', data, w.exercises[..j], unit, current)
      invariant forall k :: k in data && !k.LiftSeries? ==> data'[k] == data[k]
      invariant LiftsRecorded(present, w.exercises[..j], unit, current)
    {
      var exercise := w.exercises[j];
      LiftEntryStep(data', data, present, w.exercises, j, unit, current);
      match LiftOfName(exercise.name)
      case Some(l) =>
        data' := data'[LiftSeries(l) := data'[LiftSeries(l)] + [Units.ConvertWeight(exercise.weight, unit, current)]];
        present := present + {l};
      case None =>
    }
    assert w.exercises[..|w.exercises|] == w.exercises;
  }

  /** The padding over `Object.keys(exerciseNames)`: a 0 for each lift the workout lacks. */
  method PadLifts(data: map<SeriesKey, seq<real>>, present: set<Lift>)
    returns (data': map<SeriesKey, seq<real>>)
    requires forall l :: LiftSeries(l) in data
    ensures data'.Keys == data.Keys
    ensures forall l :: data'[LiftSeries(l)] == data[LiftSeries(l)] + (if l in present then [] else [0.0])
    ensures forall k :: k in data && !k.LiftSeries? ==> data'[k] == data[k]
  {
    data' := data;
    for t := 0 to |AllLifts|
      invariant data'.Keys == data.Keys
      invariant forall l :: data'[LiftSeries(l)] == data[LiftSeries(l)] + (if LiftIndex(l) < t && l !in present then [0.0] else [])
      invariant forall k :: k in data && !k.LiftSeries? ==> data'[k] == data[k]
    {
      var key := AllLifts[t];
      assert LiftIndex(key) == t;
      if key !in present {
        data' := data'[LiftSeries(key) := data'[LiftSeries(key)] + [0.0]];
      }
    }
  }

  method PushLifts(data: map<SeriesKey, seq<real>>, w: WorkoutHistoryItem, current: Unit)
    returns (data': map<SeriesKey, seq<real>>)
    requires forall l :: LiftSeries(l) in data
    ensures data'.Keys == data.Keys
    ensures forall l :: data'[LiftSeries(l)] == data[LiftSeries(l)] + Points(w, LiftSeries(l), current)
    ensures forall k :: k in data && !k.LiftSeries? ==> data'[k] == data[k]
  {
    var present;
    data', present := PushLiftEntries(data, w, current);
    data' := PadLifts(data', present);
  }

  ghost predicate AccessoriesExtended(data': map<SeriesKey, seq<real>>, data: map<SeriesKey, seq<real>>, ids: seq<string>,
                                     accessories: seq<AccessoryEntry>, unit: Unit, current: Unit)
    requires forall id :: id in ids ==> AccessorySeries(id) in data && AccessorySeries(id) in data'
  {
    forall id :: id in ids ==> data'[AccessorySeries(id)] == data[AccessorySeries(id)] + AccessoryMatches(accessories, id, unit, current)
  }

  ghost predicate AccessoriesRecorded(present: set<string>, accessories: seq<AccessoryEntry>, unit: Unit, current: Unit) {
    forall id :: id in present <==> AccessoryMatches(accessories, id, unit, current) != []
  }

  lemma AccessoryEntryStep(data': map<SeriesKey, seq<real>>, data: map<SeriesKey, seq<real>>, ids: seq<string>, present: set<string>,
                           accessories: seq<AccessoryEntry>, j: nat, unit: Unit, current: Unit)
    requires j < |accessories| && accessories[j].id in ids
    requires forall id :: id in ids ==> AccessorySeries(id) in data && AccessorySeries(id) in data'
    requires AccessoriesExtended(data', data, ids, accessories[..j], unit, current)
    requires AccessoriesRecorded(present, accessories[..j], unit, current)
    ensures var a := accessories[j];
      AccessoriesExtended(data'[AccessorySeries(a.id) := data'[AccessorySeries(a.id)] + [Units.ConvertWeight(a.weight, unit, current)]],
                          data, ids, accessories[..j + 1], unit, current) &&
      AccessoriesRecorded(present + {a.id}, accessories[..j + 1], unit, current)
  {
    AccessoryMatchesStep(accessories, j, unit, current);
    var a := accessories[j];
    var data'' := data'[AccessorySeries(a.id) := data'[AccessorySeries(a.id)] + [Units.ConvertWeight(a.weight, unit, current)]];
    forall id | id in ids
      ensures data''[AccessorySeries(id)] == data[AccessorySeries(id)] + AccessoryMatches(accessories[..j + 1], id, unit, current)
    {
      if id != a.id {
        assert data''[AccessorySeries(id)] == data'[AccessorySeries(id)];
      }
    }
    forall id ensures id in present + {a.id} <==> AccessoryMatches(accessories[..j + 1], id, unit, current) != [] {
      if id != a.id {
        assert AccessoryMatches(accessories[..j + 1], id, unit, current) == AccessoryMatches(accessories[..j], id, unit, current);
      }
    }
  }

  /** The `workout.accessories.forEach`: pushes each entry's weight and records its id. */
  method PushAccessoryEntries(data: map<SeriesKey, seq<real>>, w: WorkoutHistoryItem, current: Unit, ids: seq<string>)
    returns (data': map<SeriesKey, seq<real>>, present: set<string>)
    requires forall id :: id in ids ==> AccessorySeries(id) in data
    requires forall j :: 0 <= j < |AccessoriesOf(w)| ==> AccessoriesOf(w)[j].id in ids
    ensures data'.Keys == data.Keys
    ensures forall id :: id in ids ==>
      data'[AccessorySeries(id)] == data[AccessorySeries(id)] + AccessoryMatches(AccessoriesOf(w), id, WorkoutUnit(w), current)
    ensures forall k :: k in data && !k.AccessorySeries? ==> data'[k] == data[k]
    ensures forall id :: id in present <==> AccessoryMatches(AccessoriesOf(w), id, WorkoutUnit(w), current) != []
  {
    var unit := WorkoutUnit(w);
    var accessories := AccessoriesOf(w);
    present := {};
    data' := data;
    for j := 0 to |accessories|
      invariant data'.Keys == data.Keys
      invariant AccessoriesExtended(data', data, ids, accessories[..j], unit, current)
      invariant forall k :: k in data && !k.AccessorySeries? ==> data'[k] == data[k]
      invariant AccessoriesRecorded(present, accessories[..j], unit, current)
    {
      var acc := accessories[j];
      AccessoryEntryStep(data', data, ids, present, accessories, j, unit, current);
      data' := data'[AccessorySeries(acc.id) := data'[AccessorySeries(acc.id)] + [Units.ConvertWeight(acc.weight, unit, current)]];
      present := present + {acc.id};
    }
    assert accessories[..|accessories|] == accessories;
  }

  /** The padding over the history's accessory ids: a 0 for each id the workout lacks. */
  method PadAccessories(data: map<SeriesKey, seq<real>>, present: set<string>, ids: seq<string>)
    returns (data': map<SeriesKey, seq<real>>)
    requires NoDuplicates(ids)
    requires forall id :: id in ids ==> AccessorySeries(id) in data
    ensures data'.Keys == data.Keys
    ensures forall id :: id in ids ==> data'[AccessorySeries(id)] == data[AccessorySeries(id)] + (if id in present then [] else [0.0])
    ensures forall k :: k in data && !k.AccessorySeries? ==> data'[k] == data[k]
  {
    data' := data;
    for t := 0 to |ids|
      invariant data'.Keys == data.Keys
      invariant forall i :: 0 <= i < |ids| ==>
        data'[AccessorySeries(ids[i])] == data[AccessorySeries(ids[i])] + (if i < t && ids[i] !in present then [0.0] else [])
      invariant forall k :: k in data && !k.AccessorySeries? ==> data'[k] == data[k]
    {
      var id := ids[t];
      if id !in present {
        data' := data'[AccessorySeries(id) := data'[AccessorySeries(id)] + [0.0]];
      }
    }
  }

  method PushAccessories(data: map<SeriesKey, seq<real>>, w: WorkoutHistoryItem, current: Unit, ids: seq<string>)
    returns (data': map<SeriesKey, seq<real>>)
    requires NoDuplicates(ids)
    requires forall id :: id in ids ==> AccessorySeries(id) in data
    requires forall j :: 0 <= j < |AccessoriesOf(w)| ==> AccessoriesOf(w)[j].id in ids
    ensures data'.Keys == data.Keys
    ensures forall id :: id in ids ==> data'[AccessorySeries(id)] == data[AccessorySeries(id)] + Points(w, AccessorySeries(id), current)
    ensures forall k :: k in data && !k.AccessorySeries? ==> data'[k] == data[k]
  {
    var present;
    data', present := PushAccessoryEntries(data, w, current, ids);
    data' := PadAccessories(data', present, ids);
  }

  /** The keys of `exerciseData` for the accessory ids `ids`. */
  ghost predicate KeysFor(data: map<SeriesKey, seq<real>>, ids: seq<string>) {
    forall k :: k in data <==> !k.AccessorySeries? || k.id in ids
  }

  /** The series of `data` are those of a (suffix of the) history. */
  ghost predicate SeriesOf(data: map<SeriesKey, seq<real>>, history: seq<WorkoutHistoryItem>, current: Unit) {
    forall k :: k in data ==> data[k] == Series(history, k, current)
  }

  /** The initial `exerciseData`: an empty array for every lift, bodyweight and accessory id. */
  method EmptySeries(ids: seq<string>) returns (data: map<SeriesKey, seq<real>>)
    ensures KeysFor(data, ids)
    ensures forall k :: k in data ==> data[k] == []
  {
    data := map[LiftSeries(Squat) := [], LiftSeries(Bench) := [], LiftSeries(Row) := [],
                LiftSeries(Ohp) := [], LiftSeries(Deadlift) := [], BodyweightSeries := []];
    forall l: Lift ensures LiftSeries(l) in data {
      match l
      case Squat =>
      case Bench =>
      case Row =>
      case Ohp =>
      case Deadlift =>
    }
    for t := 0 to |ids|
      invariant forall k :: k in data <==> !k.AccessorySeries? || k.id in ids[..t]
      invariant forall k :: k in data ==> data[k] == []
    {
      assert ids[..t + 1] == ids[..t] + [ids[t]];
      data := data[AccessorySeries(ids[t]) := []];
    }
    assert ids[..|ids|] == ids;
  }

  /** Everything one workout of the `reversedHistory.forEach` appends. */
  method PushWorkout(data: map<SeriesKey, seq<real>>, w: WorkoutHistoryItem, current: Unit, ids: seq<string>)
    returns (data': map<SeriesKey, seq<real>>)
    requires NoDuplicates(ids)
    requires KeysFor(data, ids)
    requires forall j :: 0 <= j < |AccessoriesOf(w)| ==> AccessoriesOf(w)[j].id in ids
    ensures KeysFor(data', ids)
    ensures forall k :: k in data ==> data'[k] == data[k] + Points(w, k, current)
  {
    data' := PushBodyweight(data, w, current);
    data' := PushLifts(data', w, current);
    data' := PushAccessories(data', w, current, ids);
  }

  lemma SeriesStep(data: map<SeriesKey, seq<real>>, data': map<SeriesKey, seq<real>>, history: seq<WorkoutHistoryItem>, n: nat, current: Unit)
    requires n < |history|
    requires data'.Keys == data.Keys
    requires SeriesOf(data, history[n + 1..], current)
    requires forall k :: k in data ==> data'[k] == data[k] + Points(history[n], k, current)
    ensures SeriesOf(data', history[n..], current)
  {
    assert history[n..][1..] == history[n + 1..];
  }

  lemma IdsInHistory(history: seq<WorkoutHistoryItem>, n: nat, ids: seq<string>)
    requires n < |history|
    requires forall id :: id in ids <==> AccessoryInHistory(history, id)
    ensures forall j :: 0 <= j < |AccessoriesOf(history[n])| ==> AccessoriesOf(history[n])[j].id in ids
  {
    forall j | 0 <= j < |AccessoriesOf(history[n])| ensures AccessoriesOf(history[n])[j].id in ids {
      assert AccessoryInHistory(history, AccessoriesOf(history[n])[j].id);
    }
  }

  /** `chartData`: the labels and one series per key, built over the reversed history. */
  method BuildChartData(history: seq<WorkoutHistoryItem>, current: Unit)
    returns (labels: seq<string>, exerciseData: map<SeriesKey, seq<real>>)
    ensures labels == Labels(history)
    ensures forall k :: k in exerciseData <==> ChartKey(k, history)
    ensures forall k :: k in exerciseData ==> exerciseData[k] == Series(history, k, current)
  {
    var ids := AccessoryIdsInHistory(history);
    exerciseData := EmptySeries(ids);
    labels := [];
    var n := |history|;
    assert history[n..] == [];
    while n > 0
      invariant 0 <= n <= |history|
      invariant labels == Labels(history[n..])
      invariant KeysFor(exerciseData, ids)
      invariant SeriesOf(exerciseData, history[n..], current)
    {
      n := n - 1;
      var workout := history[n];
      assert history[n..][1..] == history[n + 1..];
      labels := labels + [ShortDate(workout.date)];
      IdsInHistory(history, n, ids);
      ghost var before := exerciseData;
      exerciseData := PushWorkout(exerciseData, workout, current, ids);
      SeriesStep(before, exerciseData, history, n, current);
    }
    assert history[0..] == history;
  }

  /** The `if (workout.bodyweight)` push. */
  method PushBodyweight(data: map<SeriesKey, seq<real>>, w: WorkoutHistoryItem, current: Unit)
    returns (data': map<SeriesKey, seq<real>>)
    requires BodyweightSeries in data
    ensures data'.Keys == data.Keys
    ensures data'[BodyweightSeries] == data[BodyweightSeries] + Points(w, BodyweightSeries, current)
    ensures forall k :: k in data && k != BodyweightSeries ==> data'[k] == data[k]
  {
    if w.bodyweight.Some? && w.bodyweight.value != 0.0 {
      data' := data[BodyweightSeries := data[BodyweightSeries] + [Units.ConvertWeight(w.bodyweight.value, WorkoutUnit(w), current)]];
    } else {
      data' := data[BodyweightSeries := data[BodyweightSeries] + [0.0]];
    }
  }

  // ---------------------------------------------------------------- alignment

  /** There is one label per workout, oldest first: label `i` is that of `history[|history| - 1 - i]`. */
  lemma {:induction false} LabelsAlign(history: seq<WorkoutHistoryItem>)
    ensures |Labels(history)| == |history|
    ensures forall i :: 0 <= i < |history| ==> Labels(history)[i] == ShortDate(history[|history| - 1 - i].date)
  {
    if history != [] {
      LabelsAlign(history[1..]);
    }
  }

  /**
   * When every workout contributes one point to a series, the series lines up with the
   * labels: point `i` belongs to `history[|history| - 1 - i]`.
   */
  lemma {:induction false} SeriesAlign(history: seq<WorkoutHistoryItem>, k: SeriesKey, current: Unit)
    requires forall i :: 0 <= i < |history| ==> |Points(history[i], k, current)| == 1
    ensures |Series(history, k, current)| == |history|
    ensures forall i :: 0 <= i < |history| ==> Series(history, k, current)[i] == Points(history[|history| - 1 - i], k, current)[0]
  {
    if history != [] {
      TailPointsSingle(history, k, current);
      SeriesAlign(history[1..], k, current);
      SeriesAlignStep(history, k, current);
    }
  }

  /** Every workout of the tail also gives one point. */
  lemma TailPointsSingle(history: seq<WorkoutHistoryItem>, k: SeriesKey, current: Unit)
    requires history != []
    requires forall i :: 0 <= i < |history| ==> |Points(history[i], k, current)| == 1
    ensures forall i :: 0 <= i < |history| - 1 ==> |Points(history[1..][i], k, current)| == 1
  {
    assert forall i :: 0 <= i < |history| - 1 ==> history[1..][i] == history[i + 1];
  }

  /** Prepending the oldest workout's single point lines the series of the tail up with the whole history. */
  lemma SeriesAlignStep(history: seq<WorkoutHistoryItem>, k: SeriesKey, current: Unit)
    requires history != [] && |Points(history[0], k, current)| == 1
    requires var rest := history[1..];
      |Series(rest, k, current)| == |rest| &&
      forall i :: 0 <= i < |rest| ==> Series(rest, k, current)[i] == Points(rest[|rest| - 1 - i], k, current)[0]
    ensures |Series(history, k, current)| == |history|
    ensures forall i :: 0 <= i < |history| ==> Series(history, k, current)[i] == Points(history[|history| - 1 - i], k, current)[0]
  {
    var rest := history[1..];
    var s, p := Series(rest, k, current), Points(history[0], k, current);
    assert Series(history, k, current) == s + p;
    forall i | 0 <= i < |rest| ensures (s + p)[i] == Points(history[|history| - 1 - i], k, current)[0] {
      assert (s + p)[i] == s[i];
      assert rest[|rest| - 1 - i] == history[|history| - 1 - i];
    }
    assert (s + p)[|rest|] == p[0];
  }

  /** A workout naming a lift at most once gives that lift one point: its converted weight, or 0. */
  lemma {:induction false} OneLiftPoint(exercises: seq<WorkoutExercise>, l: Lift, from: Unit, to: Unit)
    requires forall i, j :: 0 <= i < j < |exercises| && exercises[i].name == ExerciseName(l) ==> exercises[j].name != ExerciseName(l)
    ensures |LiftMatches(exercises, l, from, to)| <= 1
    ensures forall i :: 0 <= i < |exercises| && exercises[i].name == ExerciseName(l) ==>
      LiftMatches(exercises, l, from, to) == [Units.ConvertWeight(exercises[i].weight, from, to)]
    decreases |exercises|
  {
    if exercises != [] {
      var init := exercises[..|exercises| - 1];
      var last := exercises[|exercises| - 1];
      assert forall i :: 0 <= i < |init| ==> init[i] == exercises[i];
      OneLiftPoint(init, l, from, to);
      LiftOfNameInvertsExerciseName(l);
      if last.name == ExerciseName(l) {
        NoLiftMatches(init, l, from, to);
      }
    }
  }

  /** A workout listing an accessory at most once gives it one point: its converted weight, or 0. */
  lemma {:induction false} OneAccessoryPoint(accessories: seq<AccessoryEntry>, id: string, from: Unit, to: Unit)
    requires forall i, j :: 0 <= i < j < |accessories| && accessories[i].id == id ==> accessories[j].id != id
    ensures |AccessoryMatches(accessories, id, from, to)| <= 1
    ensures forall i :: 0 <= i < |accessories| && accessories[i].id == id ==>
      AccessoryMatches(accessories, id, from, to) == [Units.ConvertWeight(accessories[i].weight, from, to)]
    decreases |accessories|
  {
    if accessories != [] {
      var init := accessories[..|accessories| - 1];
      var last := accessories[|accessories| - 1];
      assert forall i :: 0 <= i < |init| ==> init[i] == accessories[i];
      OneAccessoryPoint(init, id, from, to);
      if last.id == id {
        NoAccessoryMatches(init, id, from, to);
      }
    }
  }

  // ---------------------------------------------------------------- filters

  /** `.filter(val => val > 0)`. */
  function Positives(s: seq<real>): (r: seq<real>)
    ensures |r| <= |s|
    ensures forall x :: x in r ==> x > 0.0 && x in s
    ensures forall x :: x in s && x > 0.0 ==> x in r
  {
    if s == [] then []
    else (if s[0] > 0.0 then [s[0]] else []) + Positives(s[1..])
  }

  /** `labels.filter((_, i) => series[i] > 0)`; past the series' end the test is false. */
  function LabelsWherePositive(labels: seq<string>, series: seq<real>): (r: seq<string>)
    ensures |r| <= |labels|
  {
    if labels == [] then []
    else
      (if series != [] && series[0] > 0.0 then [labels[0]] else []) +
      LabelsWherePositive(labels[1..], if series == [] then [] else series[1..])
  }

  /** The (label, value) pairs of the workouts whose value is positive. */
  function PositivePairs(labels: seq<string>, series: seq<real>): seq<(string, real)>
    requires |labels| == |series|
  {
    if labels == [] then []
    else (if series[0] > 0.0 then [(labels[0], series[0])] else []) + PositivePairs(labels[1..], series[1..])
  }

  /** `(exerciseData[key] || [])`. */
  function SeriesOrEmpty(data: map<SeriesKey, seq<real>>, key: SeriesKey): seq<real> {
    if key in data then data[key] else []
  }

  function SelectedData(data: map<SeriesKey, seq<real>>, key: SeriesKey): seq<real> {
    Positives(SeriesOrEmpty(data, key))
  }

  function FilteredLabels(labels: seq<string>, data: map<SeriesKey, seq<real>>, key: SeriesKey): seq<string> {
    LabelsWherePositive(labels, SeriesOrEmpty(data, key))
  }

  /**
   * For a series as long as the labels, the chart's values and its labels keep the same
   * workouts: paired up, they are the label-value pairs with a positive value.
   */
  lemma {:induction false} FilteredLabelsMatchSelectedData(labels: seq<string>, series: seq<real>)
    requires |labels| == |series|
    ensures |LabelsWherePositive(labels, series)| == |Positives(series)| == |PositivePairs(labels, series)|
    ensures forall m :: 0 <= m < |Positives(series)| ==>
      PositivePairs(labels, series)[m] == (LabelsWherePositive(labels, series)[m], Positives(series)[m])
  {
    if labels != [] {
      FilteredLabelsMatchSelectedData(labels[1..], series[1..]);
    }
  }

  /**
   * On the chart's own output, when every workout gives the key one point, the filtered
   * labels and the selected values have the same length and pair up workout by workout.
   */
  lemma ChartFiltersAlign(history: seq<WorkoutHistoryItem>, k: SeriesKey, current: Unit)
    requires forall i :: 0 <= i < |history| ==> |Points(history[i], k, current)| == 1
    ensures var labels := Labels(history);
      var series := Series(history, k, current);
      |labels| == |series| &&
      |LabelsWherePositive(labels, series)| == |Positives(series)| == |PositivePairs(labels, series)| &&
      forall m :: 0 <= m < |Positives(series)| ==>
        PositivePairs(labels, series)[m] == (LabelsWherePositive(labels, series)[m], Positives(series)[m])
  {
    LabelsAlign(history);
    SeriesAlign(history, k, current);
    FilteredLabelsMatchSelectedData(Labels(history), Series(history, k, current));
  }

  /** `s.some(val => val > 0)`. */
  predicate SomePositive(s: seq<real>) {
    exists i :: 0 <= i < |s| && s[i] > 0.0
  }

  /** The lifts of `lifts` whose series has a positive value, in the same order. */
  function LiftsWithData(lifts: seq<Lift>, data: map<SeriesKey, seq<real>>): (r: seq<Lift>)
    ensures forall l :: l in r <==> l in lifts && SomePositive(SeriesOrEmpty(data, LiftSeries(l)))
    ensures NoDuplicates(lifts) ==> NoDuplicates(r)
  {
    if lifts == [] then []
    else
      var rest := LiftsWithData(lifts[1..], data);
      assert forall i :: 1 <= i < |lifts| ==> lifts[i] == lifts[1..][i - 1];
      if SomePositive(SeriesOrEmpty(data, LiftSeries(lifts[0]))) then [lifts[0]] + rest else rest
  }

  /** `mainExercises`: the lifts with some positive value, in `exerciseNames` order. */
  function MainExercises(data: map<SeriesKey, seq<real>>): (r: seq<Lift>)
    ensures forall l :: l in r <==> SomePositive(SeriesOrEmpty(data, LiftSeries(l)))
    ensures NoDuplicates(r)
    ensures forall i, j :: 0 <= i < j < |r| ==> LiftIndex(r[i]) < LiftIndex(r[j])
  {
    AllLiftsListed();
    LiftsInOrder(AllLifts, data);
    LiftsWithData(AllLifts, data)
  }

  lemma AllLiftsListed()
    ensures forall l :: l in AllLifts
    ensures NoDuplicates(AllLifts)
    ensures forall i, j :: 0 <= i < j < |AllLifts| ==> LiftIndex(AllLifts[i]) < LiftIndex(AllLifts[j])
  {
    forall l ensures l in AllLifts {
      assert AllLifts[LiftIndex(l)] == l;
    }
  }

  lemma {:induction false} LiftsInOrder(lifts: seq<Lift>, data: map<SeriesKey, seq<real>>)
    requires forall i, j :: 0 <= i < j < |lifts| ==> LiftIndex(lifts[i]) < LiftIndex(lifts[j])
    ensures forall i, j :: 0 <= i < j < |LiftsWithData(lifts, data)| ==>
      LiftIndex(LiftsWithData(lifts, data)[i]) < LiftIndex(LiftsWithData(lifts, data)[j])
  {
    if lifts != [] {
      var tail := lifts[1..];
      assert forall i, j :: 0 <= i < j < |tail| ==> LiftIndex(tail[i]) < LiftIndex(tail[j]) by {
        assert forall i :: 0 <= i < |tail| ==> tail[i] == lifts[i + 1];
      }
      LiftsInOrder(tail, data);
      var rest := LiftsWithData(tail, data);
      if SomePositive(SeriesOrEmpty(data, LiftSeries(lifts[0]))) {
        HeadPrecedesKept(lifts, data, rest);
        ConsInLiftOrder(lifts[0], rest);
      }
    }
  }

  /** Every lift kept from the tail of an ordered list comes after its head. */
  lemma HeadPrecedesKept(lifts: seq<Lift>, data: map<SeriesKey, seq<real>>, rest: seq<Lift>)
    requires lifts != []
    requires forall i, j :: 0 <= i < j < |lifts| ==> LiftIndex(lifts[i]) < LiftIndex(lifts[j])
    requires rest == LiftsWithData(lifts[1..], data)
    ensures forall j :: 0 <= j < |rest| ==> LiftIndex(lifts[0]) < LiftIndex(rest[j])
  {
    var tail := lifts[1..];
    forall j | 0 <= j < |rest| ensures LiftIndex(lifts[0]) < LiftIndex(rest[j]) {
      assert rest[j] in tail;
      var m :| 0 <= m < |tail| && tail[m] == rest[j];
      assert tail[m] == lifts[m + 1];
    }
  }

  /** A lift placed before an ordered list of later lifts keeps the list ordered. */
  lemma ConsInLiftOrder(x: Lift, rest: seq<Lift>)
    requires forall j :: 0 <= j < |rest| ==> LiftIndex(x) < LiftIndex(rest[j])
    requires forall i, j :: 0 <= i < j < |rest| ==> LiftIndex(rest[i]) < LiftIndex(rest[j])
    ensures var r := [x] + rest;
      forall i, j :: 0 <= i < j < |r| ==> LiftIndex(r[i]) < LiftIndex(r[j])
  {
    var r := [x] + rest;
    forall i, j | 0 <= i < j < |r| ensures LiftIndex(r[i]) < LiftIndex(r[j]) {
      assert r[j] == rest[j - 1];
      if i > 0 {
        assert r[i] == rest[i - 1];
      }
    }
  }

  /** `accessoriesWithData`: the history's accessory ids with some positive value, in order. */
  function AccessoriesWithData(ids: seq<string>, data: map<SeriesKey, seq<real>>): (r: seq<string>)
    ensures forall id :: id in r <==> id in ids && SomePositive(SeriesOrEmpty(data, AccessorySeries(id)))
    ensures |r| <= |ids|
  {
    if ids == [] then []
    else
      var rest := AccessoriesWithData(ids[1..], data);
      assert forall i :: 1 <= i < |ids| ==> ids[i] == ids[1..][i - 1];
      if SomePositive(SeriesOrEmpty(data, AccessorySeries(ids[0]))) then [ids[0]] + rest else rest
  }

  /** `ids` with some elements left out, keeping the others in order. */
  ghost predicate SubsequenceOf<T>(r: seq<T>, s: seq<T>)
    decreases |s|
  {
    if r == [] then true
    else if s == [] then false
    else (r[0] == s[0] && SubsequenceOf(r[1..], s[1..])) || SubsequenceOf(r, s[1..])
  }

  /** `accessoriesWithData` keeps the ids it keeps in the order of the history. */
  lemma {:induction false} AccessoriesWithDataKeepsOrder(ids: seq<string>, data: map<SeriesKey, seq<real>>)
    ensures SubsequenceOf(AccessoriesWithData(ids, data), ids)
  {
    if ids != [] {
      AccessoriesWithDataKeepsOrder(ids[1..], data);
      var rest := AccessoriesWithData(ids[1..], data);
      var r := AccessoriesWithData(ids, data);
      if SomePositive(SeriesOrEmpty(data, AccessorySeries(ids[0]))) {
        assert r[0] == ids[0] && r[1..] == rest;
      } else {
        assert r == rest;
      }
    }
  }

  /** Each id with a positive value is kept as often as the history lists it, and any other id not at all. */
  lemma {:induction false} AccessoriesWithDataCounts(ids: seq<string>, data: map<SeriesKey, seq<real>>)
    ensures forall id :: multiset(AccessoriesWithData(ids, data))[id] ==
                         (if SomePositive(SeriesOrEmpty(data, AccessorySeries(id))) then multiset(ids)[id] else 0)
  {
    if ids != [] {
      AccessoriesWithDataCounts(ids[1..], data);
      var rest := AccessoriesWithData(ids[1..], data);
      var r := AccessoriesWithData(ids, data);
      assert ids == [ids[0]] + ids[1..];
      assert multiset(ids) == multiset{ids[0]} + multiset(ids[1..]);
      if SomePositive(SeriesOrEmpty(data, AccessorySeries(ids[0]))) {
        assert r == [ids[0]] + rest;
        assert multiset(r) == multiset{ids[0]} + multiset(rest);
      } else {
        assert r == rest;
      }
    }
  }

  /** Ids that the history lists once each are kept once each. */
  lemma AccessoriesWithDataNoDuplicates(ids: seq<string>, data: map<SeriesKey, seq<real>>)
    requires NoDuplicates(ids)
    ensures NoDuplicates(AccessoriesWithData(ids, data))
  {
    var r := AccessoriesWithData(ids, data);
    AccessoriesWithDataCounts(ids, data);
    forall x ensures multiset(r)[x] <= 1 {
      NoDuplicatesCount(ids, x);
    }
    AtMostOnceNoDuplicates(r);
  }

  /** A list in which every element occurs at most once has no duplicates. */
  lemma AtMostOnceNoDuplicates<T>(s: seq<T>)
    requires forall x :: multiset(s)[x] <= 1
    ensures NoDuplicates(s)
  {
    forall i, j | 0 <= i < j < |s| ensures s[i] != s[j] {
      var x, y := s[i], s[j];
      assert s == s[..j] + s[j..];
      assert multiset(s)[x] == multiset(s[..j])[x] + multiset(s[j..])[x];
      assert s[..j][i] == x && x in s[..j];
      assert s[j..][0] == y && y in s[j..];
      assert multiset(s[..j])[x] >= 1 && multiset(s[j..])[y] >= 1;
    }
  }

  /** In a list without duplicates every element occurs at most once. */
  lemma {:induction false} NoDuplicatesCount<T>(s: seq<T>, x: T)
    requires NoDuplicates(s)
    ensures multiset(s)[x] <= 1
    decreases |s|
  {
    if s != [] {
      assert s == [s[0]] + s[1..];
      assert NoDuplicates(s[1..]) by {
        assert forall i :: 0 <= i < |s| - 1 ==> s[1..][i] == s[i + 1];
      }
      NoDuplicatesCount(s[1..], x);
      if x == s[0] {
        assert x !in s[1..] by {
          assert forall i :: 0 <= i < |s| - 1 ==> s[1..][i] == s[i + 1];
        }
      }
    }
  }

  // ---------------------------------------------------------------- display names

  /** `workoutHistory.flatMap(w => w.accessories || [])`. */
  function AllAccessoryEntries(history: seq<WorkoutHistoryItem>): (r: seq<AccessoryEntry>)
    ensures forall i, j :: 0 <= i < |history| && 0 <= j < |AccessoriesOf(history[i])| ==> AccessoriesOf(history[i])[j] in r
    ensures forall a :: a in r ==> exists i :: 0 <= i < |history| && a in AccessoriesOf(history[i])
  {
    if history == [] then []
    else
      assert forall i :: 1 <= i < |history| ==> history[i] == history[1..][i - 1];
      AccessoriesOf(history[0]) + AllAccessoryEntries(history[1..])
  }

  /** `.find(acc => acc.id === id)`. */
  function FindAccessory(entries: seq<AccessoryEntry>, id: string): (r: Option<AccessoryEntry>)
    ensures r.Some? ==> r.value in entries && r.value.id == id
    ensures r.None? ==> forall a :: a in entries ==> a.id != id
    ensures r.Some? ==> exists k :: 0 <= k < |entries| && entries[k] == r.value && forall j :: 0 <= j < k ==> entries[j].id != id
  {
    if entries == [] then None
    else if entries[0].id == id then Some(entries[0])
    else
      var r := FindAccessory(entries[1..], id);
      if r.Some? then
        var k :| 0 <= k < |entries| - 1 && entries[1..][k] == r.value && forall j :: 0 <= j < k ==> entries[1..][j].id != id;
        assert forall j :: 0 <= j < k + 1 ==> entries[j].id != id by {
          assert forall j :: 1 <= j < k + 1 ==> entries[j] == entries[1..][j - 1];
        }
        assert entries[k + 1] == r.value;
        r
      else r
  }

  /** The chart's title for a key: fixed names first, then the accessory's recorded name, else the key. */
  function GetExerciseName(key: string, history: seq<WorkoutHistoryItem>): (r: string)
    ensures key == "bodyweight" ==> r == "Bodyweight"
    ensures key != "bodyweight" && LiftOfKey(key).Some? ==> r == ExerciseName(LiftOfKey(key).value)
    ensures key != "bodyweight" && LiftOfKey(key).None? ==>
      var f := FindAccessory(AllAccessoryEntries(history), key);
      (f.Some? && f.value.name != "" ==> r == f.value.name) &&
      (f.None? || f.value.name == "" ==> r == key)
    ensures key != "bodyweight" && LiftOfKey(key).None? && !AccessoryInHistory(history, key) ==> r == key
  {
    if key == "bodyweight" then "Bodyweight"
    else match LiftOfKey(key)
      case Some(l) => ExerciseName(l)
      case None =>
        match FindAccessory(AllAccessoryEntries(history), key)
        case Some(a) => if a.name != "" then a.name else key
        case None => key
  }

  /** The name shown for an accessory key is that of the first logged entry with the id, when it has one. */
  lemma GetExerciseNameOfFirstEntry(key: string, history: seq<WorkoutHistoryItem>, k: nat)
    requires key != "bodyweight" && LiftOfKey(key).None?
    requires var entries := AllAccessoryEntries(history);
      k < |entries| && entries[k].id == key && forall j :: 0 <= j < k ==> entries[j].id != key
    ensures var a := AllAccessoryEntries(history)[k];
      GetExerciseName(key, history) == if a.name != "" then a.name else key
  {
    var entries := AllAccessoryEntries(history);
    var f := FindAccessory(entries, key);
    assert entries[k] in entries;
    var k' :| 0 <= k' < |entries| && entries[k'] == f.value && forall j :: 0 <= j < k' ==> entries[j].id != key;
    assert k' == k;
  }
}
