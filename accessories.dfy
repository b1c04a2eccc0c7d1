/**
 * The accessory configuration list and its copy-and-update operations
 * (app/accessories.tsx), over the catalog of module Catalog.
 */
module Accessories {
  import opened Wrappers
  import opened Program
  import opened Catalog
  import Units

  /** A catalog entry together with the user's settings for it. */
  datatype UserAccessory = UserAccessory(
    id: string,
    name: string,
    category: Category,
    defaultSets: int,
    defaultReps: int,
    defaultRest: int,
    defaultWeight: real,
    enabled: bool,
    sets: int,
    reps: int,
    rest: int,
    weight: real,
    workouts: seq<WorkoutType>)

  ghost predicate UniqueIds(list: seq<UserAccessory>) {
    forall i, j :: 0 <= i < j < |list| ==> list[i].id != list[j].id
  }

  /** What the source's input handlers keep: positive sets and reps, non-negative rest and weight. */
  ghost predicate SaneSettings(list: seq<UserAccessory>) {
    forall i :: 0 <= i < |list| ==>
      list[i].sets > 0 && list[i].reps > 0 && list[i].rest >= 0 && list[i].weight >= 0.0
  }

  // ---------------------------------------------------------------- lookups

  /** `accessories.some(acc => acc.id === id && acc.enabled)`. */
  function IsExerciseEnabled(list: seq<UserAccessory>, id: string): (r: bool)
    ensures r <==> exists i :: 0 <= i < |list| && list[i].id == id && list[i].enabled
  {
    if list == [] then false
    else
      assert forall i :: 1 <= i < |list| ==> list[i] == list[1..][i - 1];
      (list[0].id == id && list[0].enabled) || IsExerciseEnabled(list[1..], id)
  }

  /** `findIndex`: the first entry with the id, or -1. */
  function FindIndex(list: seq<UserAccessory>, id: string): (k: int)
    ensures -1 <= k < |list|
    ensures k >= 0 ==> list[k].id == id && forall j :: 0 <= j < k ==> list[j].id != id
    ensures k == -1 <==> forall j :: 0 <= j < |list| ==> list[j].id != id
  {
    if list == [] then -1
    else if list[0].id == id then 0
    else
      var k := FindIndex(list[1..], id);
      assert forall j :: 1 <= j < |list| ==> list[j] == list[1..][j - 1];
      if k < 0 then -1 else k + 1
  }

  /** `ACCESSORY_EXERCISES.find(ex => ex.id === id)`, as an index. */
  function CatalogIndex(catalog: seq<AccessoryExercise>, id: string): (k: int)
    ensures -1 <= k < |catalog|
    ensures k >= 0 ==> catalog[k].id == id && forall j :: 0 <= j < k ==> catalog[j].id != id
    ensures k == -1 <==> forall j :: 0 <= j < |catalog| ==> catalog[j].id != id
  {
    Units.IndexOf(IdsOf(catalog), id)
  }

  /** The ids of the catalog entries, in order. */
  function IdsOf(catalog: seq<AccessoryExercise>): (ids: seq<string>)
    ensures |ids| == |catalog| && forall j :: 0 <= j < |catalog| ==> ids[j] == catalog[j].id
  {
    seq(|catalog|, j requires 0 <= j < |catalog| => catalog[j].id)
  }

  /** `find`: the first entry with the id. */
  function GetExerciseConfig(list: seq<UserAccessory>, id: string): (r: Option<UserAccessory>)
    ensures r.None? <==> forall j :: 0 <= j < |list| ==> list[j].id != id
    ensures r.Some? ==> r.value.id == id && r.value in list
    ensures r.Some? ==> r.value == list[FindIndex(list, id)]
  {
    var k := FindIndex(list, id);
    if k < 0 then None else Some(list[k])
  }

  // ---------------------------------------------------------------- toggleExercise

  /** The entry added when an exercise is first switched on: enabled, defaults, both workouts. */
  function NewAccessory(ex: AccessoryExercise): (r: UserAccessory)
    ensures r.id == ex.id && r.name == ex.name && r.category == ex.category
    ensures r.enabled && r.workouts == [A, B]
    ensures r.sets == ex.defaultSets && r.reps == ex.defaultReps
    ensures r.rest == ex.defaultRest && r.weight == ex.defaultWeight
  {
    UserAccessory(ex.id, ex.name, ex.category, ex.defaultSets, ex.defaultReps, ex.defaultRest,
                  ex.defaultWeight, true, ex.defaultSets, ex.defaultReps, ex.defaultRest,
                  ex.defaultWeight, [A, B])
  }

  function ToggleExercise(catalog: seq<AccessoryExercise>, list: seq<UserAccessory>, id: string): (r: seq<UserAccessory>)
    ensures CatalogIndex(catalog, id) < 0 ==> r == list
    ensures CatalogIndex(catalog, id) >= 0 && FindIndex(list, id) >= 0 ==>
      |r| == |list| &&
      (forall j :: 0 <= j < |list| && j != FindIndex(list, id) ==> r[j] == list[j]) &&
      r[FindIndex(list, id)] == list[FindIndex(list, id)].(enabled := !list[FindIndex(list, id)].enabled)
    ensures CatalogIndex(catalog, id) >= 0 && FindIndex(list, id) < 0 ==>
      r == list + [NewAccessory(catalog[CatalogIndex(catalog, id)])]
  {
    var c := CatalogIndex(catalog, id);
    if c < 0 then list
    else
      var k := FindIndex(list, id);
      if k >= 0 then list[k := list[k].(enabled := !list[k].enabled)]
      else list + [NewAccessory(catalog[c])]
  }

  // ---------------------------------------------------------------- updateExerciseConfig

  /** The fields the screen edits (`[field]: value`). */
  datatype FieldUpdate =
    | SetSets(sets: int)
    | SetReps(reps: int)
    | SetRest(rest: int)
    | SetWeight(weight: real)
    | SetWorkouts(workouts: seq<WorkoutType>)

  function ApplyUpdate(e: UserAccessory, f: FieldUpdate): (r: UserAccessory)
    ensures r.id == e.id && r.name == e.name && r.category == e.category && r.enabled == e.enabled
    ensures r.defaultSets == e.defaultSets && r.defaultReps == e.defaultReps
    ensures r.defaultRest == e.defaultRest && r.defaultWeight == e.defaultWeight
    ensures r.sets == (if f.SetSets? then f.sets else e.sets)
    ensures r.reps == (if f.SetReps? then f.reps else e.reps)
    ensures r.rest == (if f.SetRest? then f.rest else e.rest)
    ensures r.weight == (if f.SetWeight? then f.weight else e.weight)
    ensures r.workouts == (if f.SetWorkouts? then f.workouts else e.workouts)
  {
    match f
    case SetSets(n) => e.(sets := n)
    case SetReps(n) => e.(reps := n)
    case SetRest(n) => e.(rest := n)
    case SetWeight(w) => e.(weight := w)
    case SetWorkouts(ws) => e.(workouts := ws)
  }

  /** Changes the named field of the first entry with the id; no entry, no change. */
  function UpdateExerciseConfig(list: seq<UserAccessory>, id: string, f: FieldUpdate): (r: seq<UserAccessory>)
    ensures |r| == |list|
    ensures FindIndex(list, id) < 0 ==> r == list
    ensures FindIndex(list, id) >= 0 ==>
      r[FindIndex(list, id)] == ApplyUpdate(list[FindIndex(list, id)], f) &&
      forall j :: 0 <= j < |list| && j != FindIndex(list, id) ==> r[j] == list[j]
  {
    var k := FindIndex(list, id);
    if k < 0 then list else list[k := ApplyUpdate(list[k], f)]
  }

  // ---------------------------------------------------------------- toggleWorkout

  /** `filter(x => x !== w)`. */
  function RemoveAll(ws: seq<WorkoutType>, w: WorkoutType): (r: seq<WorkoutType>)
    ensures w !in r
    ensures forall x :: x != w ==> (x in r <==> x in ws)
    ensures w !in ws ==> r == ws
  {
    if ws == [] then []
    else if ws[0] == w then RemoveAll(ws[1..], w)
    else
      assert ws == [ws[0]] + ws[1..];
      [ws[0]] + RemoveAll(ws[1..], w)
  }

  /** Removes `w` if the entry trains in it, otherwise appends it. */
  function ToggleMembership(ws: seq<WorkoutType>, w: WorkoutType): (r: seq<WorkoutType>)
    ensures w in r <==> w !in ws
    ensures forall x :: x != w ==> (x in r <==> x in ws)
  {
    if w in ws then RemoveAll(ws, w) else ws + [w]
  }

  function ToggleWorkout(list: seq<UserAccessory>, id: string, w: WorkoutType): (r: seq<UserAccessory>)
    ensures |r| == |list|
    ensures FindIndex(list, id) < 0 ==> r == list
    ensures FindIndex(list, id) >= 0 ==>
      var k := FindIndex(list, id);
      r[k] == list[k].(workouts := ToggleMembership(list[k].workouts, w)) &&
      forall j :: 0 <= j < |list| && j != k ==> r[j] == list[j]
  {
    match GetExerciseConfig(list, id)
    case None => list
    case Some(config) => UpdateExerciseConfig(list, id, SetWorkouts(ToggleMembership(config.workouts, w)))
  }

  // ---------------------------------------------------------------- groupedExercises

  /** The catalog entries of one category, in catalog order. */
  function InCategory(catalog: seq<AccessoryExercise>, c: Category): (r: seq<AccessoryExercise>)
    ensures forall e :: e in r ==> e in catalog && e.category == c
    ensures forall i :: 0 <= i < |catalog| && catalog[i].category == c ==> catalog[i] in r
  {
    if catalog == [] then []
    else
      var last := catalog[|catalog| - 1];
      var init := catalog[..|catalog| - 1];
      assert forall i :: 0 <= i < |catalog| - 1 ==> catalog[i] == init[i];
      InCategory(init, c) + (if last.category == c then [last] else [])
  }

  ghost predicate HasCategory(catalog: seq<AccessoryExercise>, c: Category) {
    exists i :: 0 <= i < |catalog| && catalog[i].category == c
  }

  lemma InCategoryStep(s: seq<AccessoryExercise>, e: AccessoryExercise)
    ensures forall c :: InCategory(s + [e], c) == InCategory(s, c) + (if e.category == c then [e] else [])
    ensures forall c :: HasCategory(s + [e], c) <==> HasCategory(s, c) || e.category == c
  {
    assert (s + [e])[..|s|] == s;
    forall c | HasCategory(s, c) ensures HasCategory(s + [e], c) {
      var i :| 0 <= i < |s| && s[i].category == c;
      assert (s + [e])[i] == s[i];
    }
    forall c | HasCategory(s + [e], c) && e.category != c ensures HasCategory(s, c) {
      var i :| 0 <= i < |s| + 1 && (s + [e])[i].category == c;
      assert s[i] == (s + [e])[i];
    }
    assert (s + [e])[|s|] == e;
  }

  lemma NonEmptyCategoryIsPresent(s: seq<AccessoryExercise>, c: Category)
    requires InCategory(s, c) != []
    ensures HasCategory(s, c)
  {
    var e := InCategory(s, c)[0];
    var i :| 0 <= i < |s| && s[i] == e;
  }

  /** The accumulator of the grouping `reduce` after the entries `s`. */
  ghost predicate Grouped(s: seq<AccessoryExercise>, order: seq<Category>, groups: map<Category, seq<AccessoryExercise>>) {
    KeysPresent(s, groups) && GroupsFiltered(s, groups) && OrderListsKeys(order, groups)
  }

  ghost predicate KeysPresent(s: seq<AccessoryExercise>, groups: map<Category, seq<AccessoryExercise>>) {
    forall c :: c in groups <==> HasCategory(s, c)
  }

  ghost predicate GroupsFiltered(s: seq<AccessoryExercise>, groups: map<Category, seq<AccessoryExercise>>) {
    forall c :: c in groups ==> groups[c] == InCategory(s, c)
  }

  ghost predicate OrderListsKeys(order: seq<Category>, groups: map<Category, seq<AccessoryExercise>>) {
    (forall c :: c in order <==> c in groups) &&
    (forall i, j :: 0 <= i < j < |order| ==> order[i] != order[j])
  }

  /** One step of the `reduce`: create the category's list if missing, then push. */
  function GroupStep(order: seq<Category>, groups: map<Category, seq<AccessoryExercise>>, e: AccessoryExercise):
    (r: (seq<Category>, map<Category, seq<AccessoryExercise>>))
  {
    if e.category in groups then (order, groups[e.category := groups[e.category] + [e]])
    else (order + [e.category], groups[e.category := [e]])
  }

  lemma StepKeepsKeys(s: seq<AccessoryExercise>, groups: map<Category, seq<AccessoryExercise>>, order: seq<Category>, e: AccessoryExercise)
    requires KeysPresent(s, groups)
    ensures KeysPresent(s + [e], GroupStep(order, groups, e).1)
  {
    InCategoryStep(s, e);
  }

  lemma StepKeepsFiltered(s: seq<AccessoryExercise>, groups: map<Category, seq<AccessoryExercise>>, order: seq<Category>, e: AccessoryExercise)
    requires KeysPresent(s, groups) && GroupsFiltered(s, groups)
    ensures GroupsFiltered(s + [e], GroupStep(order, groups, e).1)
  {
    InCategoryStep(s, e);
    var groups' := GroupStep(order, groups, e).1;
    var c0 := e.category;
    assert InCategory(s + [e], c0) == InCategory(s, c0) + [e];
    if c0 in groups {
      assert groups'[c0] == groups[c0] + [e];
    } else {
      if InCategory(s, c0) != [] {
        NonEmptyCategoryIsPresent(s, c0);
      }
      assert groups'[c0] == [e];
    }
    forall c | c in groups' && c != c0 ensures groups'[c] == InCategory(s + [e], c) {
      assert groups'[c] == groups[c];
      assert InCategory(s + [e], c) == InCategory(s, c);
    }
  }

  lemma StepKeepsOrder(groups: map<Category, seq<AccessoryExercise>>, order: seq<Category>, e: AccessoryExercise)
    requires OrderListsKeys(order, groups)
    ensures OrderListsKeys(GroupStep(order, groups, e).0, GroupStep(order, groups, e).1)
  {
    var (order', groups') := GroupStep(order, groups, e);
    if e.category !in groups {
      forall i, j | 0 <= i < j < |order'| ensures order'[i] != order'[j] {
        if j == |order| {
          assert order[i] in order;
        }
      }
    }
  }

  lemma GroupStepKeepsGrouped(s: seq<AccessoryExercise>, order: seq<Category>, groups: map<Category, seq<AccessoryExercise>>, e: AccessoryExercise)
    requires Grouped(s, order, groups)
    ensures Grouped(s + [e], GroupStep(order, groups, e).0, GroupStep(order, groups, e).1)
  {
    StepKeepsKeys(s, groups, order, e);
    StepKeepsFiltered(s, groups, order, e);
    StepKeepsOrder(groups, order, e);
  }

  /**
   * The `reduce` that pushes each entry onto its category's list. `order` is the
   * order in which categories first appear, the key order of the resulting object.
   */
  method GroupedExercises(catalog: seq<AccessoryExercise>)
    returns (order: seq<Category>, groups: map<Category, seq<AccessoryExercise>>)
    ensures forall c :: c in groups <==> HasCategory(catalog, c)
    ensures forall c :: c in groups ==> groups[c] == InCategory(catalog, c)
    ensures forall c :: c in order <==> c in groups
    ensures forall i, j :: 0 <= i < j < |order| ==> order[i] != order[j]
  {
    order, groups := [], map[];
    for k := 0 to |catalog|
      invariant Grouped(catalog[..k], order, groups)
    {
      var exercise := catalog[k];
      assert catalog[..k + 1] == catalog[..k] + [exercise];
      GroupStepKeepsGrouped(catalog[..k], order, groups, exercise);
      if exercise.category in groups {
        groups := groups[exercise.category := groups[exercise.category] + [exercise]];
      } else {
        order := order + [exercise.category];
        groups := groups[exercise.category := [exercise]];
      }
    }
    assert catalog[..|catalog|] == catalog;
  }

  // ---------------------------------------------------------------- input handlers

  /** The Sets (and, the same, Reps) field: empty text or a parse that is NaN or not positive is ignored. */
  function OnSetsText(list: seq<UserAccessory>, id: string, text: string, parsed: Option<int>): (r: seq<UserAccessory>)
    ensures text == "" ==> r == list
    ensures text != "" && parsed.Some? && parsed.value > 0 ==> r == UpdateExerciseConfig(list, id, SetSets(parsed.value))
    ensures r != list ==> text != "" && parsed.Some? && parsed.value > 0
  {
    if text == "" then list
    else if parsed.Some? && parsed.value > 0 then UpdateExerciseConfig(list, id, SetSets(parsed.value))
    else list
  }

  function OnRepsText(list: seq<UserAccessory>, id: string, text: string, parsed: Option<int>): (r: seq<UserAccessory>)
    ensures text == "" ==> r == list
    ensures text != "" && parsed.Some? && parsed.value > 0 ==> r == UpdateExerciseConfig(list, id, SetReps(parsed.value))
    ensures r != list ==> text != "" && parsed.Some? && parsed.value > 0
  {
    if text == "" then list
    else if parsed.Some? && parsed.value > 0 then UpdateExerciseConfig(list, id, SetReps(parsed.value))
    else list
  }

  /** The Rest field: empty text means 0, otherwise a non-negative parse is taken. */
  function OnRestText(list: seq<UserAccessory>, id: string, text: string, parsed: Option<int>): (r: seq<UserAccessory>)
    ensures text == "" ==> r == UpdateExerciseConfig(list, id, SetRest(0))
    ensures text != "" && parsed.Some? && parsed.value >= 0 ==> r == UpdateExerciseConfig(list, id, SetRest(parsed.value))
    ensures text != "" && !(parsed.Some? && parsed.value >= 0) ==> r == list
  {
    if text == "" then UpdateExerciseConfig(list, id, SetRest(0))
    else if parsed.Some? && parsed.value >= 0 then UpdateExerciseConfig(list, id, SetRest(parsed.value))
    else list
  }

  /** The Weight field: like Rest, with a `parseFloat` result. */
  function OnWeightText(list: seq<UserAccessory>, id: string, text: string, parsed: Option<real>): (r: seq<UserAccessory>)
    ensures text == "" ==> r == UpdateExerciseConfig(list, id, SetWeight(0.0))
    ensures text != "" && parsed.Some? && parsed.value >= 0.0 ==> r == UpdateExerciseConfig(list, id, SetWeight(parsed.value))
    ensures text != "" && !(parsed.Some? && parsed.value >= 0.0) ==> r == list
  {
    if text == "" then UpdateExerciseConfig(list, id, SetWeight(0.0))
    else if parsed.Some? && parsed.value >= 0.0 then UpdateExerciseConfig(list, id, SetWeight(parsed.value))
    else list
  }

  // ---------------------------------------------------------------- properties

  /** Switching an exercise on and off again, or off and on, gives back the list. */
  lemma ToggleExerciseTwiceRestores(catalog: seq<AccessoryExercise>, list: seq<UserAccessory>, id: string)
    requires FindIndex(list, id) >= 0
    ensures ToggleExercise(catalog, ToggleExercise(catalog, list, id), id) == list
  {
    var once := ToggleExercise(catalog, list, id);
    if CatalogIndex(catalog, id) >= 0 {
      var k := FindIndex(list, id);
      assert FindIndex(once, id) == k by {
        assert once[k].id == id;
        assert forall j :: 0 <= j < k ==> once[j] == list[j];
      }
    }
  }

  /** With one entry per id, toggling a catalog exercise flips whether it is enabled. */
  lemma ToggleExerciseFlipsEnabled(catalog: seq<AccessoryExercise>, list: seq<UserAccessory>, id: string)
    requires UniqueIds(list)
    requires CatalogIndex(catalog, id) >= 0
    ensures IsExerciseEnabled(ToggleExercise(catalog, list, id), id) <==> !IsExerciseEnabled(list, id)
    ensures UniqueIds(ToggleExercise(catalog, list, id))
  {
    var r := ToggleExercise(catalog, list, id);
    var k := FindIndex(list, id);
    if k >= 0 {
      assert forall j :: 0 <= j < |list| && list[j].id == id ==> j == k;
      if IsExerciseEnabled(r, id) {
        var i :| 0 <= i < |r| && r[i].id == id && r[i].enabled;
        assert i == k;
      }
      if IsExerciseEnabled(list, id) {
        var i :| 0 <= i < |list| && list[i].id == id && list[i].enabled;
        assert i == k;
      }
    } else {
      assert r[|list|].id == id && r[|list|].enabled;
    }
  }

  /** Toggling an exercise never removes an entry, and adds only the catalog's own. */
  lemma ToggleExerciseKeepsSettingsSane(catalog: seq<AccessoryExercise>, list: seq<UserAccessory>, id: string)
    requires SaneSettings(list)
    requires ValidDefaults(catalog)
    ensures SaneSettings(ToggleExercise(catalog, list, id))
  {
    var c := CatalogIndex(catalog, id);
    if c >= 0 && FindIndex(list, id) < 0 {
      var r := ToggleExercise(catalog, list, id);
      assert r[|list|] == NewAccessory(catalog[c]);
      assert forall j :: 0 <= j < |list| ==> r[j] == list[j];
    }
  }

  /** Editing a field never changes ids or which exercises are enabled. */
  lemma UpdateKeepsIdentity(list: seq<UserAccessory>, id: string, f: FieldUpdate, other: string)
    ensures forall j :: 0 <= j < |list| ==>
      UpdateExerciseConfig(list, id, f)[j].id == list[j].id &&
      UpdateExerciseConfig(list, id, f)[j].enabled == list[j].enabled
    ensures IsExerciseEnabled(UpdateExerciseConfig(list, id, f), other) == IsExerciseEnabled(list, other)
  {
    var r := UpdateExerciseConfig(list, id, f);
    if IsExerciseEnabled(r, other) {
      var i :| 0 <= i < |r| && r[i].id == other && r[i].enabled;
      assert list[i].id == other && list[i].enabled;
    }
    if IsExerciseEnabled(list, other) {
      var i :| 0 <= i < |list| && list[i].id == other && list[i].enabled;
      assert r[i].id == other && r[i].enabled;
    }
  }

  lemma {:induction false} RemoveAppended(ws: seq<WorkoutType>, w: WorkoutType)
    requires w !in ws
    ensures RemoveAll(ws + [w], w) == ws
  {
    if ws == [] {
      assert [] + [w] == [w];
      assert [w][1..] == [];
    } else {
      assert (ws + [w])[1..] == ws[1..] + [w];
      RemoveAppended(ws[1..], w);
      assert ws == [ws[0]] + ws[1..];
    }
  }

  /** Adding a workout and removing it again gives back the exact list of workouts. */
  lemma ToggleWorkoutTwiceRestoresAbsent(list: seq<UserAccessory>, id: string, w: WorkoutType)
    requires FindIndex(list, id) >= 0
    requires w !in list[FindIndex(list, id)].workouts
    ensures ToggleWorkout(ToggleWorkout(list, id, w), id, w) == list
  {
    var k := FindIndex(list, id);
    var once := ToggleWorkout(list, id, w);
    assert FindIndex(once, id) == k by {
      assert once[k].id == id;
      assert forall j :: 0 <= j < k ==> once[j] == list[j];
    }
    RemoveAppended(list[k].workouts, w);
    var twice := ToggleWorkout(once, id, w);
    assert twice[k] == list[k];
    assert forall j :: 0 <= j < |list| ==> twice[j] == list[j];
  }

  /** Removing a workout and adding it again trains the same set of workouts. */
  lemma ToggleWorkoutTwiceRestoresPresent(list: seq<UserAccessory>, id: string, w: WorkoutType)
    requires FindIndex(list, id) >= 0
    requires w in list[FindIndex(list, id)].workouts
    ensures var k := FindIndex(list, id);
      var twice := ToggleWorkout(ToggleWorkout(list, id, w), id, w);
      |twice| == |list| &&
      (forall x :: x in twice[k].workouts <==> x in list[k].workouts) &&
      twice[k] == list[k].(workouts := twice[k].workouts) &&
      forall j :: 0 <= j < |list| && j != k ==> twice[j] == list[j]
  {
    var k := FindIndex(list, id);
    var once := ToggleWorkout(list, id, w);
    ToggleKeepsIndex(list, id, w);
    ToggleMembershipTwice(list[k].workouts, w);
    assert once[k].workouts == ToggleMembership(list[k].workouts, w);
  }

  /** Toggling a workout of an entry leaves that entry where it was found. */
  lemma ToggleKeepsIndex(list: seq<UserAccessory>, id: string, w: WorkoutType)
    requires FindIndex(list, id) >= 0
    ensures FindIndex(ToggleWorkout(list, id, w), id) == FindIndex(list, id)
  {
    var k := FindIndex(list, id);
    var once := ToggleWorkout(list, id, w);
    assert once[k].id == id;
    assert forall j :: 0 <= j < k ==> once[j] == list[j];
  }

  /** Toggling the same workout twice leaves the same set of workouts. */
  lemma ToggleMembershipTwice(ws: seq<WorkoutType>, w: WorkoutType)
    ensures forall x :: x in ToggleMembership(ToggleMembership(ws, w), w) <==> x in ws
  {
  }

  /** The text handlers keep sets and reps positive and rest and weight non-negative. */
  lemma HandlersKeepSettingsSane(list: seq<UserAccessory>, id: string, text: string, count: Option<int>, amount: Option<real>)
    requires SaneSettings(list)
    ensures SaneSettings(OnSetsText(list, id, text, count))
    ensures SaneSettings(OnRepsText(list, id, text, count))
    ensures SaneSettings(OnRestText(list, id, text, count))
    ensures SaneSettings(OnWeightText(list, id, text, amount))
  {
    if text == "" {
      UpdateKeepsSane(list, id, SetRest(0));
      UpdateKeepsSane(list, id, SetWeight(0.0));
    } else {
      if count.Some? && count.value > 0 {
        UpdateKeepsSane(list, id, SetSets(count.value));
        UpdateKeepsSane(list, id, SetReps(count.value));
        UpdateKeepsSane(list, id, SetRest(count.value));
      } else if count.Some? && count.value >= 0 {
        UpdateKeepsSane(list, id, SetRest(count.value));
      }
      if amount.Some? && amount.value >= 0.0 {
        UpdateKeepsSane(list, id, SetWeight(amount.value));
      }
    }
  }

  /** An update whose new value is in range. */
  ghost predicate SaneUpdate(f: FieldUpdate) {
    match f
    case SetSets(n) => n > 0
    case SetReps(n) => n > 0
    case SetRest(n) => n >= 0
    case SetWeight(w) => w >= 0.0
    case SetWorkouts(_) => true
  }

  lemma UpdateKeepsSane(list: seq<UserAccessory>, id: string, f: FieldUpdate)
    requires SaneSettings(list) && SaneUpdate(f)
    ensures SaneSettings(UpdateExerciseConfig(list, id, f))
  {
  }

  /** Toggling a workout changes nothing but workouts, so settings stay sane. */
  lemma ToggleWorkoutKeepsSettingsSane(list: seq<UserAccessory>, id: string, w: WorkoutType)
    requires SaneSettings(list)
    ensures SaneSettings(ToggleWorkout(list, id, w))
  {
  }

  const AllCategories: seq<Category> := [Arms, Back, Chest, Core, Legs, Shoulders]

  /** The total size of the groups of the categories `cs`. */
  function GroupSizes(s: seq<AccessoryExercise>, cs: seq<Category>): nat {
    if cs == [] then 0 else |InCategory(s, cs[0])| + GroupSizes(s, cs[1..])
  }

  lemma {:induction false} GroupSizesStep(s: seq<AccessoryExercise>, e: AccessoryExercise, cs: seq<Category>)
    requires forall i, j :: 0 <= i < j < |cs| ==> cs[i] != cs[j]
    ensures GroupSizes(s + [e], cs) == GroupSizes(s, cs) + (if e.category in cs then 1 else 0)
  {
    if cs != [] {
      InCategoryStep(s, e);
      assert forall i :: 0 <= i < |cs| - 1 ==> cs[1..][i] == cs[i + 1];
      GroupSizesStep(s, e, cs[1..]);
      if e.category == cs[0] {
        assert e.category !in cs[1..];
      }
    }
  }

  /** Every catalog entry lands in exactly one group: the group sizes add up to the catalog. */
  lemma {:induction false} GroupsPartitionCatalog(s: seq<AccessoryExercise>)
    ensures GroupSizes(s, AllCategories) == |s|
    ensures forall i, c :: 0 <= i < |s| ==> (s[i] in InCategory(s, c) <==> c == s[i].category)
  {
    if s != [] {
      var init := s[..|s| - 1];
      assert s == init + [s[|s| - 1]];
      GroupsPartitionCatalog(init);
      GroupSizesStep(init, s[|s| - 1], AllCategories);
      assert s[|s| - 1].category in AllCategories;
    } else {
      NoGroupsOfNothing(AllCategories);
    }
  }

  lemma {:induction false} NoGroupsOfNothing(cs: seq<Category>)
    ensures GroupSizes([], cs) == 0
  {
    if cs != [] {
      NoGroupsOfNothing(cs[1..]);
    }
  }
}
