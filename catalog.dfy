/** The accessory exercise catalog (src/constants/accessoryExercises.ts). */
module Catalog {
  datatype Category = Arms | Back | Chest | Core | Legs | Shoulders

  datatype AccessoryExercise = AccessoryExercise(
    id: string,
    name: string,
    category: Category,
    defaultSets: int,
    defaultReps: int,
    defaultRest: int,
    defaultWeight: real)

  const AccessoryExercises: seq<AccessoryExercise> := [
      AccessoryExercise("barbell_curls", "Barbell Curls", Arms, 3, 8, 90, 45.0),
      AccessoryExercise("dumbbell_curls", "Dumbbell Curls", Arms, 3, 10, 90, 25.0),
      AccessoryExercise("hammer_curls", "Hammer Curls", Arms, 3, 10, 90, 25.0),
      AccessoryExercise("skullcrushers", "Skullcrushers", Arms, 3, 8, 90, 45.0),
      AccessoryExercise("tricep_extensions", "Tricep Extensions", Arms, 3, 10, 90, 30.0),
      AccessoryExercise("close_grip_bench", "Close-Grip Bench Press", Arms, 3, 8, 180, 95.0),
      AccessoryExercise("pullups", "Pull-ups", Back, 3, 8, 120, 0.0),
      AccessoryExercise("chinups", "Chin-ups", Back, 3, 8, 120, 0.0),
      AccessoryExercise("lat_pulldowns", "Lat Pulldowns", Back, 3, 10, 90, 100.0),
      AccessoryExercise("face_pulls", "Face Pulls", Back, 3, 15, 60, 40.0),
      AccessoryExercise("band_pull_aparts", "Band Pull-Aparts", Back, 3, 20, 60, 0.0),
      AccessoryExercise("dips", "Dips", Chest, 3, 8, 120, 0.0),
      AccessoryExercise("dumbbell_bench", "Dumbbell Bench Press", Chest, 3, 10, 120, 50.0),
      AccessoryExercise("incline_bench", "Incline Bench Press", Chest, 3, 8, 180, 95.0),
      AccessoryExercise("planks", "Planks", Core, 3, 60, 60, 0.0),
      AccessoryExercise("hanging_knee_raises", "Hanging Knee Raises", Core, 3, 10, 90, 0.0),
      AccessoryExercise("ab_wheel", "Ab Wheel Rollouts", Core, 3, 10, 90, 0.0),
      AccessoryExercise("cable_crunches", "Cable Crunches", Core, 3, 15, 60, 50.0),
      AccessoryExercise("good_mornings", "Good Mornings", Legs, 3, 8, 120, 65.0),
      AccessoryExercise("romanian_deadlifts", "Romanian Deadlifts", Legs, 3, 8, 120, 95.0),
      AccessoryExercise("hip_thrusts", "Hip Thrusts", Legs, 3, 10, 90, 95.0),
      AccessoryExercise("glute_bridges", "Glute Bridges", Legs, 3, 12, 90, 65.0),
      AccessoryExercise("leg_press", "Leg Press", Legs, 3, 10, 120, 180.0),
      AccessoryExercise("lunges", "Lunges", Legs, 3, 10, 90, 45.0),
      AccessoryExercise("lateral_raises", "Lateral Raises", Shoulders, 3, 12, 60, 15.0),
      AccessoryExercise("front_raises", "Front Raises", Shoulders, 3, 12, 60, 15.0),
      AccessoryExercise("shrugs", "Shrugs", Shoulders, 3, 12, 90, 100.0)
    ]

  function CategoryName(c: Category): string {
    match c
    case Arms => "Arms"
    case Back => "Back"
    case Chest => "Chest"
    case Core => "Core"
    case Legs => "Legs"
    case Shoulders => "Shoulders"
  }

  /** Every category has its own, non-empty display name. */
  lemma CategoryNamesDistinct(c: Category, d: Category)
    ensures CategoryName(c) != ""
    ensures c != d ==> CategoryName(c) != CategoryName(d)
  {
  }

  /** The position of a category in the catalog's listing order. */
  function CategoryRank(c: Category): nat {
    match c
    case Arms => 0
    case Back => 1
    case Chest => 2
    case Core => 3
    case Legs => 4
    case Shoulders => 5
  }

  ghost predicate DistinctIds(cat: seq<AccessoryExercise>) {
    forall i, j :: 0 <= i < j < |cat| ==> cat[i].id != cat[j].id
  }

  ghost predicate ValidDefaults(cat: seq<AccessoryExercise>) {
    forall i :: 0 <= i < |cat| ==>
      cat[i].defaultSets > 0 && cat[i].defaultReps > 0 && cat[i].defaultRest > 0 && cat[i].defaultWeight >= 0.0
  }

  ghost predicate SortedByCategory(cat: seq<AccessoryExercise>) {
    forall i, j :: 0 <= i < j < |cat| ==> CategoryRank(cat[i].category) <= CategoryRank(cat[j].category)
  }

  lemma {:induction false} AdjacentOrderIsSorted(cat: seq<AccessoryExercise>)
    requires forall i :: 0 <= i < |cat| - 1 ==> CategoryRank(cat[i].category) <= CategoryRank(cat[i + 1].category)
    ensures SortedByCategory(cat)
  {
    if |cat| > 1 {
      AdjacentOrderIsSorted(cat[1..]);
      forall i, j | 0 <= i < j < |cat| ensures CategoryRank(cat[i].category) <= CategoryRank(cat[j].category) {
        if i > 0 {
          assert cat[i] == cat[1..][i - 1] && cat[j] == cat[1..][j - 1];
        } else if j > 1 {
          assert cat[1] == cat[1..][0] && cat[j] == cat[1..][j - 1];
        }
      }
    }
  }

  /**
   * A number computed from an id's length, first and second-to-last character, so equal
   * ids have equal keys. The 27 catalog ids have 27 different keys, and PositionOfKey maps
   * each key back to its entry's position; two entries with the same id would therefore
   * have the same position, which is how CatalogIdsDistinct concludes.
   */
  function IdKey(s: string): int {
    if |s| < 2 then 0 else |s| * 65536 + (s[0] as int) * 256 + s[|s| - 2] as int
  }

  /** The catalog position of the entry with a given id key, -1 if none. */
  function PositionOfKey(key: int): int {
    if key == 877164 then 0
    else if key == 943212 then 1
    else if key == 813164 then 2
    else if key == 881522 then 3
    else if key == 1143918 then 4
    else if key == 1074019 then 5
    else if key == 487536 then 6
    else if key == 484208 then 7
    else if key == 879726 then 8
    else if key == 681580 then 9
    else if key == 1073780 then 10
    else if key == 287856 then 11
    else if key == 943203 then 12
    else if key == 878947 then 13
    else if key == 421995 then 14
    else if key == 1271909 then 15
    else if key == 549221 then 16
    else if key == 942949 then 17
    else if key == 878439 then 18
    else if key == 1208948 then 19
    else if key == 747636 then 20
    else if key == 878437 then 21
    else if key == 617587 then 22
    else if key == 420965 then 23
    else if key == 945253 then 24
    else if key == 812645 then 25
    else if key == 422759 then 26
    else -1
  }

  lemma PositionsFrom0To2()
    ensures forall k :: 0 <= k < 3 ==> PositionOfKey(IdKey(AccessoryExercises[k].id)) == k
  {
    forall k | 0 <= k < 3 ensures PositionOfKey(IdKey(AccessoryExercises[k].id)) == k {
      if k == 0 { } else if k == 1 { } else { assert k == 2; }
    }
  }

  lemma PositionsFrom3To5()
    ensures forall k :: 3 <= k < 6 ==> PositionOfKey(IdKey(AccessoryExercises[k].id)) == k
  {
    forall k | 3 <= k < 6 ensures PositionOfKey(IdKey(AccessoryExercises[k].id)) == k {
      if k == 3 { } else if k == 4 { } else { assert k == 5; }
    }
  }

  lemma PositionsFrom6To8()
    ensures forall k :: 6 <= k < 9 ==> PositionOfKey(IdKey(AccessoryExercises[k].id)) == k
  {
    forall k | 6 <= k < 9 ensures PositionOfKey(IdKey(AccessoryExercises[k].id)) == k {
      if k == 6 { } else if k == 7 { } else { assert k == 8; }
    }
  }

  lemma PositionsFrom9To11()
    ensures forall k :: 9 <= k < 12 ==> PositionOfKey(IdKey(AccessoryExercises[k].id)) == k
  {
    forall k | 9 <= k < 12 ensures PositionOfKey(IdKey(AccessoryExercises[k].id)) == k {
      if k == 9 { } else if k == 10 { } else { assert k == 11; }
    }
  }

  lemma PositionsFrom12To14()
    ensures forall k :: 12 <= k < 15 ==> PositionOfKey(IdKey(AccessoryExercises[k].id)) == k
  {
    forall k | 12 <= k < 15 ensures PositionOfKey(IdKey(AccessoryExercises[k].id)) == k {
      if k == 12 { } else if k == 13 { } else { assert k == 14; }
    }
  }

  lemma PositionsFrom15To17()
    ensures forall k :: 15 <= k < 18 ==> PositionOfKey(IdKey(AccessoryExercises[k].id)) == k
  {
    forall k | 15 <= k < 18 ensures PositionOfKey(IdKey(AccessoryExercises[k].id)) == k {
      if k == 15 { } else if k == 16 { } else { assert k == 17; }
    }
  }

  lemma PositionsFrom18To20()
    ensures forall k :: 18 <= k < 21 ==> PositionOfKey(IdKey(AccessoryExercises[k].id)) == k
  {
    forall k | 18 <= k < 21 ensures PositionOfKey(IdKey(AccessoryExercises[k].id)) == k {
      if k == 18 { } else if k == 19 { } else { assert k == 20; }
    }
  }

  lemma PositionsFrom21To23()
    ensures forall k :: 21 <= k < 24 ==> PositionOfKey(IdKey(AccessoryExercises[k].id)) == k
  {
    forall k | 21 <= k < 24 ensures PositionOfKey(IdKey(AccessoryExercises[k].id)) == k {
      if k == 21 { } else if k == 22 { } else { assert k == 23; }
    }
  }

  lemma PositionsFrom24To26()
    ensures forall k :: 24 <= k < 27 ==> PositionOfKey(IdKey(AccessoryExercises[k].id)) == k
  {
    forall k | 24 <= k < 27 ensures PositionOfKey(IdKey(AccessoryExercises[k].id)) == k {
      if k == 24 { } else if k == 25 { } else { assert k == 26; }
    }
  }

  /** Lookup by id is unambiguous. */
  lemma CatalogIdsDistinct()
    ensures DistinctIds(AccessoryExercises)
  {
    PositionsFrom0To2();
    PositionsFrom3To5();
    PositionsFrom6To8();
    PositionsFrom9To11();
    PositionsFrom12To14();
    PositionsFrom15To17();
    PositionsFrom18To20();
    PositionsFrom21To23();
    PositionsFrom24To26();
    forall i, j | 0 <= i < j < |AccessoryExercises| ensures AccessoryExercises[i].id != AccessoryExercises[j].id {
      assert PositionOfKey(IdKey(AccessoryExercises[i].id)) != PositionOfKey(IdKey(AccessoryExercises[j].id));
    }
  }

  lemma CatalogDefaultsValid()
    ensures ValidDefaults(AccessoryExercises)
  {
    forall i | 0 <= i < |AccessoryExercises|
      ensures AccessoryExercises[i].defaultSets > 0 && AccessoryExercises[i].defaultReps > 0
      ensures AccessoryExercises[i].defaultRest > 0 && AccessoryExercises[i].defaultWeight >= 0.0
    {
    }
  }

  /** Entries are grouped by category, in the order arms, back, chest, core, legs, shoulders. */
  lemma CatalogContiguousByCategory()
    ensures SortedByCategory(AccessoryExercises)
  {
    NeighboursOrdered0To8();
    NeighboursOrdered9To17();
    NeighboursOrdered18To25();
    AdjacentOrderIsSorted(AccessoryExercises);
  }

  lemma NeighboursOrdered0To8()
    ensures forall k :: 0 <= k < 9 ==>
      CategoryRank(AccessoryExercises[k].category) <= CategoryRank(AccessoryExercises[k + 1].category)
  {
    forall k | 0 <= k < 9
      ensures CategoryRank(AccessoryExercises[k].category) <= CategoryRank(AccessoryExercises[k + 1].category)
    {
      if k == 0 { } else if k == 1 { } else if k == 2 { } else if k == 3 { } else if k == 4 { } else if k == 5 { } else if k == 6 { } else if k == 7 { } else { assert k == 8; }
    }
  }

  lemma NeighboursOrdered9To17()
    ensures forall k :: 9 <= k < 18 ==>
      CategoryRank(AccessoryExercises[k].category) <= CategoryRank(AccessoryExercises[k + 1].category)
  {
    forall k | 9 <= k < 18
      ensures CategoryRank(AccessoryExercises[k].category) <= CategoryRank(AccessoryExercises[k + 1].category)
    {
      if k == 9 { } else if k == 10 { } else if k == 11 { } else if k == 12 { } else if k == 13 { } else if k == 14 { } else if k == 15 { } else if k == 16 { } else { assert k == 17; }
    }
  }

  lemma NeighboursOrdered18To25()
    ensures forall k :: 18 <= k < 26 ==>
      CategoryRank(AccessoryExercises[k].category) <= CategoryRank(AccessoryExercises[k + 1].category)
  {
    forall k | 18 <= k < 26
      ensures CategoryRank(AccessoryExercises[k].category) <= CategoryRank(AccessoryExercises[k + 1].category)
    {
      if k == 18 { } else if k == 19 { } else if k == 20 { } else if k == 21 { } else if k == 22 { } else if k == 23 { } else if k == 24 { } else { assert k == 25; }
    }
  }

  /** Every category is used and has a display name. */
  lemma EveryCategoryPopulated(c: Category)
    ensures exists i :: 0 <= i < |AccessoryExercises| && AccessoryExercises[i].category == c
    ensures CategoryName(c) != ""
  {
    var k := match c
      case Arms => 0
      case Back => 6
      case Chest => 11
      case Core => 14
      case Legs => 18
      case Shoulders => 24;
    assert AccessoryExercises[k].category == c;
  }
}
