# simple-5x5 in Dafny

A model of the core of simple-5x5, a React Native workout tracker for the 5×5 strength
program. The model covers the following, one Dafny module per source file:

- `Program` and `LegacyProgram`: the program tables. These are the workout templates, the
  default weights, the increments, the rep schemes and the default sessions.
- `Units`: formatting and unit conversion.
- `Plates`: the greedy plate calculator.
- `Catalog`: the accessory-exercise catalog.
- `Accessories`: the accessory settings screen.
- `Progress`: the progress charts.
- `Review`: the store-review prompt schedule.
- `Backup`: backup export and import.

Pure code is modelled as datatypes, functions and lemmas. Code that works by updating
variables in a loop is modelled as methods with loop invariants, each proved against a
specification function:

- `Plates.CalculatePlates`
- `Accessories.GroupedExercises`
- `Progress.AccessoryIdsInHistory`
- `Progress.BuildChartData`
- `Backup.ExportData`
- `Backup.ImportData`

The review record that `handleWorkoutCompletion` loads, mutates and saves is the class
`Review.ReviewRecord`.

Modelling conventions:

- JavaScript numbers are `real`.
- `Math.round(x)` is `Floor(x + 0.5)`.
- The plate calculator works in whole hundredths of a pound or kilogram (`int`).
- `parseInt` and `parseFloat` results are `Option` parameters, where `None` plays the part of `NaN`.
- Stored JSON is abstracted to the `Backup.Json` value datatype, so no text is parsed or printed.
- Chart keys are the datatype `Progress.SeriesKey` rather than strings.
- Platform queries (`StoreReview.isAvailableAsync`, `Platform.OS`) are boolean parameters.

Notes on the code:

- `lbsToKg` in app/utils.ts:21-24 rounds to a multiple of 2.5 kg. A second copy of it in app/(tabs)/settings.tsx:15-17 rounds to 1.25 kg and is not part of the model.
- `lbsToKg` and `kgToLbs` are not inverse for every multiple of 5 lb, so no such round trip is stated.
- The review schedule's `completedWorkouts > 12 && (n - 12) % 10 === 0` yields 22, 32, …, so "every ten after twelve" is what is proved.

## Model

| member | source | states |
|---|---|---|
| Program.Workout | src/constants/constants.ts:13-16 | each template has three lifts starting with squat |
| Program.WorkoutTemplates | src/constants/constants.ts:13-16 | squat is the only lift shared by A and B, every lift is in one of them, and no template repeats a lift |
| Program.TargetRepsForScheme | src/constants/constants.ts:121-126 | the reps that complete an exercise are a multiple of 5 between 5 and 25 |
| Program.DefaultSessionForScheme | src/constants/constants.ts:67-72 | one empty set (-1) per five target reps of the scheme |
| Program.CreateDefaultSession | src/constants/constants.ts:74-94 | every lift gets the sets of its scheme (the default schemes when none are given), all empty and not completed |
| Program.MinimumIncrement | src/constants/constants.ts:116-119 | the smallest step is positive |
| Program.DefaultSessionLengths | src/constants/constants.ts:67-72 | 5×5, 3×5 and 1×5 give 5, 3 and 1 sets |
| Program.DefaultSessionUsesDefaultSchemes | src/constants/constants.ts:59-94 | without stored schemes deadlift has one set and every other lift five |
| Program.IncrementsAreMultiplesOfMinimum | src/constants/constants.ts:26-41 | every default weight and every progression increment (lines 96-114) is a whole positive number of minimum increments |
| Program.TargetRepsAgreesWithDefaultSchemes | src/constants/constants.ts:121-134 | the TARGET_REPS table equals the reps of each lift's default scheme and five times its default set count |
| Program.DefaultCountersAreZero | src/constants/constants.ts:43-57 | failure and deload counters start at zero |
| LegacyProgram.Workout | app/constants.ts:3-6 | the older templates are the same as the newer ones |
| LegacyProgram.CreateDefaultSession | app/constants.ts:40-46 | every lift gets five empty, uncompleted sets |
| LegacyProgram.TablesArePoundRowsOfNewer | app/constants.ts:16-62 | the older weight, increment, rep and counter tables are the pound rows of the newer ones |
| LegacyProgram.DeadliftTargetBelowSetCapacity | app/constants.ts:40-62 | the older session gives deadlift five sets (25 reps) against a target of 5, and every other lift exactly its target |
| Units.DecimalString | app/utils.ts:3-7 | a non-empty digit string without leading zero, one digit below 10 and two below 100 |
| Units.DecimalStringRoundTrip | app/utils.ts:3-7 | reading the digits back gives the number |
| Units.PadStart2Digit | app/utils.ts:3-7 | padStart(2, "0") of one digit prefixes a zero and keeps its value |
| Units.FormatTime | app/utils.ts:3-7 | the text is minutes without a leading zero, a colon and two digits of seconds below 60, and 60·minutes + seconds is the input |
| Units.FormatTimeExample | app/utils.ts:3-7 | 65 s is "1:05", 0 s is "0:00", 600 s is "10:00" |
| Units.RepButtonStyle | app/utils.ts:9-11 | the button is complete exactly when the reps exceed -1 |
| Units.RepButtonTextStyle | app/utils.ts:13-15 | the text style is complete exactly when the reps exceed -1 |
| Units.OnlySentinelIsEmpty | app/utils.ts:9-15 | among recorded values only the sentinel -1 is empty, and both styles agree |
| Units.NumberTextRoundTrip | app/utils.ts:17-19 | a weight's printed number parses back to the same hundredths |
| Units.FormatWeight | app/utils.ts:17-19 | the text is the number, a space and the unit label, and the number reads back as the weight |
| Units.Round | app/utils.ts:21-29 | Math.round lands within half of its argument |
| Units.LbsToKg | app/utils.ts:21-24 | the result is a multiple of 2.5 kg within 1.25 kg of the exact conversion |
| Units.KgToLbs | app/utils.ts:26-29 | the result is a multiple of 5 lb within 2.5 lb of the exact conversion |
| Units.ConvertWeight | app/utils.ts:31-40 | the same unit is the identity, otherwise the result is a multiple of the target's minimum increment within half of it of the exact conversion |
| Units.ConvertWeightDispatch | app/utils.ts:31-40 | conversion picks lbsToKg, kgToLbs or the identity by the unit pair |
| Units.RoundIsMonotone | app/utils.ts:21-29 | rounding preserves order |
| Units.ConversionIsMonotone | app/utils.ts:21-29 | a heavier weight never converts to a lighter one |
| Units.ConversionExamples | app/utils.ts:21-29 | 45 lb is 20 kg, 20 kg is 45 lb, and 0 converts to 0 |
| Plates.AvailablePlates | components/PlateCalculator.tsx:24-27 | the plates are positive, strictly descending and multiples of the smallest |
| Plates.CalculatePlates | components/PlateCalculator.tsx:22-43 | the loop's plates are those of the greedy specification |
| Plates.TakeWhileFits | components/PlateCalculator.tsx:35-38 | the inner loop takes the plates and leaves the rest of a single-denomination drain |
| Plates.DrainRest | components/PlateCalculator.tsx:35-38 | the inner loop leaves less than one plate, and the plates plus what is left equal the load, up to the first rounding |
| Plates.GreedyRest | components/PlateCalculator.tsx:34-40 | after all plates less than the smallest is left, and the plates plus the rest equal the load, up to the first rounding |
| Plates.BarOnlyIsEmpty | components/PlateCalculator.tsx:29-30 | a total at or below the bar needs no plates |
| Plates.PlatesAreDenominationsInOrder | components/PlateCalculator.tsx:34-40 | every plate is an available one and the list is heaviest first |
| Plates.PlatesFitTheLoad | components/PlateCalculator.tsx:29-40 | the loaded bar misses the total by less than two smallest plates and never exceeds it by more than the rounding |
| Plates.ExactWhenMultipleOfSmallest | components/PlateCalculator.tsx:29-40 | a load that is a whole number of smallest-plate pairs is met exactly |
| Plates.Examples | components/PlateCalculator.tsx:22-43 | 225 lb is two 45s a side, 230 lb adds a 2.5, 100 kg is two 20s and 60 kg one 20 |
| Catalog.CategoryNamesDistinct | src/constants/accessoryExercises.ts:249-256 | each category has a non-empty name of its own |
| Catalog.AdjacentOrderIsSorted | src/constants/accessoryExercises.ts:3-247 | a catalog ordered pairwise by neighbours is ordered by category |
| Catalog.CatalogIdsDistinct | src/constants/accessoryExercises.ts:3-247 | no two catalog entries share an id |
| Catalog.CatalogDefaultsValid | src/constants/accessoryExercises.ts:3-247 | every entry has positive default sets, reps and rest and a non-negative default weight |
| Catalog.CatalogContiguousByCategory | src/constants/accessoryExercises.ts:3-247 | the entries are listed category by category |
| Catalog.EveryCategoryPopulated | src/constants/accessoryExercises.ts:3-256 | every category has at least one entry and a display name |
| Accessories.IsExerciseEnabled | app/accessories.tsx:31-33 | true exactly when an entry with the id is enabled |
| Accessories.FindIndex | app/accessories.tsx:45 | the first index holding the id, or -1 exactly when none does |
| Accessories.CatalogIndex | app/accessories.tsx:42-43 | the first catalog entry with the id, or -1 exactly when none has it |
| Accessories.GetExerciseConfig | app/accessories.tsx:35-39 | none exactly when no entry has the id, otherwise the first entry of the list with that id |
| Accessories.NewAccessory | app/accessories.tsx:55-65 | a new entry copies the catalog defaults, is enabled and is in both workouts |
| Accessories.ToggleExercise | app/accessories.tsx:41-66 | an unknown id changes nothing, an existing entry flips only its enabled flag, otherwise a new entry is appended |
| Accessories.ApplyUpdate | app/accessories.tsx:76-78 | only the named setting changes and the identity and defaults are kept |
| Accessories.UpdateExerciseConfig | app/accessories.tsx:68-82 | a missing id changes nothing, otherwise only the first entry with the id is updated |
| Accessories.RemoveAll | app/accessories.tsx:88-90 | the workout is gone and every other one is kept |
| Accessories.ToggleMembership | app/accessories.tsx:88-91 | the workout's membership flips and the others are kept |
| Accessories.ToggleWorkout | app/accessories.tsx:84-93 | a missing id changes nothing, otherwise only that entry's workout list toggles |
| Accessories.InCategory | app/accessories.tsx:95-101 | the group holds exactly the catalog entries of the category |
| Accessories.GroupedExercises | app/accessories.tsx:95-101 | the groups are keyed by exactly the categories present, each holds its category's entries in order, and the key order lists each key once |
| Accessories.GroupsPartitionCatalog | app/accessories.tsx:95-101 | the group sizes add up to the catalog, and each entry is in its own category's group only |
| Accessories.OnSetsText | app/accessories.tsx:222-232 | empty text and a parse that is NaN or not positive are ignored, otherwise the sets are set |
| Accessories.OnRepsText | app/accessories.tsx:260-270 | empty text and a parse that is NaN or not positive are ignored, otherwise the reps are set |
| Accessories.OnRestText | app/accessories.tsx:298-315 | empty text sets rest to 0, a non-negative parse sets it, anything else is ignored |
| Accessories.OnWeightText | app/accessories.tsx:345-362 | empty text sets weight to 0, a non-negative parse sets it, anything else is ignored |
| Accessories.ToggleExerciseTwiceRestores | app/accessories.tsx:41-53 | toggling an existing entry twice gives the list back |
| Accessories.ToggleExerciseFlipsEnabled | app/accessories.tsx:41-66 | toggling a catalog exercise flips whether it is enabled and keeps the ids unique |
| Accessories.ToggleExerciseKeepsSettingsSane | app/accessories.tsx:41-66 | toggling keeps every entry's sets, reps, rest and weight in range |
| Accessories.UpdateKeepsIdentity | app/accessories.tsx:68-82 | updates never change ids, names, categories or enabled flags |
| Accessories.RemoveAppended | app/accessories.tsx:88-91 | adding a workout and then removing it gives the list back |
| Accessories.ToggleWorkoutTwiceRestoresAbsent | app/accessories.tsx:84-93 | toggling an absent workout twice gives the list back |
| Accessories.ToggleWorkoutTwiceRestoresPresent | app/accessories.tsx:84-93 | toggling a present workout twice keeps the entry's membership of every workout (it moves to the end of the list), keeps its other fields, and keeps every other entry |
| Accessories.HandlersKeepSettingsSane | app/accessories.tsx:222-362 | the text handlers keep sets and reps positive and rest and weight non-negative |
| Accessories.ToggleWorkoutKeepsSettingsSane | app/accessories.tsx:84-93 | toggling a workout keeps the settings in range |
| Review.GetReviewData | app/reviewPrompt.ts:13-27 | stored data is returned as is, and missing data gives zero counters and no request |
| Review.ShouldPromptForReview | app/reviewPrompt.ts:37-55 | in test mode the prompt comes on every even count |
| Review.ScheduleEndsInTwo | app/reviewPrompt.ts:37-55 | the prompt comes exactly after 2, 6, or 12 and above when the count ends in 2 |
| Review.ScheduleEveryTenAfterTwelve | app/reviewPrompt.ts:50-52 | from 12 on the next prompt is ten workouts later and none comes in between |
| Review.FirstPrompts | app/reviewPrompt.ts:37-55 | below 40 the prompts come at 2, 6, 12, 22 and 32 |
| Review.CompleteWorkout | app/reviewPrompt.ts:57-98 | after a review request nothing changes or is saved, otherwise the count goes up by one and is saved, and a prompt is shown exactly when the store is available and the schedule says so |
| Review.AnswerPrompt | app/reviewPrompt.ts:73-90 | either answer records the count as last prompted, and only yes marks the review requested |
| Review.CounterCountsCompletions | app/reviewPrompt.ts:57-98 | until a review is requested, n completions add n to the count and change nothing else |
| Review.YesIsFinal | app/reviewPrompt.ts:61-63 | once yes is answered no later completion changes the record or shows a prompt |
| Review.ReviewRecord.Load | app/reviewPrompt.ts:13-27 | the loaded record is the stored data or the defaults |
| Review.ReviewRecord.HandleWorkoutCompletion | app/reviewPrompt.ts:57-98 | the record, the prompt and the save are those of the completion specification |
| Review.ReviewRecord.AnswerNotReally | app/reviewPrompt.ts:73-78 | the record becomes that of a "not really" answer |
| Review.ReviewRecord.AnswerYes | app/reviewPrompt.ts:80-89 | the record becomes that of a yes, and a store review is requested exactly on a mobile platform |
| Backup.Dump | src/utils/dataExport.ts:31-39 | the dump holds every backup key with its stored value or null, plus the version and export date |
| Backup.ExportData | src/utils/dataExport.ts:29-69 | the loop builds the dump of the specification |
| Backup.ToWrite | src/utils/dataExport.ts:94-99 | the pairs are exactly the present, non-null backup keys of the file with their values |
| Backup.WriteAll | src/utils/dataExport.ts:101 | afterwards the store holds exactly its old keys and the written ones, and every key not written keeps its value |
| Backup.WriteAllValue | src/utils/dataExport.ts:101 | a key written with one value holds that value afterwards |
| Backup.Import | src/utils/dataExport.ts:71-123 | success needs a parsed file |
| Backup.ImportData | src/utils/dataExport.ts:71-123 | the import's result, store, callback and alert are those of the specification |
| Backup.RejectedImportWritesNothing | src/utils/dataExport.ts:80-92 | a cancelled pick, unreadable file or missing version fails and writes nothing |
| Backup.ImportWritesSelectedKeys | src/utils/dataExport.ts:94-112 | an accepted file writes exactly its present, non-null backup keys and keeps every other stored key |
| Backup.EmptyImportSkipsCallback | src/utils/dataExport.ts:101-114 | with nothing to write the store is unchanged, the callback is skipped and the result is true |
| Backup.ExportImportRoundTrip | src/utils/dataExport.ts:29-123 | importing an export restores every non-null backup key and leaves the rest of the later store alone |
| Backup.BackupKeysLeaveHeaderAlone | src/utils/dataExport.ts:9-19 | no backup key collides with the version or exportDate header |
| Progress.LiftOfName | app/progress.tsx:106-108 | the lift whose display name this is, or none when no lift has it |
| Progress.LiftOfNameInvertsExerciseName | app/progress.tsx:106-108 | looking up a lift's display name finds the lift |
| Progress.LiftOfKey | app/progress.tsx:162-165 | the lift with this chart key, or none |
| Progress.ShortDateIsLabelPrefix | app/progress.tsx:87-92 | the label is a prefix of the date: the whole date when it has no slash, otherwise it stops at the end of the date or just before a second slash, and holds no slash after the first |
| Progress.ShortDateOfFullDate | app/progress.tsx:87-92 | "10/14/2026" becomes "10/14" |
| Progress.ShortDateWithoutSlash | app/progress.tsx:87-92 | a date without a slash is kept whole |
| Progress.AccessoryIdsInHistory | app/progress.tsx:56-66 | the ids are exactly those logged in the history, each once |
| Progress.NoLiftMatches | app/progress.tsx:105-120 | a workout has no point for a lift exactly when none of its exercises has the lift's name |
| Progress.NoAccessoryMatches | app/progress.tsx:128-136 | a workout has no point for an accessory exactly when none of its entries has the id |
| Progress.Points | app/progress.tsx:95-144 | every workout contributes at least one point to every series |
| Progress.PushLifts | app/progress.tsx:103-126 | each lift's series gets this workout's points and no other series changes |
| Progress.PushAccessories | app/progress.tsx:128-144 | each accessory's series gets this workout's points and no other series changes |
| Progress.PushBodyweight | app/progress.tsx:94-101 | the bodyweight series gets this workout's point and no other series changes |
| Progress.BuildChartData | app/progress.tsx:68-146 | the labels are the short dates oldest first, the series are exactly the lifts, bodyweight and the logged accessories, and each is its specification series |
| Progress.LabelsAlign | app/progress.tsx:84-92 | one label per workout, oldest first |
| Progress.SeriesAlign | app/progress.tsx:84-144 | with one point per workout, the series lines up with the labels, oldest first |
| Progress.OneLiftPoint | app/progress.tsx:105-120 | a lift logged once in a workout gives one point, its converted weight |
| Progress.OneAccessoryPoint | app/progress.tsx:128-136 | an accessory logged once gives one point, its converted weight |
| Progress.Positives | app/progress.tsx:150-152 | the kept values are exactly the positive ones |
| Progress.FilteredLabelsMatchSelectedData | app/progress.tsx:150-187 | the filtered labels and the filtered data have the same length and pair up |
| Progress.ChartFiltersAlign | app/progress.tsx:150-187 | for a chart built from history, the filtered labels are the dates of the workouts with positive values, paired with those values |
| Progress.LiftsWithData | app/progress.tsx:173-175 | the lifts kept are exactly those with a positive value, without duplicates |
| Progress.MainExercises | app/progress.tsx:173-175 | exactly the lifts with a positive value, once each, in program order |
| Progress.AllLiftsListed | app/progress.tsx:122 | the lift list holds every lift once, in program order |
| Progress.LiftsInOrder | app/progress.tsx:173-175 | filtering keeps the program order |
| Progress.AccessoriesWithData | app/progress.tsx:177-179 | the accessories kept are exactly those with a positive value |
| Progress.AccessoriesWithDataKeepsOrder | app/progress.tsx:177-179 | the kept ids are a subsequence of the history's ids, in their order |
| Progress.AccessoriesWithDataCounts | app/progress.tsx:177-179 | an id with a positive value is kept as often as it is listed, any other id not at all |
| Progress.AccessoriesWithDataNoDuplicates | app/progress.tsx:177-179 | ids listed once each are kept once each |
| Progress.AllAccessoryEntries | app/progress.tsx:167-168 | the flattened list holds exactly the logged accessory entries |
| Progress.FindAccessory | app/progress.tsx:167-169 | the first entry with the id, or none when no entry has it |
| Progress.GetExerciseName | app/progress.tsx:162-171 | bodyweight and the lifts get their display names; any other key gets the name of the first logged entry with that id when that name is non-empty, and otherwise the key |
| Progress.GetExerciseNameOfFirstEntry | app/progress.tsx:167-170 | for an accessory key, the shown name is that of the first logged entry with the id, or the key when that name is empty |

## Left out

- Rendering, styling, navigation, modals and theme code are not modelled: they decide no data.
- `formatTime` for negative seconds is not modelled; durations come from a timer.
- Plates.PlatesFitTheLoad: when the load above the bar is an odd number of hundredths, the first `Math.round` can round half a hundredth up, so the model proves only "at most a hundredth over" there.
- Plates.CalculatePlates: weights that are not whole hundredths, and floating-point error in the subtraction, are not modelled.
- Units.FormatWeight covers weights that are a whole number of hundredths, printed as JavaScript prints them. Other fractions and exponent notation are not modelled.
- `hashStringToColor`, `getExerciseColor` and `getPlateColor` are not modelled. They choose display colours only.
- Accessory ids that are equal to a lift key or to "bodyweight" would share a chart series in the source. The model gives them separate keys, and names ids only by their logged value.
- `hasBodyweightData` is not a separate member: it is `Progress.SomePositive` on the bodyweight series.
- AsyncStorage and file I/O are not modelled, along with their failures and the asynchronous alert callbacks:
  - `getReviewData` reads a parse failure as missing data;
  - the alert's answers are separate calls on the record, and a completion that arrives while an answer is pending is not modelled.
- `exportData`'s directory creation, file writing and sharing are left out, as are the file name stamp (`nowStamp`) and the ISO-date call. The export date is a parameter.
- JSON text, `JSON.parse` and `JSON.stringify` are abstracted. A backup is a `Json` value, and a parse failure is the `Unreadable` file.
- Backup.Import: its own contract states only that success needs a parsed file; what it writes is stated by the lemmas beside it.
- The `WorkoutContext` provider, the workout screen's progression and deload logic, and the tab layouts fall outside this core.
- `toggleCategory` in the accessories screen only toggles which panel is expanded, and is not modelled.
