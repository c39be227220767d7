# strong-progress analytics core in Dafny

strong-progress reads workout logs that the Strong and Hevy apps export as
CSV and turns them into training analytics. This project models the pure
core of that pipeline and proves properties of the model:

- **Normalisation.** Strong and Hevy rows become uniform raw sets.
  Rest timers, warm-ups and empty sets are dropped, and numeric fields
  fall back to zero. Module `Normalisers`.
- **Grouping.** Sets are grouped into lifts keyed `exercise | workout`,
  each lift holding its days in first-seen order. Module `LiftGrouping`
  covers all three copies of `groupByLift`. It is built on a generic
  insertion-ordered group-by, module `Grouping`, which models
  JavaScript's string-keyed object.
- **Progression analysis.** The engine compares set against set and day
  against day with a rep tolerance. It labels each lift with a progress
  status (`Progressing`, `Plateaued`, …) and an activity status
  (`Active`, `History`, `New`), and sorts lifts by status. Modules
  `SetComparison`, `Progression` and `AppProgression`. Sorting is a
  stable insertion sort, module `Sorting`.
- **The older CSV analyser** `parseCSVToJSON`, module `LegacyParse`. It
  reads the CSV columns of each record and cleans the exercise and
  workout names (module `LegacyNames`, with JavaScript's `trim` written
  out over the ECMAScript white space). It then groups by
  `exercise|workout` and by date, and compares consecutive dates. It
  derives a status from the performance history and filters and sorts
  the groups.
- **Weekly volume.** Module `MuscleGroups` attributes muscle groups to a
  lift name by keyword scoring over the rule table, module
  `LiftDefinitions`. As written, that scoring throws on every call (see
  Findings); the model follows the evidently intended loop. Module
  `WeekIntervals` cuts a date range into weeks. Module
  `VolumeCalculation` counts straight and drop sets per ISO week and lift
  within a range, scanning forward or backward. Module `VolumeRange`
  derives the range from the stored settings.

Modelling conventions:

- Dates are day numbers: `int`, with day 0 the Unix epoch in UTC.
- "Now" is a parameter `nowMillis`: milliseconds since the epoch.
- Numbers are `real`.
- A missing value (`undefined`, `NaN`) is `None`.
- Library calls are parameters of the operations that use them:
  `parseFloat`, `parseInt`, dayjs date parsing, `isoWeek`,
  `toLowerCase`, `trim` in the muscle-group scoring, `RegExp.test` and
  the keyword weights.
- JavaScript objects used as dictionaries are insertion-ordered
  sequences of entries where key order is observable (lifts, days,
  groups). They are Dafny maps where it is not (weekly volume).

## Model

| member | source | states |
|---|---|---|
| SetComparison.CompareSetPerformance | src/engine/progression.ts:19-46 | `NotSure` exactly when the reps differ by more than the tolerance (0.55) times the previous reps; otherwise `NoChange`/`Increase`/`Decrease` exactly when the loads are equal/the current set outperforms (more weight, or same weight and more reps)/the previous set outperforms |
| SetComparison.ZeroPreviousRepsNotSure | src/engine/progression.ts:21-30 | a previous set of zero reps against any set with reps is always `NotSure` |
| SetComparison.CompareSelf | src/engine/progression.ts:21-46 | a set compared with itself is `NoChange` (for a positive tolerance and non-negative reps) |
| SetComparison.CompareSwapped | src/engine/progression.ts:21-46 | swapping the sets turns an `Increase` into a `Decrease` or into `NotSure`, never into another `Increase` |
| SetComparison.LengthVerdict | src/engine/progression.ts:53-65 | when all compared sets agree, equal set counts give `NoChange`, more current sets `Increase`, fewer `Decrease` |
| SetComparison.Walk | src/engine/progression.ts:53-72 | the set-by-set walk yields the verdict of the first disagreeing position, or the length verdict when all compared positions agree |
| SetComparison.ComputePerformanceChange | src/engine/progression.ts:48-73 | an empty day on either side is `NotSure`; otherwise the first set pair that does not compare `NoChange` decides, and if all agree the set counts decide |
| SetComparison.NoChangeIffAllAgree | src/engine/progression.ts:48-73 | two days compare `NoChange` exactly when they have the same number of sets and every pair compares `NoChange` |
| SetComparison.NotSureCause | src/engine/progression.ts:48-73 | a `NotSure` between non-empty days comes from a set pair whose reps are too different, all earlier pairs agreeing |
| SetComparison.FirstDisagreement | src/engine/progression.ts:54-69 | locates the first position at which the two days' sets stop comparing `NoChange` |
| Progression.CountOf | src/engine/progression.ts:99-101 | the count is the number of days carrying the given change (`filter(is(c)).length`), zero exactly when no day has it |
| Progression.ComputeProgressStatus | src/engine/progression.ts:75-114 | the label for every input, by the rules in priority order: fewer than 4 days is exactly `NotSure`; two increases exactly `Progressing`; two decreases give `Regressing`; then three unchanged days give `Plateaued`; then with no increase in the last 5 the vote gives `Regressing` if a decrease is present and `Plateaued` otherwise; `Struggling` and `AtRisk` are each stated as an if-and-only-if |
| Progression.ProgressStatusWindow | src/engine/progression.ts:75-114 | the status depends only on the last 5 days |
| Progression.ProgressStatusIgnoresOlderDays | src/engine/progression.ts:75-114 | prefixing older days to a history of at least 5 days does not change its status |
| Progression.GetActivityStatus | src/engine/progression.ts:116-128 | `History` needs at least one day; `New` means not `History` and fewer than 4 days |
| Progression.ActivityBoundary | src/engine/progression.ts:116-128 | in whole days: a lift is `History` exactly when its last day is more than 15 days before today, or exactly 15 days before today and it is past midnight |
| Progression.RecentLiftIsNotHistory | src/engine/progression.ts:116-128 | a lift trained within the last 14 days is never `History` |
| Progression.StatusRank | src/engine/progression.ts:130-137 | the sort rank of a status lies in 1..6 |
| Progression.StatusRankInjective | src/engine/progression.ts:130-137 | distinct statuses have distinct ranks |
| Progression.ByStatusTotalPreorder | src/engine/progression.ts:139-143 | the status comparator is a total preorder, so the sort is well defined |
| Progression.CompareProgressionStatus | src/engine/progression.ts:139-143 | zero exactly for equal statuses, negative exactly when the first ranks earlier; `Regressing` sorts before and `NotSure` after every other status |
| Progression.WithChanges | src/engine/progression.ts:145-159 | the first day gets `NoChange` and every later day the comparison with the day before it; nothing else about the days changes |
| Progression.Annotate | src/engine/progression.ts:145-159 | annotating a lift keeps its name and session names; its days get their performance changes, and its status and activity are computed from those annotated days |
| Progression.AnnotateAll | src/engine/progression.ts:145-159 | every grouped lift is annotated, in order |
| Progression.GroupedLiftsHaveDays | src/engine/parsing.ts:79-101 | every lift of `groupByLift` has at least one day |
| Progression.AnnotatedLifts | src/engine/progression.ts:145-159 | one annotated lift per grouped lift, each the annotation of that lift |
| Progression.AnalyzeProgressiveOverload | src/engine/progression.ts:145-159 | the result is a permutation of the annotated lifts |
| Progression.AnalyzeProgressiveOverloadOrdered | src/engine/progression.ts:139-159 | the result is ordered by status rank, and lifts of equal status keep their grouping order (the sort is stable) |
| Progression.AnalyzedLiftsCarryStatus | src/engine/progression.ts:145-159 | every returned lift is the annotation of a grouped lift, and its status and activity are those of its own annotated days |
| LiftGrouping.MakeLiftName | src/engine/parsing.ts:30 | the key is the exercise name, the separator (space, vertical bar, space), then the workout name |
| LiftGrouping.NewDay | src/engine/parsing.ts:46-56 | a new day carries the date of the set that opens it, no sets and no performance change; its notes come from that set: both notes with `""` as undefined in the engine, only the workout note (as `note`) in the app copies, which the older one keeps raw |
| LiftGrouping.ProjectSet | src/engine/parsing.ts:79-101 | the stored set keeps mark, weight, reps and RPE of the raw set; its notes are dropped by the engine, `notes || undefined` in app parsing and raw in the older app copy |
| LiftGrouping.KeepWithDays | src/engine/parsing.ts:79-101 | the filter never adds lifts and keeps everything when every lift has days |
| LiftGrouping.GroupRaw | src/engine/parsing.ts:79-91 | the dictionary's keys are the distinct lift keys of the sets, in first-seen order |
| LiftGrouping.ToHistories | src/engine/parsing.ts:79-101 | one history per dictionary entry, in order |
| LiftGrouping.GroupByLift | src/engine/parsing.ts:79-101 | no sets give no lifts |
| LiftGrouping.ToAppLifts | src/app/engine/parsing.ts:79-100 | one app lift per dictionary entry, in order |
| LiftGrouping.AppGroupByLift | src/app/engine/parsing.ts:79-100 | no sets give no lifts |
| LiftGrouping.DayOfGroup | src/engine/parsing.ts:46-56 | a day built from the sets of one date holds exactly those sets, in order |
| LiftGrouping.LiftNameOfGroup | src/engine/parsing.ts:32-44 | a lift is named after the first set of its key |
| LiftGrouping.SessionNamesOfGroup | src/engine/parsing.ts:79-101 | session names are the distinct workout names of the lift's sets in first-seen order |
| LiftGrouping.LiftDaysOfGroup | src/engine/parsing.ts:79-101 | a lift's days are the date grouping of its sets |
| LiftGrouping.LiftOfGroup | src/engine/parsing.ts:32-56 | a lift built from the sets of one key has that key's name, session names and days |
| LiftGrouping.GroupRawCharacterised | src/engine/parsing.ts:79-101 | the dictionary has one entry per distinct key in first-seen order, each built from exactly the sets with that key |
| LiftGrouping.FilterIsNoOp | src/engine/parsing.ts:79-101 | the filter on empty lifts never removes anything |
| LiftGrouping.GroupRawSize | src/engine/parsing.ts:79-101 | every input set lands in exactly one day of exactly one lift |
| LiftGrouping.TotalSetsHistories | src/engine/parsing.ts:79-101 | converting the dictionary to histories keeps the set count |
| LiftGrouping.DaysOfGroup | src/engine/parsing.ts:46-56 | the days of a lift follow first-seen date order, each holding exactly that date's sets |
| LiftGrouping.EntryOfLift | src/engine/parsing.ts:79-101 | the i-th dictionary entry is built from exactly the sets of the i-th distinct key |
| LiftGrouping.HistoryOfLift | src/engine/parsing.ts:79-101 | the i-th history is described by the sets of the i-th distinct key alone |
| LiftGrouping.GroupByLiftCharacterised | src/engine/parsing.ts:79-101 | `groupByLift` returns one lift per distinct key in first-seen order, each built from exactly its sets, and loses or duplicates no set |
| LiftGrouping.AppLiftsCharacterised | src/app/engine/parsing.ts:27-48 | for every copy of the algorithm, the lifts without their extra fields are one per distinct key in first-seen order, each with exactly that key's days |
| LiftGrouping.AppGroupByLiftCharacterised | src/app/engine/parsing.ts:79-100 | the app copy groups into one lift per key, each named by the key, with exactly that key's days |
| LiftGrouping.LiftNameDeterminesWorkout | src/engine/parsing.ts:30 | for exercise names without `\|`, equal keys mean equal exercise and workout names |
| LiftGrouping.SessionNamesSingleton | src/engine/parsing.ts:32-44 | for exercise names without `\|`, every lift has exactly one session name |
| LiftGrouping.SameKeySameWorkout | src/engine/parsing.ts:30-44 | for such names, all sets of a key share the workout name |
| LiftGrouping.LiftNameCollision | src/engine/parsing.ts:30 | the key is not injective: two sets with different workout names can share a lift |
| AppProgression.LatestDate | src/app/engine/progression.ts:111-135 | the latest date is the date of some day and no day is later |
| AppProgression.Bucket | src/app/engine/progression.ts:119-134 | History exactly when the lift has days and every day's midnight is before the threshold; Active only with at least four days, New only with fewer |
| AppProgression.AddTo | src/app/engine/progression.ts:124-134 | the bucket of the status grows by the lift at its end, the other two are unchanged |
| AppProgression.SortIntoBuckets | src/app/engine/progression.ts:111-135 | each bucket holds exactly the lifts of its status, in input order |
| AppProgression.BucketAgreesWithEngine | src/app/engine/progression.ts:111-135 | on chronological days the app's bucket equals the engine's activity status |
| AppProgression.BucketsHoldTheirStatus | src/app/engine/progression.ts:111-135 | every lift in a bucket has that bucket's status |
| AppProgression.AddToAddsOne | src/app/engine/progression.ts:111-135 | adding a lift grows exactly one bucket by that lift |
| AppProgression.BucketsPartition | src/app/engine/progression.ts:111-135 | together the buckets hold exactly the input lifts |
| AppProgression.AnalyzeProgressiveOverload | src/app/engine/progression.ts:99-137 | no sets give no lifts |
| AppProgression.AnalyzeProgressiveOverloadCharacterised | src/app/engine/progression.ts:99-137 | one lift per distinct key in first-seen order, each holding exactly its sets' days |
| AppProgression.AppCopiesGroupAlike | src/app/engine/progression.ts:99-109 | this copy and src/app/engine/parsing.ts produce the same number of lifts, with the same names, the same number of days and the same date on each day |
| LegacyParse.CompareExerciseSets | src/utils/parse.ts:169-212 | `NotSure` without previous reps, or when the weight changed and the reps left the ±50% window; otherwise `Increase`, `Decrease` or `NoChange` exactly by which set outperforms |
| LegacyParse.LegacyAgreesWithAppWithinRange | src/utils/parse.ts:169-212 | within the rep window the older comparison equals the app's 0.5-tolerance one |
| LegacyParse.LegacyJudgesOutsideWindowAtSameWeight | src/utils/parse.ts:169-212 | at equal weight and reps outside the window the older comparison still decides while the app's says `NotSure` |
| LegacyParse.OverallFrom | src/utils/parse.ts:145-163 | the loop is `NoChange` exactly when all remaining positions up to the shorter day compare `NoChange` |
| LegacyParse.OverallFromDecidedBy | src/utils/parse.ts:145-163 | the first position that does not compare `NoChange` gives the overall verdict |
| LegacyParse.ComparePerformance | src/utils/parse.ts:101-166 | an empty day gives `NoChange` twice; the top sets give the top verdict, and the overall verdict equals it unless it is `NoChange` |
| LegacyParse.OverallFromBelowMin | src/utils/parse.ts:145-163 | the overall verdict depends only on positions below the shorter length |
| LegacyParse.ExtraSetsIgnored | src/utils/parse.ts:101-166 | sets beyond the shorter day are never looked at |
| LegacyParse.Occurrences | src/utils/parse.ts:67-98 | the count is zero exactly when absent and full exactly when every entry matches |
| LegacyParse.DetermineProgressStatus | src/utils/parse.ts:67-98 | the label for every history, by the rules in priority order: `Progressing` exactly when the last two entries are increases; two decreases give `Regressing`; then three `NoChange` entries give `Plateaued`; then with no increase in the last 5 the vote gives `Regressing` if a decrease is present and `Plateaued` otherwise; `NeedsAttention` exactly for the empty history and the mixed ones with an increase |
| LegacyParse.PlateauedOnPipelineHistory | src/utils/parse.ts:348-365 | on a history without `NoChange`, as the pipeline builds it, the "last three unchanged" branch never fires |
| LegacyParse.FilterRows | src/utils/parse.ts:284-287 | no kept row is a rest timer or has zero reps, distance and seconds |
| LegacyParse.FilterRowsIsOneFilter | src/utils/parse.ts:284-287 | the two filters are one order-preserving filter by their conjunction |
| LegacyParse.RowsOfDay | src/utils/parse.ts:304-309 | a date group holds its rows in input order |
| LegacyParse.DatesOfGroup | src/utils/parse.ts:292-310 | a key's date groups are the date grouping of its rows |
| LegacyParse.GroupRowsCharacterised | src/utils/parse.ts:292-310 | each key's date groups hold, for every distinct day in first-seen order, exactly that day's rows in order |
| LegacyParse.GroupRows | src/utils/parse.ts:292-310 | the groups' keys are the distinct `exercise\|workout` keys of the rows, in first-seen order |
| LegacyParse.IndexOf | src/utils/parse.ts:318 | the first position of the separator, or the length when absent |
| LegacyParse.Split | src/utils/parse.ts:318 | splitting yields at least one part |
| LegacyParse.SplitJoin | src/utils/parse.ts:318 | joining the parts with the separator gives the string back, and no part contains the separator |
| LegacyParse.SplitAtFirst | src/utils/parse.ts:318 | a separator-free prefix is the first part |
| LegacyParse.LabelOfKey | src/utils/parse.ts:374 | for names without `\|` the label is `exercise (workout)` |
| LegacyParse.EvaluateDays | src/utils/parse.ts:334-362 | one evaluated day per sorted date, carrying that date and its rows |
| LegacyParse.EvaluateDaysComparisons | src/utils/parse.ts:334-362 | the i-th day's comparison looks at that date and the one before it only, the first being `NoChange` |
| LegacyParse.CompareDatesOfReordering | src/utils/parse.ts:108-133 | when the per-day sort only reorders, a day without rows on either side compares `NoChange`, and otherwise the top verdict compares a row of the day with a row of the day before |
| LegacyParse.History | src/utils/parse.ts:347-350 | the performance history never contains `NoChange` |
| LegacyParse.SortedDates | src/utils/parse.ts:325 | the dates, ascending, as a permutation of the group's dates |
| LegacyParse.SortedDatesStrict | src/utils/parse.ts:325 | distinct dates sort strictly increasing |
| LegacyParse.GroupDays | src/utils/parse.ts:322-362 | one evaluated day per date, ascending, a permutation of the group's dates |
| LegacyParse.GroupLast | src/utils/parse.ts:367 | the last performed date is one of the group's dates and none is later |
| LegacyParse.GroupActive | src/utils/parse.ts:370-371 | active exactly when the last date is after today minus 14 days |
| LegacyParse.GroupLastIsLastDay | src/utils/parse.ts:367 | the last evaluated day is the last performed date |
| LegacyParse.EvaluateGroup | src/utils/parse.ts:317-380 | one evaluated day per date in ascending order; the label from the key; the status of the days' history; the last performed date is the last day's and the latest of the group; active exactly when that date is after today minus 14 days |
| LegacyParse.IsActiveBoundary | src/utils/parse.ts:313-314 | the millisecond test is the day test of `GroupActive` |
| LegacyParse.Priority | src/utils/parse.ts:471-484 | the priority lies in 1..4 |
| LegacyParse.CompareGroups | src/utils/parse.ts:401-414 | an active group sorts before an inactive one; two active groups by priority, two inactive ones by later last date first, ties exactly at equal keys |
| LegacyParse.CompareGroupsAntisymmetric | src/utils/parse.ts:401-414 | swapping the groups negates the comparison |
| LegacyParse.GroupLeTotalPreorder | src/utils/parse.ts:401-414 | the group comparator is a total preorder |
| LegacyParse.GroupsHaveDates | src/utils/parse.ts:292-310 | every key has at least one date group |
| LegacyParse.EvaluatedGroups | src/utils/parse.ts:317-380 | the i-th result is `EvaluateGroup` of the i-th key's date groups, which are never empty |
| LegacyParse.FinishGroups | src/utils/parse.ts:383-414 | the result is a permutation of the groups of more than 3 rows |
| LegacyParse.FinishGroupsOrdered | src/utils/parse.ts:383-414 | only groups of more than 3 rows, active before inactive, active ones by priority, inactive ones by non-increasing last date |
| LegacyParse.ParseRows | src/utils/parse.ts:284-414 | the result is a permutation of the evaluated groups of more than 3 rows |
| LegacyNames.SkipSpaces | src/utils/parse.ts:234 | from a start index, the first position that does not hold ECMAScript white space: everything skipped is white space |
| LegacyNames.BackOverSpaces | src/utils/parse.ts:234 | from an end index down to a floor, the first end not preceded by white space: everything passed over is white space |
| LegacyNames.Trim | src/utils/parse.ts:234 | `trim()`: the result is a slice of the input with only white space before and after it, and it neither starts nor ends with white space |
| LegacyNames.TrimUnique | src/utils/parse.ts:234 | any non-white-space-bounded core between two runs of white space is exactly what `trim()` returns |
| LegacyNames.StripQuotes | src/utils/parse.ts:234 | `replaceAll('"', '')`: no quote is left, and every other character of the input is kept; StripQuotesConcat and StripQuotesChar pin order and multiplicity |
| LegacyNames.StripQuotesConcat | src/utils/parse.ts:234 | stripping quotes distributes over concatenation, so characters keep their order and multiplicity |
| LegacyNames.StripQuotesChar | src/utils/parse.ts:234 | a single character is removed exactly when it is a double quote |
| LegacyNames.CleanSurrounded | src/utils/parse.ts:243-246 | quotes and white space around a clean core are exactly what quote removal and trimming take away |
| LegacyNames.NormalizeWorkoutName | src/utils/parse.ts:232-240 | the workout name without quotes and surrounding white space, with "Pull Copy" read as "Pull": the result is "Pull" exactly when the cleaned name is "Pull" or "Pull Copy", and is never "Pull Copy" |
| LegacyNames.NormalizeExerciseName | src/utils/parse.ts:243-246 | the exercise name is `Clean(name)`: quotes removed, then surrounding white space (CleanSurrounded), and a second cleaning leaves it unchanged |
| LegacyNames.NormalizeWorkoutNameIdempotent | src/utils/parse.ts:232-240 | normalising a normalised workout name changes nothing |
| LegacyNames.PullCopyIsPull | src/utils/parse.ts:236-238 | "Pull Copy" between any quotes and white space normalises to "Pull" |
| LegacyParse.NormaliseNames | src/utils/parse.ts:267-281 | the row mapping normalises both names and leaves every other field as it is |
| LegacyParse.NormaliseNamesIdempotent | src/utils/parse.ts:267-281 | normalising a normalised row changes nothing |
| LegacyParse.PullCopyJoinsPull | src/utils/parse.ts:232-240 | rows of "Pull Copy" and "Pull" for the same exercise share their `exercise\|workout` key after mapping |
| LegacyParse.NormaliseAll | src/utils/parse.ts:267-281 | every mapped row has names without quotes or surrounding white space, and no workout named "Pull Copy" |
| LegacyParse.ParseRecords | src/utils/parse.ts:267-414 | the groups of more than 3 rows, evaluated from the rows with normalised names |
| LegacyParse.ParseRecordsIdempotent | src/utils/parse.ts:267-281 | running the pipeline on rows whose names are already normalised gives the same groups |
| LegacyParse.ReadRecord | src/utils/parse.ts:267-281 | the names, date text and notes as read, the day of the date part, the numbers through `\|\| 0`, and the RPE absent exactly when empty, unparseable or zero |
| LegacyParse.ReadRecordAgreesWithEngine | src/utils/parse.ts:267-281 | the older analyser reads day, set order, numbers and RPE exactly as the engine's Strong normaliser does |
| LegacyParse.ReadAll | src/utils/parse.ts:267-281 | one row per record, in order, each read from its record |
| LegacyParse.MappedRecords | src/utils/parse.ts:267-281 | each mapped row is its record read, with both names normalised and nothing else changed |
| LegacyParse.ParseCsv | src/utils/parse.ts:267-414 | from the records as text: the groups of more than 3 rows, evaluated from the mapped records |
| Normalisers.FloatOr0 | src/engine/parsing/strong-app.ts:26 | `parseFloat(x) \|\| 0`: the parsed number, or 0 when unparseable |
| Normalisers.IntOr0 | src/engine/parsing/strong-app.ts:27 | `parseInt(x, 10) \|\| 0`: the parsed integer, or 0 when unparseable |
| Normalisers.Rpe | src/engine/parsing/strong-app.ts:32 | undefined exactly when empty, unparseable or zero; otherwise the parsed value |
| Normalisers.FirstWord | src/engine/parsing/strong-app.ts:22 | the text before the first space: a prefix without spaces, followed by a space if shorter |
| Normalisers.QuoteToUndefined | src/engine/parsing/strong-app.ts:30-31 | undefined exactly for a lone double quote, otherwise the text |
| Normalisers.StrongToRawSet | src/engine/parsing/strong-app.ts:21-33 | the day of the date part; names and set order as read; numbers through `\|\| 0`; a lone-quote note undefined; RPE absent exactly when empty, unparseable or zero |
| Normalisers.MapStrongAppData | src/engine/parsing/strong-app.ts:19-37 | no kept set is a rest timer, a warm-up or empty; each kept set comes from an input row, and every converted row passing the filter is kept |
| Normalisers.StrongPreservesOrder | src/engine/parsing/strong-app.ts:19-37 | the mapping distributes over concatenation, so it keeps input order |
| Normalisers.StrongDateIsFirstWord | src/engine/parsing/strong-app.ts:22-25 | the date is the parsed first word of `Date`; the mark is `Set Order` |
| Normalisers.HevyWeight | src/engine/parsing/heavy-app.ts:38 | kilograms when that column is present, else non-empty pounds, else 0 |
| Normalisers.HevyToRawSet | src/engine/parsing/heavy-app.ts:36-53 | the day of the start time; title and exercise title as names; a warm-up marked "W", any other set by its index; empty notes undefined; RPE as for Strong |
| Normalisers.HevySourceRow | src/engine/parsing/heavy-app.ts:29-53 | a converted row comes from a kept input row, and its mark is that row's set index |
| Normalisers.MapHevyAppData | src/engine/parsing/heavy-app.ts:29-56 | at most as many sets as rows, each converted from a non-warm-up row with work, its mark being the set index |
| Normalisers.KeptRowPassesWorkTest | src/engine/parsing/heavy-app.ts:31-56 | a row passing the first filter passes the second exactly when its set index is not "W" |
| Normalisers.HevySecondFilterOnlyDropsW | src/engine/parsing/heavy-app.ts:29-56 | the second filter acts only on the mark "W"; its work test never removes anything |
| Normalisers.HevySecondFilterRedundant | src/engine/parsing/heavy-app.ts:29-56 | without a set index "W" the second filter removes nothing |
| Normalisers.HevyPreservesOrder | src/engine/parsing/heavy-app.ts:29-56 | the mapping distributes over concatenation |
| Normalisers.HevyDropsWarmups | src/engine/parsing/heavy-app.ts:31-35 | every kept set has work and no warm-up row survives |
| Records.OrUndefined | src/engine/parsing/heavy-app.ts:49-50 | undefined exactly for an absent or empty text, otherwise the text |
| LiftDefinitions.LabelIndex | src/engine/volume/lift-definitions.ts:3-30 | every label has its position in the declared order |
| LiftDefinitions.LabelsDeclaredOnce | src/engine/volume/lift-definitions.ts:3-30 | 26 labels, each declared exactly once |
| LiftDefinitions.RulesFollowLabelOrder | src/engine/volume/lift-definitions.ts:39-349 | the rules come in label order, one per label |
| LiftDefinitions.LabelTextsDistinct | src/engine/volume/lift-definitions.ts:3-30 | distinct labels have distinct texts |
| LiftDefinitions.EveryRuleHasKeywords | src/engine/volume/lift-definitions.ts:39-349 | no rule has an empty keyword list |
| LiftDefinitions.OnlyDeadliftLacksPrimary | src/engine/volume/lift-definitions.ts:323-332 | only the deadlift rule has no primary muscle group |
| LiftDefinitions.PressRules | src/engine/volume/lift-definitions.ts:39-349 | exactly four rules carry the keyword `press`: chest compounds, overhead presses, quad compounds and close-grip bench |
| MuscleGroups.ScoreKeywords | src/engine/volume/muscle-groups.ts:43-51 | never more matched keywords than keywords |
| MuscleGroups.ScoreKeywordsIsFilter | src/engine/volume/muscle-groups.ts:43-51 | the matched keywords are the matching keywords in rule order, and the score is the sum of their weights |
| MuscleGroups.FreshCertainty | src/engine/volume/muscle-groups.ts:67-72 | certainty 0 below the minimum score 2, between 0.8 and 1 at or above it, and 1 exactly above 3 |
| MuscleGroups.Fresh | src/engine/volume/muscle-groups.ts:58-75 | a new best takes the rule's label, score and matches; its muscle groups only at or above the minimum score, otherwise Unknown with a "not enough score" comment |
| MuscleGroups.Degrade | src/engine/volume/muscle-groups.ts:53-56 | a tie sets the certainty to exactly the smaller of the old certainty less 0.1 and 0.8 |
| MuscleGroups.Step | src/engine/volume/muscle-groups.ts:53-75 | the running maximum becomes the larger score; a higher score starts a fresh best; a positive tie adds one comment and degrades the certainty, changing nothing else; otherwise the best is kept |
| MuscleGroups.Scan | src/engine/volume/muscle-groups.ts:38-76 | the running maximum is non-negative, bounds every score, and when positive is attained by some rule and is the best's score |
| MuscleGroups.MaxScore | src/engine/volume/muscle-groups.ts:58-59 | the highest score seen: non-negative, bounds every score, attained when positive |
| MuscleGroups.FirstAt | src/engine/volume/muscle-groups.ts:58 | the first rule reaching a score |
| MuscleGroups.ScanIsExpected | src/engine/volume/muscle-groups.ts:25-78 | the rule loop yields the first best-scoring rule's attribution, with one tie comment and one certainty degradation per later rule of equal score, and tracks the maximum score |
| MuscleGroups.ScoredRules | src/engine/volume/muscle-groups.ts:38 | every rule is scored once, in table order |
| MuscleGroups.GetAffectedMuscleGroups | src/engine/volume/muscle-groups.ts:21-79 | the attribution is the reference attribution of the scored rules and its score the maximum |
| MuscleGroups.OnlyNormalisedNameMatters | src/engine/volume/muscle-groups.ts:36 | names that lower-case and trim alike get the same attribution |
| MuscleGroups.EarliestBestRuleWins | src/engine/volume/muscle-groups.ts:58-75 | with a positive maximum the source rule is the first rule reaching it |
| MuscleGroups.TiesAreLaterRules | src/engine/volume/muscle-groups.ts:53-56 | every tie comment names a later rule scoring the maximum |
| MuscleGroups.TieSource | src/engine/volume/muscle-groups.ts:53-56 | locates the later rule behind a tie comment |
| MuscleGroups.NoMatchKeepsInitial | src/engine/volume/muscle-groups.ts:25-33 | when no rule scores, the initial Unknown attribution is returned |
| MuscleGroups.TieOnWeakMatchGoesNegative | src/engine/volume/muscle-groups.ts:53-75 | two rules tying at score 1 leave the certainty at -0.1 |
| MuscleGroups.TestAsWritten | src/engine/volume/muscle-groups.ts:43-46 | the keyword test as written throws exactly when the destructured `keyword` is undefined |
| MuscleGroups.ScoreKeywordsAsWritten | src/engine/volume/muscle-groups.ts:43-51 | the inner loop as written throws exactly when the rule has a keyword |
| MuscleGroups.ScanAsWritten | src/engine/volume/muscle-groups.ts:38-76 | the rule loop as written throws exactly when some rule has a keyword |
| MuscleGroups.GetAffectedMuscleGroupsAsWritten | src/engine/volume/muscle-groups.ts:21-79 | the function as written throws exactly when some rule of the table has a keyword |
| MuscleGroups.AsWrittenAlwaysThrows | src/engine/volume/muscle-groups.ts:43-46 | the function as written throws a `TypeError` for every lift name |
| WeekIntervals.GetWeeks | src/engine/volume/week-intervals.ts:10-28 | no weeks for an unparseable bound; otherwise ceil((to-from+1)/7) weeks, the i-th starting 7i days after `from` and ending 6 days later |
| WeekIntervals.Contiguous | src/engine/volume/week-intervals.ts:17-24 | each week starts the day after the previous one ends |
| WeekIntervals.CoversRange | src/engine/volume/week-intervals.ts:10-28 | the last week contains `to`, and every day of the range lies in exactly one week |
| WeekIntervals.SingleDay | src/engine/volume/week-intervals.ts:10-28 | a one-day range gives exactly one week, starting that day |
| VolumeRange.VolumeDateRange | src/components/data/atoms/volume.ts:35-49 | `Before` ends the range on the selected day, any other direction starts it there; the range spans 7 days per selected week |
| VolumeRange.DefaultRange | src/components/data/atoms/volume.ts:21-49 | by default the range is the 28 days ending today |
| VolumeRange.RangeSplitsIntoWholeWeeks | src/components/data/atoms/volume.ts:35-49 | cutting the range into weeks gives exactly the selected number of whole weeks |
| VolumeCalculation.Bump | src/engine/volume/volume-calculation.ts:77-81 | a set marked "D" adds one drop set, any other one straight set |
| VolumeCalculation.Add | src/engine/volume/volume-calculation.ts:68-81 | counting a set raises the total by one |
| VolumeCalculation.AddCell | src/engine/volume/volume-calculation.ts:69-81 | counting a set bumps only its own week and lift cell, creating the entries it needs |
| VolumeCalculation.AddCommutes | src/engine/volume/volume-calculation.ts:68-81 | the order in which two sets are counted does not matter |
| VolumeCalculation.TallyBackIsTally | src/engine/volume/volume-calculation.ts:44-82 | counting back to front gives the same result as front to back |
| VolumeCalculation.TallyCounts | src/engine/volume/volume-calculation.ts:68-81 | the total is the number of sets; each cell counts exactly its week-and-lift's straight and drop sets; a cell exists exactly when it has a set |
| VolumeCalculation.AddKeepsTotal | src/engine/volume/volume-calculation.ts:68-81 | counting a set raises the sum over all cells by one |
| VolumeCalculation.TallyTotalIsSum | src/engine/volume/volume-calculation.ts:68-87 | `totalSets` equals the sum of all cells |
| VolumeCalculation.CutForward | src/engine/volume/volume-calculation.ts:54-57 | the forward scan stops at the first set after `to` |
| VolumeCalculation.CutBackward | src/engine/volume/volume-calculation.ts:58-61 | the backward scan stops at the last set before `from` |
| VolumeCalculation.DiffMidnights | src/engine/volume/volume-calculation.ts:39-41 | the day difference of two midnights is the difference of the day numbers |
| VolumeCalculation.EndDiff | src/engine/volume/volume-calculation.ts:35-41 | the day shortcut equals dayjs's truncated day difference from the last set's midnight to the end of `to` |
| VolumeCalculation.ChooseMode | src/engine/volume/volume-calculation.ts:39-41 | forward exactly when, in dayjs day differences, the first set is nearer the start of the range than the end of the range is to the last set |
| VolumeCalculation.ScanForward | src/engine/volume/volume-calculation.ts:49-82 | the forward loop counts the in-range sets before the first set after `to` |
| VolumeCalculation.ScanBackward | src/engine/volume/volume-calculation.ts:49-82 | the backward loop counts the in-range sets after the last set before `from` |
| VolumeCalculation.CalculateWeeklyVolume | src/engine/volume/volume-calculation.ts:25-88 | empty input or an empty range gives no volume; each mode counts the in-range sets up to its break; on date-sorted input the result counts exactly the in-range sets |
| VolumeCalculation.SortedCutForward | src/engine/volume/volume-calculation.ts:54-57 | on date-sorted input the forward break loses no in-range set |
| VolumeCalculation.SortedCutBackward | src/engine/volume/volume-calculation.ts:58-61 | on date-sorted input the backward break loses no in-range set |
| VolumeCalculation.DirectionIrrelevant | src/engine/volume/volume-calculation.ts:40-46 | on date-sorted input both scan directions give the same volume |
| Grouping.GroupAllIsGrouping | src/engine/parsing.ts:32-56 | the ensure-entry pattern yields one entry per distinct key in first-seen order, each accumulated from exactly that key's items |
| Grouping.GroupAllSize | src/engine/parsing.ts:79-101 | grouping keeps the number of items |
| Grouping.EntryKeysDistinct | src/engine/parsing.ts:32-44 | no key occurs twice |
| Sorting.SortBy | src/engine/progression.ts:139-159 | sorting permutes its input |
| Sorting.SortBySorted | src/engine/progression.ts:139-159 | the result is ordered by the comparator |
| Sorting.SortByStable | src/engine/progression.ts:139-159 | elements the comparator ties keep their relative order |
| Sorting.SortByLastIsGreatest | src/utils/parse.ts:325 | the last element after sorting is a greatest one |

## Left out

- Reading files, CSV parsing, local storage, the React pages and atoms
  other than the date range, and the muscle-volume UI are not modelled.
  They are I/O or presentation.
- Numbers are exact `real`s and integers are unbounded. IEEE-754
  rounding, `NaN` propagation and `Infinity` are not modelled.
- `parseFloat`, `parseInt`, dayjs parsing and formatting, `isoWeek`,
  `toLowerCase`, `trim`, `RegExp.test` and the keyword weights are
  parameters, not definitions. Their JavaScript semantics are outside
  the model.
- The system clock is the parameter `nowMillis`, and dates are UTC day
  numbers. Time zones and daylight saving time are not modelled.
- LegacyParse.ComparePerformance: the per-day sort of sets (src/utils/parse.ts:117-128) is a parameter `order`. The pipeline's contracts hold for any function of a day's rows. Only `LegacyParse.CompareDatesOfReordering` assumes that `order` reorders, as every array sort does. The comparator itself (the `"F"` cases and `parseInt`) is not modelled.
- LegacyParse.ParseCsv: `parseFloat`, `parseInt` and the day of a date text are parameters (`Normalisers.Parsers`). The rows are grouped by the day number of the `Date` column's date part, not by its text; the two agree when the day parser is one-to-one on the date texts of the export.
- WeekIntervals.GetWeeks: the display label (`'ll'` format, src/engine/volume/week-intervals.ts:21) is not modelled.
- VolumeCalculation.CalculateWeeklyVolume: the week key `Week N` is the ISO week number itself. As in the source, sets of the same ISO week from different years share a key. The key order of the weekly objects is not modelled (they are maps).
- VolumeCalculation.CalculateWeeklyVolume: a set date dayjs cannot parse is not modelled. Every date is a day number.
- MuscleGroups.GetAffectedMuscleGroups: models the evidently intended loop (see Findings), which reads a weight for each keyword. The table declares none, so the weights are a parameter of the model, as are lower-casing, trimming and regex tests.
- MuscleGroups.GetAffectedMuscleGroups: the per-lift override table (`AffectedMuscleOverrides`) is only declared in the source and is not applied.
- Progression.ComputeProgressStatus: the statuses `Struggling` and `AtRisk` are missing from `src/types/index.ts`. The model follows src/engine/progression.ts, which uses them.
- AppProgression.SortIntoBuckets: the buckets are computed and then discarded by the source (it returns only the lifts). The model keeps them so that their contract can be stated.
- LegacyParse.EvaluateGroup: requires a group with at least one date. Every group the pipeline builds has one (`LegacyParse.GroupsHaveDates`), so the empty-group branches at src/utils/parse.ts:367 and 370 are unreachable and are not modelled.
- LiftGrouping.SessionNamesSingleton: proved only for exercise names without `|`. `LiftGrouping.LiftNameCollision` shows that other names can merge two workouts into one lift.
- LegacyParse.LabelOfKey: proved only for names without `|`. For other names the label takes the first two `|`-separated parts, which `LegacyParse.Label` computes.
- Normalisers.MapHevyAppData: the second filter is not fully redundant. It also drops rows whose `set_index` is literally "W" (`Normalisers.HevySecondFilterOnlyDropsW`).
- Normalisers.MapHevyAppData: the weight columns are text. A weight given as a number is not modelled.
- The object-key quirks of JavaScript dictionaries (keys such as `__proto__`, integer-like keys listed first) are not modelled. Keys keep first-seen order.

## Findings

| source | as written | input that shows it | evidently intended | confidence | as-written member | corrected member |
|---|---|---|---|---|---|---|
| src/engine/volume/muscle-groups.ts:43-46 | the loop destructures `{keyword, weight}` from each entry of `rule.keywords`, but the table (src/engine/volume/lift-definitions.ts:34, 43) stores bare strings and regular expressions, so `keyword` is undefined and `keyword.test(liftName)` throws a `TypeError` | any lift name, e.g. "neck curl": the first rule's first keyword, `'neck'`, already throws | each keyword is tested and, when it matches, adds its weight and its text | not executed | MuscleGroups.AsWrittenAlwaysThrows | MuscleGroups.ScanIsExpected |
