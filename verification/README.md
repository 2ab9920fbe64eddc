# Fitness tracker: the training and day-steps engines

The fitness tracker reads short comma-separated records and reports what a
user did.

- A **training** line `steps,activity,duration` (for example
  `3456,Ходьба,3h00m`) is turned into a report. The report holds the
  activity, the duration in hours, the distance in kilometres, the mean
  speed in km/h and the calories burnt. The two activities are walking
  (`Ходьба`) and running (`Бег`).
- A **day-steps** line `steps,duration` (for example `678,0h50m`) is turned
  into a report of the steps, the distance and the walking calories.
  Any failure gives the empty report.

The repository holds this logic twice:

- The root packages `spentcalories` and `daysteps` use a stride of
  0.414 × height, a walking coefficient of 0.789 and a fixed day stride of
  0.65 m.
- The `internal/` packages use 0.45 × height, 0.8 and 0.7 m. Their
  checks also differ slightly.

The model has one parameterised engine per kind of line:

- `CaloriesEngine` covers the training line. Its `Profile` records the stride
  coefficient, the walking coefficient, whether the parser rejects
  non-positive step counts, and whether `meanSpeed` also tests for zero
  hours.
- `DayStepsEngine` covers the day-steps line. Its `DayProfile` records the
  stride, whether `DayActionInfo` repeats the `steps <= 0` test, and the
  calorie profile that `WalkingSpentCalories` comes from.

Each of the four source files becomes a small module holding its constants:
`InternalSpentCalories`, `SpentCalories`, `InternalDaySteps` and `DaySteps`.
These modules also hold the properties that are specific to that copy.

The Go library functions the engines call are modelled concretely:

- `GoStrings.Split` is `strings.Split` with a one-character separator.
- `GoStrconv.Atoi` accepts an optional sign and one or more ASCII digits,
  within the 64-bit range.
- `GoTime.ParseDuration` is `time.ParseDuration`. It covers the sign, the
  lone `0`, decimal fractions, all eight unit spellings, and overflow at
  `1<<63`. Go keeps the running total in a `uint64` and tests it against
  `1<<63` only after each addition. The model does the same, so two
  components of exactly `1<<63` nanoseconds wrap to a total of 0
  (`GoTime.WrappedTotal`).

Other modelling choices:

- Durations are integer nanoseconds.
- Distances, speeds and calories are exact `real`s.
- Each `return ..., err` site has its own kind in `Records.Error`.
- A failing `DayActionInfo` (the empty string) is `None`.
- `Samples` holds the entry point's sample lines and a few others.

What the code checks, and where:

- No field is trimmed before decoding.
- The root `parseTraining` has no `steps > 0` check.
- A zero or negative duration is not a parse error. The calorie guard
  rejects it as `InvalidParameters`.
- The activity label is checked by `TrainingInfo`, not by the parser.

`internal/daysteps/daysteps.go` calls `spentcalories.WalkingSpentCalories`
without importing a `spentcalories` package. The model takes it to mean its sibling
`internal/spentcalories` copy (coefficients 0.45 and 0.8).

## Model

| member | source | states |
|---|---|---|
| GoStrings.Split | spentcalories/spentcalories.go:19-22 | `strings.Split` on a comma gives exactly one more piece than there are commas, and no piece contains a comma |
| GoStrings.JoinSplit | internal/daysteps/daysteps.go:72-74 | splitting loses nothing: joining the pieces with the separator gives the line back |
| GoStrings.SplitJoin | internal/daysteps/daysteps.go:72-74 | splitting undoes joining for comma-free pieces |
| GoStrings.SplitThree | internal/spentcalories/spentcalories.go:20-25 | three comma-free fields joined by commas split back into exactly those three fields |
| GoStrings.SplitTwo | internal/daysteps/daysteps.go:17-22 | two comma-free fields joined by a comma split back into exactly those two fields |
| GoStrings.SplitSingleIff | spentcalories/spentcalories.go:19-22 | a line splits into a single field, the line itself, exactly when it has no comma |
| GoStrconv.Atoi | spentcalories/spentcalories.go:24-27 | `strconv.Atoi` accepts a value only if it is in the 64-bit range and the field starts with a digit or a sign; a negative value needs a leading `-` |
| GoStrconv.Decimal | spentcalories/spentcalories.go:24 | the decimal spelling of a natural number is non-empty, all digits, reads back as the number, and has no leading zero |
| GoStrconv.AtoiItoa | spentcalories/spentcalories.go:24-27 | `Atoi` reads back the decimal spelling of every 64-bit integer |
| GoStrconv.AtoiDigits | internal/daysteps/daysteps.go:25-28 | an unsigned run of digits in range is read as its decimal value |
| GoStrconv.AtoiNoTrim | internal/spentcalories/spentcalories.go:25-31 | the step field is not trimmed: a leading or trailing space makes `Atoi` fail |
| GoTime.ParseDuration | spentcalories/spentcalories.go:31-34 | `time.ParseDuration` only returns a signed 64-bit duration, only for a non-empty field, and a negative one only after a leading `-` |
| GoTime.ParseDurationLiteral | spentcalories/spentcalories.go:31-34 | every representable duration, written as nanoseconds with the unit `ns`, is read back exactly, negatives included |
| GoTime.WrappedTotal | spentcalories/spentcalories.go:31-34 | `time.ParseDuration`'s `uint64` total wraps: two components of `1<<63` nanoseconds read as a zero duration |
| GoTime.ParseDurationNoTrim | internal/spentcalories/spentcalories.go:37-40 | the duration field is not trimmed: a leading space is a syntax error |
| GoTime.OverflowCheck | daysteps/daysteps.go:31-34 | the parser's test `v > (1<<63)/unit`, made before multiplying, rejects exactly the values whose product with the unit exceeds `1<<63` |
| GoTime.DivPow10Quotient | daysteps/daysteps.go:31-34 | dropping `k` digits of a fraction one at a time is division by `10^k` |
| GoTime.HoursOf | internal/spentcalories/spentcalories.go:59 | `Duration.Hours()` is the exact number of hours: times an hour's nanoseconds it gives the duration back |
| GoTime.MinutesOf | internal/spentcalories/spentcalories.go:71 | `Duration.Minutes()` is the exact number of minutes: times a minute's nanoseconds it gives the duration back |
| GoTime.HoursAndMinutes | spentcalories/spentcalories.go:51-55 | minutes are sixty times hours, and the hours are positive exactly when the duration is |
| GoTime.TwoComponents | internal/spentcalories/spentcalories.go:37-40 | a duration written as two whole-number components is the sum of their nanoseconds |
| GoTime.ThreeHours | main.go:19 | the sample field `3h00m` is three hours |
| GoTime.FiftyMinutes | main.go:12 | the sample field `0h50m` is fifty minutes |
| Records.Fields | internal/spentcalories/spentcalories.go:20 | a line has one more field than commas, and no field contains a comma |
| Records.DecodeSteps | internal/spentcalories/spentcalories.go:28-34 | the step field is accepted iff `Atoi` accepts it and, where the copy checks, the count is positive; the error is `BadSteps` for a non-number and `NonPositiveSteps` otherwise |
| Records.DecodeDuration | internal/spentcalories/spentcalories.go:37-40 | the duration field is accepted iff `ParseDuration` accepts it, with exactly its value |
| CaloriesEngine.ActivityNamed | internal/spentcalories/spentcalories.go:104-111 | exactly the labels `Ходьба` and `Бег` are known, as walking and running; every other label is unknown |
| CaloriesEngine.ParseTraining | internal/spentcalories/spentcalories.go:19-43 | a line that does not split into three fields is `WrongFieldCount`; on success the steps are `Atoi` of field 0, positive when the copy checks, the activity is field 1 untouched, and the duration is `ParseDuration` of field 2 |
| CaloriesEngine.ParseTrainingSucceeds | spentcalories/spentcalories.go:18-37 | parsing succeeds iff the line has exactly two commas, the first field decodes as steps the copy accepts, and the third as a duration |
| CaloriesEngine.ParseEncodeTraining | spentcalories/spentcalories.go:18-37 | any record with representable fields and a comma-free label is recovered exactly from its line |
| CaloriesEngine.ParseRejectsNonPositive | internal/spentcalories/spentcalories.go:32-34 | a copy that checks positivity rejects a zero or negative step count with `NonPositiveSteps`, whatever the label and duration |
| CaloriesEngine.ParseTrainingOfFields | internal/spentcalories/spentcalories.go:19-43 | a line built from fields that decode on their own parses into exactly those values |
| CaloriesEngine.DistanceAdditive | internal/spentcalories/spentcalories.go:46-50 | distance is additive in the step count |
| CaloriesEngine.DistanceStrictlyIncreasing | spentcalories/spentcalories.go:39-43 | for a positive height, more steps means strictly more distance, and conversely |
| CaloriesEngine.MeanSpeed | internal/spentcalories/spentcalories.go:53-62 | the speed is 0 for a non-positive duration; otherwise speed × hours is the distance |
| CaloriesEngine.ZeroHoursGuardUnreachable | spentcalories/spentcalories.go:45-58 | the `hours == 0` test never fires after the `duration <= 0` test, so both copies compute the same speed |
| CaloriesEngine.RunningSpentCalories | internal/spentcalories/spentcalories.go:65-75 | running fails with `InvalidParameters` iff the steps, weight, height or duration is not positive; otherwise it is weight × distance |
| CaloriesEngine.WalkingSpentCalories | internal/spentcalories/spentcalories.go:78-90 | walking fails on the same inputs; otherwise it is the walking coefficient × weight × distance |
| CaloriesEngine.CaloriesAreWeightTimesDistance | spentcalories/spentcalories.go:65-69 | for a positive duration, weight × speed × minutes / 60 equals weight × distance |
| CaloriesEngine.WalkingIsScaledRunning | spentcalories/spentcalories.go:72-84 | walking calories are running calories times the walking coefficient, and both succeed on the same inputs |
| CaloriesEngine.CaloriesPositive | spentcalories/spentcalories.go:60-84 | calories that are computed are positive |
| CaloriesEngine.TrainingInfo | internal/spentcalories/spentcalories.go:93-122 | a parse error is passed on; a well-formed line with an unknown label is `UnknownActivity`; the report exists iff the line parses, the label is known and every input is positive; `InvalidParameters` exactly for a parsed line with a known label and a non-positive input |
| CaloriesEngine.TrainingInfoPrecedence | spentcalories/spentcalories.go:86-107 | a parse error comes before an unknown activity, which comes before invalid parameters, whatever the weight and height; a parsed line with a known label and a non-positive input is `InvalidParameters` |
| CaloriesEngine.ParseTrainingPrecedence | internal/spentcalories/spentcalories.go:19-43 | the field count is tested first, then the step field with its own error (`BadSteps` or `NonPositiveSteps`), then the duration field (`BadDuration`) |
| CaloriesEngine.TrainingInfoReport | spentcalories/spentcalories.go:109-115 | a report carries exactly the label, hours, distance, speed and calories computed from the parsed record |
| CaloriesEngine.TrainingInfoOfParsed | spentcalories/spentcalories.go:86-116 | the report of a parsed line with a known label and accepted inputs is assembled from the engine's values |
| DayStepsEngine.ParsePackage | internal/daysteps/daysteps.go:16-40 | a line that does not split into two fields is `WrongFieldCount`; on success the steps are `Atoi` of field 0 and positive, and the duration is `ParseDuration` of field 1 |
| DayStepsEngine.ParsePackagePrecedence | daysteps/daysteps.go:16-37 | the field count is tested first, then the step field, then the duration field |
| DayStepsEngine.ParseEncodeWalk | daysteps/daysteps.go:16-37 | any walk with a positive, representable step count and a representable duration is recovered exactly from its line |
| DayStepsEngine.ParseRejectsNonPositive | daysteps/daysteps.go:27-29 | a zero or negative step count is rejected with `NonPositiveSteps`, whatever the duration |
| DayStepsEngine.ParsePackageOfFields | daysteps/daysteps.go:16-37 | a line built from fields that decode on their own parses into exactly those values |
| DayStepsEngine.DayActionInfo | internal/daysteps/daysteps.go:43-69 | the report is empty on a parse error; it exists iff the line parses and every input is positive; it carries the parsed steps, the stride distance and exactly the walking calories of the copy's calorie profile |
| DayStepsEngine.WalkReport | daysteps/daysteps.go:46-56 | once parsed, a report exists iff the calorie guard passes, with the steps, the stride distance and the walking calories |
| DayStepsEngine.RedundantGuardUnreachable | internal/daysteps/daysteps.go:49-51 | the second `steps <= 0` test never fires, because the parser only returns positive counts: the report is the same with or without it |
| DayStepsEngine.DayDistanceStrictlyIncreasing | daysteps/daysteps.go:46-47 | for a positive stride, more steps means strictly more distance, and conversely |
| DayStepsEngine.DayActionInfoOfParsed | daysteps/daysteps.go:39-57 | the report of a parsed line whose calories are computed is assembled from the steps, the stride distance and those calories |
| Samples.TrainingLineParses | main.go:19-20 | `3456,Ходьба,3h00m` reads as 3456 steps of walking over three hours, under either parser |
| Samples.UnknownLabel | spentcalories/spentcalories.go:101-102 | a well-formed line labelled `Cycling` is an unknown training type in either copy |
| Samples.WalkLineParses | main.go:12-13 | `678,0h50m` reads as 678 steps over fifty minutes |
| Samples.NegativeWalkRejected | daysteps/daysteps.go:27-29 | `-5,1h` is rejected for its step count and gives the empty report in either copy |
| InternalSpentCalories.NonPositiveStepsRejected | internal/spentcalories/spentcalories.go:32-34 | this copy's parser rejects zero and negative step counts, so `TrainingInfo` reports `NonPositiveSteps` rather than invalid parameters |
| InternalSpentCalories.SampleTraining | internal/spentcalories/spentcalories.go:11-16 | with 0.45 and 0.8 the sample training is 2.7216 km at 0.9072 km/h and 152.4096 kcal |
| SpentCalories.ParserAcceptsNonPositiveSteps | spentcalories/spentcalories.go:24-36 | this copy's parser accepts zero and negative step counts; `TrainingInfo` then fails only through the calorie guard |
| SpentCalories.NonPositiveStepsRejected | spentcalories/spentcalories.go:96-107 | a parsed line with a non-positive step count never yields a report: it is `InvalidParameters` for a known label, `UnknownActivity` otherwise |
| SpentCalories.SampleTraining | main.go:19-20 | the entry point's training is 2.503872 km at 0.834624 km/h and 138.28885056 kcal before rounding |
| InternalDaySteps.SplitData | internal/daysteps/daysteps.go:72-74 | `splitData` loses nothing: joining its parts with commas gives the line back, and there is one more part than commas |
| InternalDaySteps.SampleWalk | internal/daysteps/daysteps.go:10-13 | with the 0.7 m stride the sample walk is 0.4746 km and 29.8998 kcal |
| DaySteps.SampleWalk | main.go:12-13 | the entry point's walk is 0.4407 km and 27.12958353 kcal before rounding |

## Left out

- Printing is left out. This covers `fmt.Println`, `println` and `log.Println` in `TrainingInfo` and `DayActionInfo`. These are output side effects; only the returned values are modelled.
- The text of error messages is left out. Each error site is one `Records.Error` kind.
- The `%.2f` rendering in `fmt.Sprintf` is left out. Reports are records of the exact values before rounding.
- float64 arithmetic is left out: distances, speeds and calories are exact reals.
  - The model has no rounding, NaN or infinity.
  - `float64(steps)` is taken as exact, though float64 is exact only up to 2^53.
- `GoTime.ParseDuration` computes the fraction of a component (as in `1.5h`) as the exact quotient rounded toward zero. Go goes through float64 here and can differ by rounding.
- `main.go` is not modelled beyond its two sample lines, which appear in the sample lemmas. It only prints.
- Two files do not compile as written, and the model treats their logic as if the imports were present.
  - `internal/spentcalories/spentcalories.go` lacks the `strconv` import.
  - `internal/daysteps/daysteps.go` lacks the `fmt`, `strings` and `spentcalories` imports.
- `CaloriesEngine.Distance` and `DayStepsEngine.DayDistance` have no contract of their own. Their properties are stated by `DistanceAdditive`, `DistanceStrictlyIncreasing` and `DayDistanceStrictlyIncreasing`.
