/** The day-steps engine of the two `daysteps` packages, parameterised by the
    fixed stride, the calorie profile it delegates to, and whether it repeats
    the `steps <= 0` test after parsing. Every failure yields the empty
    report, written `None` here. */
module DayStepsEngine {
  import opened Wrappers
  import opened Records
  import GoStrings
  import GoStrconv
  import GoTime
  import CaloriesEngine

  /** What distinguishes one copy of the package from the other. */
  datatype DayProfile = DayProfile(
    stepLength: real,                 // fixed stride in metres
    redundantStepsGuard: bool,        // DayActionInfo re-tests steps <= 0
    calories: CaloriesEngine.Profile) // the package WalkingSpentCalories comes from

  /** `parsePackage`: split on commas, require two parts, decode a positive
      step count, decode the duration. */
  function ParsePackage(data: string): (r: Result<Walk, Error>)
    ensures |Fields(data)| != 2 ==> r == Err(WrongFieldCount)
    ensures r.Ok? ==>
      && |Fields(data)| == 2
      && GoStrconv.Atoi(Fields(data)[0]) == Some(r.value.steps)
      && r.value.steps > 0
      && GoTime.ParseDuration(Fields(data)[1]) == Some(r.value.duration)
  {
    var parts := Fields(data);
    if |parts| != 2 then Err(WrongFieldCount)
    else match DecodeSteps(parts[0], true)
      case Err(e) => Err(e)
      case Ok(steps) =>
        match DecodeDuration(parts[1])
        case Err(e) => Err(e)
        case Ok(duration) => Ok(Walk(steps, duration))
  }

  /** Distance of a walk with the fixed stride, in kilometres. */
  function DayDistance(stepLength: real, steps: int): real
  {
    steps as real * stepLength / CaloriesEngine.MetersInKm
  }

  /** The values `DayActionInfo` renders with `%d` and `%.2f`. */
  datatype DayReport = DayReport(steps: int, distanceKm: real, calories: real)

  /** `DayActionInfo`: `None` stands for the empty string returned on every
      failure; a report is never empty, so the two cannot be confused. */
  function DayActionInfo(dp: DayProfile, data: string, weight: real, height: real)
    : (r: Option<DayReport>)
    ensures ParsePackage(data).Err? ==> r == None
    ensures r.Some? <==>
      && ParsePackage(data).Ok?
      && CaloriesEngine.ValidInputs(ParsePackage(data).value.steps, weight, height,
                                    ParsePackage(data).value.duration)
    ensures r.Some? ==>
      && r.value.steps == ParsePackage(data).value.steps
      && r.value.distanceKm == DayDistance(dp.stepLength, r.value.steps)
      && Ok(r.value.calories) == CaloriesEngine.WalkingSpentCalories(
           dp.calories, r.value.steps, weight, height, ParsePackage(data).value.duration)
  {
    match ParsePackage(data)
    case Err(_) => None
    case Ok(w) =>
      if dp.redundantStepsGuard && w.steps <= 0 then None
      else WalkReport(dp.stepLength, dp.calories, w, weight, height)
  }

  /** The report of a parsed walk, once the guard (if any) has passed. */
  function WalkReport(stepLength: real, p: CaloriesEngine.Profile, w: Walk, weight: real, height: real)
    : (r: Option<DayReport>)
    ensures r.Some? <==> CaloriesEngine.ValidInputs(w.steps, weight, height, w.duration)
    ensures r.Some? ==>
      && r.value.steps == w.steps
      && r.value.distanceKm == DayDistance(stepLength, w.steps)
      && Ok(r.value.calories) == CaloriesEngine.WalkingSpentCalories(p, w.steps, weight, height, w.duration)
  {
    var distanceKm := DayDistance(stepLength, w.steps);
    match CaloriesEngine.WalkingSpentCalories(p, w.steps, weight, height, w.duration)
    case Err(_) => None
    case Ok(calories) => Some(DayReport(w.steps, distanceKm, calories))
  }

  // ---------------------------------------------------------------------
  // Properties

  /** The repeated `steps <= 0` test never fires, because `ParsePackage`
      only returns positive step counts: the guard changes nothing. */
  lemma RedundantGuardUnreachable(dp: DayProfile, data: string, weight: real, height: real)
    ensures DayActionInfo(dp, data, weight, height)
         == DayActionInfo(dp.(redundantStepsGuard := !dp.redundantStepsGuard), data, weight, height)
  {
  }

  /** For a positive stride, every step adds distance. */
  lemma DayDistanceStrictlyIncreasing(stepLength: real, s1: int, s2: int)
    requires stepLength > 0.0
    ensures s1 < s2 <==> DayDistance(stepLength, s1) < DayDistance(stepLength, s2)
  {
  }

  /** Error precedence in `ParsePackage`: the field count is tested first,
      then the step field, then the duration field. */
  lemma ParsePackagePrecedence(data: string)
    ensures |Fields(data)| == 2 && DecodeSteps(Fields(data)[0], true).Err? ==>
      ParsePackage(data) == Err(DecodeSteps(Fields(data)[0], true).error)
    ensures |Fields(data)| == 2 && DecodeSteps(Fields(data)[0], true).Ok?
            && DecodeDuration(Fields(data)[1]).Err? ==>
      ParsePackage(data) == Err(BadDuration)
  {
  }

  /** A line assembled from a step field and a duration field that decode
      on their own is parsed into exactly those values. */
  lemma ParsePackageOfFields(a: string, c: string, steps: int, d: int)
    requires Separator !in a && Separator !in c
    requires GoStrconv.Atoi(a) == Some(steps) && steps > 0
    requires GoTime.ParseDuration(c) == Some(d)
    ensures ParsePackage(a + [Separator] + c) == Ok(Walk(steps, d))
  {
    GoStrings.SplitTwo(a, c, Separator);
  }

  /** The report of a parsed line whose inputs the calorie guard accepts. */
  lemma DayActionInfoOfParsed(dp: DayProfile, data: string, w: Walk,
                              weight: real, height: real, calories: real)
    ensures (&& ParsePackage(data) == Ok(w)
             && CaloriesEngine.WalkingSpentCalories(dp.calories, w.steps, weight, height, w.duration) == Ok(calories)) ==>
      DayActionInfo(dp, data, weight, height)
        == Some(DayReport(w.steps, DayDistance(dp.stepLength, w.steps), calories))
  {
  }

  /** The line `DayActionInfo` reads: steps and duration joined by a comma. */
  function EncodeWalk(w: Walk): string
  {
    GoStrconv.Itoa(w.steps) + [Separator] + GoTime.DurationLiteral(w.duration)
  }

  /** Any walk with a positive, representable step count and a
      representable duration survives a trip through its line. */
  lemma ParseEncodeWalk(w: Walk)
    requires GoStrconv.InIntRange(w.steps) && w.steps > 0
    requires GoTime.IsDuration(w.duration)
    ensures ParsePackage(EncodeWalk(w)) == Ok(w)
  {
    var a := GoStrconv.Itoa(w.steps);
    var c := GoTime.DurationLiteral(w.duration);
    NoSeparatorInLiterals(w.steps, w.duration);
    GoStrings.SplitTwo(a, c, Separator);
    DecodeStepsItoa(w.steps, true);
    DecodeDurationLiteral(w.duration);
  }

  /** A line whose step count is zero or negative is rejected with the
      positivity error, whatever its duration. */
  lemma ParseRejectsNonPositive(w: Walk)
    requires GoStrconv.InIntRange(w.steps) && w.steps <= 0
    ensures ParsePackage(EncodeWalk(w)) == Err(NonPositiveSteps)
  {
    var a := GoStrconv.Itoa(w.steps);
    var c := GoTime.DurationLiteral(w.duration);
    NoSeparatorInLiterals(w.steps, w.duration);
    GoStrings.SplitTwo(a, c, Separator);
    GoStrconv.AtoiItoa(w.steps);
  }
}
