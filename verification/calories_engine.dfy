/** The training engine of the two `spentcalories` packages, parameterised by
    the constants and checks in which the two copies differ: parse a
    `steps,activity,duration` line, compute distance and mean speed, compute
    running or walking calories, and assemble the report. Quantities are exact
    reals where Go uses float64. */
module CaloriesEngine {
  import opened Wrappers
  import opened Records
  import GoStrings
  import GoStrconv
  import GoTime

  const MetersInKm: real := 1000.0
  const MinutesInHour: real := 60.0

  /** What distinguishes one copy of the package from the other. */
  datatype Profile = Profile(
    stepLengthCoefficient: real,       // stride length per metre of height
    walkingCaloriesCoefficient: real,  // share of running calories burnt walking
    parserChecksSteps: bool,           // parseTraining rejects steps <= 0
    speedGuardsZeroHours: bool)        // meanSpeed also tests hours == 0

  predicate ValidProfile(p: Profile)
  {
    p.stepLengthCoefficient > 0.0 && p.walkingCaloriesCoefficient > 0.0
  }

  /** The activities `TrainingInfo` knows. */
  datatype Activity = Walking | Running

  /** The label spelling each activity in the input line. */
  function Label(a: Activity): string
  {
    match a
    case Walking => "Ходьба"
    case Running => "Бег"
  }

  /** The `switch` of `TrainingInfo`: an exact match against the two labels. */
  function ActivityNamed(name: string): (r: Option<Activity>)
    ensures r.Some? ==> Label(r.value) == name
    ensures r.None? ==> name != Label(Walking) && name != Label(Running)
  {
    if name == "Ходьба" then Some(Walking)
    else if name == "Бег" then Some(Running)
    else None
  }

  /** `parseTraining`: split on commas, require three parts, decode the
      steps (checking positivity when the profile says so), keep the label
      as it is, decode the duration. */
  function ParseTraining(p: Profile, data: string): (r: Result<Training, Error>)
    ensures |Fields(data)| != 3 ==> r == Err(WrongFieldCount)
    ensures r.Ok? ==>
      && |Fields(data)| == 3
      && GoStrconv.Atoi(Fields(data)[0]) == Some(r.value.steps)
      && r.value.activity == Fields(data)[1]
      && GoTime.ParseDuration(Fields(data)[2]) == Some(r.value.duration)
    ensures r.Ok? && p.parserChecksSteps ==> r.value.steps > 0
  {
    var parts := Fields(data);
    if |parts| != 3 then Err(WrongFieldCount)
    else match DecodeSteps(parts[0], p.parserChecksSteps)
      case Err(e) => Err(e)
      case Ok(steps) =>
        match DecodeDuration(parts[2])
        case Err(e) => Err(e)
        case Ok(duration) => Ok(Training(steps, parts[1], duration))
  }

  /** `distance`: steps times the stride (height times the coefficient), in
      kilometres. */
  function Distance(p: Profile, steps: int, height: real): real
  {
    var stepLength := height * p.stepLengthCoefficient;
    steps as real * stepLength / MetersInKm
  }

  /** `meanSpeed`: distance over hours, or 0 for a non-positive duration. */
  function MeanSpeed(p: Profile, steps: int, height: real, duration: int): (v: real)
    ensures duration <= 0 ==> v == 0.0
    ensures duration > 0 ==> v * GoTime.HoursOf(duration) == Distance(p, steps, height)
  {
    if duration <= 0 then 0.0
    else
      var hours := GoTime.HoursOf(duration);
      GoTime.HoursAndMinutes(duration);
      if p.speedGuardsZeroHours && hours == 0.0 then 0.0
      else Distance(p, steps, height) / hours
  }

  /** The guard shared by both calorie functions. */
  predicate ValidInputs(steps: int, weight: real, height: real, duration: int)
  {
    steps > 0 && weight > 0.0 && height > 0.0 && duration > 0
  }

  /** weight x speed x minutes / 60: the calories of a run. */
  function BaseCalories(p: Profile, steps: int, weight: real, height: real, duration: int): real
  {
    weight * MeanSpeed(p, steps, height, duration) * GoTime.MinutesOf(duration) / MinutesInHour
  }

  /** `RunningSpentCalories`. */
  function RunningSpentCalories(p: Profile, steps: int, weight: real, height: real, duration: int)
    : (r: Result<real, Error>)
    ensures r.Err? <==> !ValidInputs(steps, weight, height, duration)
    ensures r.Err? ==> r.error == InvalidParameters
    ensures r.Ok? ==> r.value == weight * Distance(p, steps, height)
  {
    if steps <= 0 || weight <= 0.0 || height <= 0.0 || duration <= 0 then Err(InvalidParameters)
    else
      CaloriesAreWeightTimesDistance(p, steps, weight, height, duration);
      Ok(BaseCalories(p, steps, weight, height, duration))
  }

  /** `WalkingSpentCalories`: the running formula scaled by the walking
      coefficient. */
  function WalkingSpentCalories(p: Profile, steps: int, weight: real, height: real, duration: int)
    : (r: Result<real, Error>)
    ensures r.Err? <==> !ValidInputs(steps, weight, height, duration)
    ensures r.Err? ==> r.error == InvalidParameters
    ensures r.Ok? ==> r.value == p.walkingCaloriesCoefficient * (weight * Distance(p, steps, height))
  {
    if steps <= 0 || weight <= 0.0 || height <= 0.0 || duration <= 0 then Err(InvalidParameters)
    else
      CaloriesAreWeightTimesDistance(p, steps, weight, height, duration);
      Ok(BaseCalories(p, steps, weight, height, duration) * p.walkingCaloriesCoefficient)
  }

  /** For a positive duration, speed x minutes / 60 cancels back to the
      distance, so the calories of a run are weight x distance. */
  lemma CaloriesAreWeightTimesDistance(p: Profile, steps: int, weight: real, height: real, duration: int)
    requires duration > 0
    ensures BaseCalories(p, steps, weight, height, duration) == weight * Distance(p, steps, height)
  {
  }

  /** The calorie functions pick the activity's formula. */
  function CaloriesFor(p: Profile, a: Activity, steps: int, weight: real, height: real, duration: int)
    : Result<real, Error>
  {
    match a
    case Walking => WalkingSpentCalories(p, steps, weight, height, duration)
    case Running => RunningSpentCalories(p, steps, weight, height, duration)
  }

  /** The values `TrainingInfo` renders with `%s` and `%.2f`. */
  datatype TrainingReport = TrainingReport(
    activity: string, hours: real, distanceKm: real, speedKmh: real, calories: real)

  /** `TrainingInfo`: parse, dispatch on the label, compute the calories,
      and report them with the distance and mean speed. */
  function TrainingInfo(p: Profile, data: string, weight: real, height: real)
    : (r: Result<TrainingReport, Error>)
    ensures ParseTraining(p, data).Err? ==> r == Err(ParseTraining(p, data).error)
    ensures ParseTraining(p, data).Ok? && ActivityNamed(ParseTraining(p, data).value.activity).None?
            ==> r == Err(UnknownActivity)
    ensures r.Ok? <==>
      && ParseTraining(p, data).Ok?
      && ActivityNamed(ParseTraining(p, data).value.activity).Some?
      && ValidInputs(ParseTraining(p, data).value.steps, weight, height,
                     ParseTraining(p, data).value.duration)
    ensures r.Err? && r.error == InvalidParameters ==>
      ParseTraining(p, data).Ok?
      && !ValidInputs(ParseTraining(p, data).value.steps, weight, height,
                      ParseTraining(p, data).value.duration)
    ensures && ParseTraining(p, data).Ok?
            && ActivityNamed(ParseTraining(p, data).value.activity).Some?
            && !ValidInputs(ParseTraining(p, data).value.steps, weight, height,
                            ParseTraining(p, data).value.duration)
            ==> r == Err(InvalidParameters)
  {
    match ParseTraining(p, data)
    case Err(e) => Err(e)
    case Ok(t) =>
      match ActivityNamed(t.activity)
      case None => Err(UnknownActivity)
      case Some(a) =>
        match CaloriesFor(p, a, t.steps, weight, height, t.duration)
        case Err(e) => Err(e)
        case Ok(calories) =>
          Ok(TrainingReport(t.activity, GoTime.HoursOf(t.duration),
                            Distance(p, t.steps, height),
                            MeanSpeed(p, t.steps, height, t.duration),
                            calories))
  }

  // ---------------------------------------------------------------------
  // Properties

  /** Distance is additive in the step count. */
  lemma DistanceAdditive(p: Profile, s1: int, s2: int, height: real)
    ensures Distance(p, s1 + s2, height) == Distance(p, s1, height) + Distance(p, s2, height)
  {
  }

  /** For a positive height and coefficient, every step adds distance. */
  lemma DistanceStrictlyIncreasing(p: Profile, s1: int, s2: int, height: real)
    requires ValidProfile(p) && height > 0.0
    ensures s1 < s2 <==> Distance(p, s1, height) < Distance(p, s2, height)
  {
  }

  /** Walking calories are running calories scaled by the walking
      coefficient, and both fail on the same inputs. */
  lemma WalkingIsScaledRunning(p: Profile, steps: int, weight: real, height: real, duration: int)
    ensures WalkingSpentCalories(p, steps, weight, height, duration).Ok?
        <==> RunningSpentCalories(p, steps, weight, height, duration).Ok?
    ensures WalkingSpentCalories(p, steps, weight, height, duration).Ok? ==>
      WalkingSpentCalories(p, steps, weight, height, duration).value
        == p.walkingCaloriesCoefficient * RunningSpentCalories(p, steps, weight, height, duration).value
  {
  }

  /** The `hours == 0` test of the profile that has one never fires: with
      the duration already known positive, the hours are positive too, so
      both profiles compute the same speed. */
  lemma ZeroHoursGuardUnreachable(p: Profile, steps: int, height: real, duration: int)
    ensures MeanSpeed(p, steps, height, duration)
         == MeanSpeed(p.(speedGuardsZeroHours := !p.speedGuardsZeroHours), steps, height, duration)
  {
  }

  /** Calories are positive whenever they are computed. */
  lemma CaloriesPositive(p: Profile, a: Activity, steps: int, weight: real, height: real, duration: int)
    requires ValidProfile(p)
    requires CaloriesFor(p, a, steps, weight, height, duration).Ok?
    ensures CaloriesFor(p, a, steps, weight, height, duration).value > 0.0
  {
  }

  /** Error precedence in `TrainingInfo`: a parse error is reported before
      an unknown activity, and an unknown activity before invalid
      parameters, whatever the weight and height. */
  lemma TrainingInfoPrecedence(p: Profile, data: string, weight: real, height: real)
    ensures ParseTraining(p, data).Err? ==>
      TrainingInfo(p, data, weight, height).Err?
      && TrainingInfo(p, data, weight, height).error in {WrongFieldCount, BadSteps, NonPositiveSteps, BadDuration}
    ensures ParseTraining(p, data).Ok? && ActivityNamed(ParseTraining(p, data).value.activity).None?
            ==> TrainingInfo(p, data, weight, height) == Err(UnknownActivity)
    ensures && ParseTraining(p, data).Ok?
            && ActivityNamed(ParseTraining(p, data).value.activity).Some?
            && !ValidInputs(ParseTraining(p, data).value.steps, weight, height,
                            ParseTraining(p, data).value.duration)
            ==> TrainingInfo(p, data, weight, height) == Err(InvalidParameters)
  {
  }

  /** Error precedence in `parseTraining`: the field count is tested first,
      then the step field, then the duration field. */
  lemma ParseTrainingPrecedence(p: Profile, data: string)
    ensures |Fields(data)| == 3 && DecodeSteps(Fields(data)[0], p.parserChecksSteps).Err? ==>
      ParseTraining(p, data) == Err(DecodeSteps(Fields(data)[0], p.parserChecksSteps).error)
    ensures |Fields(data)| == 3 && DecodeSteps(Fields(data)[0], p.parserChecksSteps).Ok?
            && DecodeDuration(Fields(data)[2]).Err? ==>
      ParseTraining(p, data) == Err(BadDuration)
  {
  }

  /** A successful report carries exactly the label, hours, distance,
      speed and calories computed from the parsed record. */
  lemma TrainingInfoReport(p: Profile, data: string, weight: real, height: real)
    ensures TrainingInfo(p, data, weight, height).Ok? ==>
            var t := ParseTraining(p, data).value;
            var rep := TrainingInfo(p, data, weight, height).value;
            && ActivityNamed(t.activity).Some?
            && rep.activity == t.activity
            && rep.hours == GoTime.HoursOf(t.duration)
            && rep.distanceKm == Distance(p, t.steps, height)
            && rep.speedKmh == MeanSpeed(p, t.steps, height, t.duration)
            && Ok(rep.calories) == CaloriesFor(p, ActivityNamed(t.activity).value, t.steps, weight, height, t.duration)
  {
  }

  /** The line `TrainingInfo` reads: steps, label and duration joined by
      commas. */
  function EncodeTraining(t: Training): string
  {
    GoStrconv.Itoa(t.steps) + [Separator] + t.activity + [Separator] + GoTime.DurationLiteral(t.duration)
  }

  /** Any record whose fields are representable survives a trip through its
      line: `ParseTraining` recovers it exactly. */
  lemma ParseEncodeTraining(p: Profile, t: Training)
    requires GoStrconv.InIntRange(t.steps) && (p.parserChecksSteps ==> t.steps > 0)
    requires Separator !in t.activity
    requires GoTime.IsDuration(t.duration)
    ensures ParseTraining(p, EncodeTraining(t)) == Ok(t)
  {
    var a := GoStrconv.Itoa(t.steps);
    var c := GoTime.DurationLiteral(t.duration);
    NoSeparatorInLiterals(t.steps, t.duration);
    GoStrings.SplitThree(a, t.activity, c, Separator);
    DecodeStepsItoa(t.steps, p.parserChecksSteps);
    DecodeDurationLiteral(t.duration);
  }

  /** A line assembled from a step field, a label and a duration field
      that decode on their own is parsed into exactly those values. */
  lemma ParseTrainingOfFields(p: Profile, a: string, b: string, c: string, steps: int, d: int)
    requires Separator !in a && Separator !in b && Separator !in c
    requires GoStrconv.Atoi(a) == Some(steps) && (p.parserChecksSteps ==> steps > 0)
    requires GoTime.ParseDuration(c) == Some(d)
    ensures ParseTraining(p, a + [Separator] + b + [Separator] + c) == Ok(Training(steps, b, d))
  {
    GoStrings.SplitThree(a, b, c, Separator);
  }

  /** The report of a parsed line whose label and inputs are accepted. */
  lemma TrainingInfoOfParsed(p: Profile, data: string, t: Training, a: Activity,
                             weight: real, height: real, calories: real)
    ensures (&& ParseTraining(p, data) == Ok(t)
             && ActivityNamed(t.activity) == Some(a)
             && CaloriesFor(p, a, t.steps, weight, height, t.duration) == Ok(calories)) ==>
      TrainingInfo(p, data, weight, height)
        == Ok(TrainingReport(t.activity, GoTime.HoursOf(t.duration), Distance(p, t.steps, height),
                             MeanSpeed(p, t.steps, height, t.duration), calories))
  {
  }

  /** A parser that checks positivity rejects a line whose step count is
      zero or negative, whatever its label and duration. */
  lemma ParseRejectsNonPositive(p: Profile, t: Training)
    requires p.parserChecksSteps
    requires GoStrconv.InIntRange(t.steps) && t.steps <= 0
    requires Separator !in t.activity
    ensures ParseTraining(p, EncodeTraining(t)) == Err(NonPositiveSteps)
  {
    var a := GoStrconv.Itoa(t.steps);
    var c := GoTime.DurationLiteral(t.duration);
    NoSeparatorInLiterals(t.steps, t.duration);
    GoStrings.SplitThree(a, t.activity, c, Separator);
    GoStrconv.AtoiItoa(t.steps);
  }

  /** `ParseTraining` succeeds exactly when the line has three fields, the
      first decodes as a step count the profile accepts, and the third as a
      duration. */
  lemma ParseTrainingSucceeds(p: Profile, data: string)
    ensures ParseTraining(p, data).Ok? <==>
      && GoStrings.Count(data, Separator) == 2
      && DecodeSteps(Fields(data)[0], p.parserChecksSteps).Ok?
      && DecodeDuration(Fields(data)[2]).Ok?
  {
  }
}
