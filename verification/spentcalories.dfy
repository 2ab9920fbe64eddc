/** The root `spentcalories` package: stride 0.414 x height, walking
    coefficient 0.789, a parser that accepts any step count `Atoi` accepts,
    and a `meanSpeed` that also tests for zero hours. */
module SpentCalories {
  import opened Wrappers
  import opened Records
  import GoStrconv
  import GoTime
  import E = CaloriesEngine
  import Samples

  const StepLengthCoefficient: real := 0.414
  const WalkingCaloriesCoefficient: real := 0.789

  const Config: E.Profile := E.Profile(
    StepLengthCoefficient, WalkingCaloriesCoefficient,
    parserChecksSteps := false, speedGuardsZeroHours := true)

  /** `parseTraining` here accepts zero and negative step counts; only the
      guard of the calorie functions turns them away. */
  lemma ParserAcceptsNonPositiveSteps(t: Training, weight: real, height: real)
    requires GoStrconv.InIntRange(t.steps) && t.steps <= 0
    requires Separator !in t.activity
    requires GoTime.IsDuration(t.duration)
    ensures E.ParseTraining(Config, E.EncodeTraining(t)) == Ok(t)
    ensures E.ActivityNamed(t.activity).Some? ==>
      E.TrainingInfo(Config, E.EncodeTraining(t), weight, height) == Err(InvalidParameters)
  {
    E.ParseEncodeTraining(Config, t);
  }

  /** Whatever the weight and height, `TrainingInfo` never reports a
      training with a non-positive step count: the line is rejected by the
      activity switch or by the calorie guard. */
  lemma NonPositiveStepsRejected(data: string, weight: real, height: real)
    requires E.ParseTraining(Config, data).Ok? && E.ParseTraining(Config, data).value.steps <= 0
    ensures E.TrainingInfo(Config, data, weight, height).Err?
    ensures E.TrainingInfo(Config, data, weight, height).error
         == (if E.ActivityNamed(E.ParseTraining(Config, data).value.activity).Some?
             then InvalidParameters else UnknownActivity)
  {
  }

  /** The training line of the program's entry point: 3456 steps walked in
      three hours by a 70 kg, 1.75 m user cover 2.503872 km at
      0.834624 km/h and burn 138.28885056 kcal, before rounding to two
      decimals. */
  lemma SampleTraining()
    ensures E.TrainingInfo(Config, "3456,Ходьба,3h00m", 70.0, 1.75)
         == Ok(E.TrainingReport("Ходьба", 3.0, 2.503872, 0.834624, 138.28885056))
  {
    Samples.TrainingLineParses(Config);
    SampleFigures(3 * GoTime.Hour);
    E.TrainingInfoOfParsed(Config, "3456,Ходьба,3h00m", Training(3456, "Ходьба", 3 * GoTime.Hour),
                           E.Walking, 70.0, 1.75, 138.28885056);
  }

  lemma SampleFigures(d: int)
    requires d == 3 * GoTime.Hour
    ensures GoTime.HoursOf(d) == 3.0
    ensures E.Distance(Config, 3456, 1.75) == 2.503872
    ensures E.MeanSpeed(Config, 3456, 1.75, d) == 0.834624
    ensures E.WalkingSpentCalories(Config, 3456, 70.0, 1.75, d) == Ok(138.28885056)
  {
  }
}
