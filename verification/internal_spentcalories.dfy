/** The `internal/spentcalories` package: stride 0.45 x height, walking
    coefficient 0.8, a parser that rejects non-positive step counts, and a
    `meanSpeed` without the zero-hours test. */
module InternalSpentCalories {
  import opened Wrappers
  import opened Records
  import GoStrconv
  import GoTime
  import E = CaloriesEngine
  import Samples

  const StepLengthCoefficient: real := 0.45
  const WalkingCaloriesCoefficient: real := 0.8

  const Config: E.Profile := E.Profile(
    StepLengthCoefficient, WalkingCaloriesCoefficient,
    parserChecksSteps := true, speedGuardsZeroHours := false)

  /** `parseTraining` here turns away zero and negative step counts before
      looking at the duration, so `TrainingInfo` reports the parser's
      error, not the calorie guard's. */
  lemma NonPositiveStepsRejected(t: Training, weight: real, height: real)
    requires GoStrconv.InIntRange(t.steps) && t.steps <= 0
    requires Separator !in t.activity
    ensures E.ParseTraining(Config, E.EncodeTraining(t)) == Err(NonPositiveSteps)
    ensures E.TrainingInfo(Config, E.EncodeTraining(t), weight, height) == Err(NonPositiveSteps)
  {
    E.ParseRejectsNonPositive(Config, t);
  }

  /** The training line of the program's entry point read by this copy:
      2.7216 km at 0.9072 km/h and 152.4096 kcal, before rounding. */
  lemma SampleTraining()
    ensures E.TrainingInfo(Config, "3456,Ходьба,3h00m", 70.0, 1.75)
         == Ok(E.TrainingReport("Ходьба", 3.0, 2.7216, 0.9072, 152.4096))
  {
    Samples.TrainingLineParses(Config);
    SampleFigures(3 * GoTime.Hour);
    E.TrainingInfoOfParsed(Config, "3456,Ходьба,3h00m", Training(3456, "Ходьба", 3 * GoTime.Hour),
                           E.Walking, 70.0, 1.75, 152.4096);
  }

  lemma SampleFigures(d: int)
    requires d == 3 * GoTime.Hour
    ensures GoTime.HoursOf(d) == 3.0
    ensures E.Distance(Config, 3456, 1.75) == 2.7216
    ensures E.MeanSpeed(Config, 3456, 1.75, d) == 0.9072
    ensures E.WalkingSpentCalories(Config, 3456, 70.0, 1.75, d) == Ok(152.4096)
  {
  }
}
