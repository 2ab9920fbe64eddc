/** The root `daysteps` package: a 0.65 m stride, no second `steps <= 0`
    test, and walking calories from the root `spentcalories` copy. */
module DaySteps {
  import opened Wrappers
  import opened Records
  import GoTime
  import D = DayStepsEngine
  import CaloriesEngine
  import SpentCalories
  import Samples

  const StepLength: real := 0.65

  const Config: D.DayProfile := D.DayProfile(
    StepLength, redundantStepsGuard := false, calories := SpentCalories.Config)

  /** The walk line of the program's entry point: 678 steps in fifty
      minutes by a 70 kg, 1.75 m user cover 0.4407 km and burn
      27.12958353 kcal, before rounding to two decimals. */
  lemma SampleWalk()
    ensures D.DayActionInfo(Config, "678,0h50m", 70.0, 1.75) == Some(D.DayReport(678, 0.4407, 27.12958353))
  {
    Samples.WalkLineParses();
    SampleFigures(50 * GoTime.Minute);
    D.DayActionInfoOfParsed(Config, "678,0h50m", Walk(678, 50 * GoTime.Minute), 70.0, 1.75, 27.12958353);
  }

  lemma SampleFigures(d: int)
    requires d == 50 * GoTime.Minute
    ensures D.DayDistance(StepLength, 678) == 0.4407
    ensures CaloriesEngine.WalkingSpentCalories(SpentCalories.Config, 678, 70.0, 1.75, d)
         == Ok(27.12958353)
  {
  }
}
