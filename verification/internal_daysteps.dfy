/** The `internal/daysteps` package: a 0.7 m stride, a `DayActionInfo` that
    repeats the `steps <= 0` test after parsing, and walking calories from
    the `internal/spentcalories` copy. */
module InternalDaySteps {
  import opened Wrappers
  import opened Records
  import GoStrings
  import GoTime
  import D = DayStepsEngine
  import CaloriesEngine
  import InternalSpentCalories
  import Samples

  const StepLength: real := 0.7

  const Config: D.DayProfile := D.DayProfile(
    StepLength, redundantStepsGuard := true, calories := InternalSpentCalories.Config)

  /** `splitData`: the comma split, which loses nothing: joining the parts
      with commas gives the line back. */
  function SplitData(data: string): (parts: seq<string>)
    ensures GoStrings.Join(parts, Separator) == data
    ensures |parts| == GoStrings.Count(data, Separator) + 1
    ensures forall i :: 0 <= i < |parts| ==> Separator !in parts[i]
  {
    GoStrings.JoinSplit(data, Separator);
    Fields(data)
  }

  /** The walk line of the program's entry point read by this copy:
      0.4746 km and 29.8998 kcal, before rounding. */
  lemma SampleWalk()
    ensures D.DayActionInfo(Config, "678,0h50m", 70.0, 1.75) == Some(D.DayReport(678, 0.4746, 29.8998))
  {
    Samples.WalkLineParses();
    SampleFigures(50 * GoTime.Minute);
    D.DayActionInfoOfParsed(Config, "678,0h50m", Walk(678, 50 * GoTime.Minute), 70.0, 1.75, 29.8998);
  }

  lemma SampleFigures(d: int)
    requires d == 50 * GoTime.Minute
    ensures D.DayDistance(StepLength, 678) == 0.4746
    ensures CaloriesEngine.WalkingSpentCalories(InternalSpentCalories.Config, 678, 70.0, 1.75, d)
         == Ok(29.8998)
  {
  }
}
