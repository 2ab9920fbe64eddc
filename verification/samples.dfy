/** The input lines of the program's entry point and a few others, and how
    the parsers of either copy read them. */
module Samples {
  import opened Wrappers
  import opened Records
  import GoStrings
  import GoStrconv
  import GoTime
  import CaloriesEngine
  import DayStepsEngine

  lemma TrainingLineFields()
    ensures "3456" + [Separator] + "Ходьба" + [Separator] + "3h00m" == "3456,Ходьба,3h00m"
    ensures Separator !in "3456" && Separator !in "Ходьба" && Separator !in "3h00m"
  {
  }

  lemma TrainingStepsField()
    ensures GoStrconv.Atoi("3456") == Some(3456)
  {
    assert "3456"[..3] == "345" && "345"[..2] == "34" && "34"[..1] == "3";
    GoStrconv.AtoiDigits("3456", 3456);
  }

  /** The training line `3456,Ходьба,3h00m` reads as 3456 steps of walking
      over three hours, whichever parser reads it. */
  lemma TrainingLineParses(p: CaloriesEngine.Profile)
    ensures CaloriesEngine.ParseTraining(p, "3456,Ходьба,3h00m")
         == Ok(Training(3456, "Ходьба", 3 * GoTime.Hour))
  {
    TrainingLineFields();
    TrainingStepsField();
    GoTime.ThreeHours();
    CaloriesEngine.ParseTrainingOfFields(p, "3456", "Ходьба", "3h00m", 3456, 3 * GoTime.Hour);
  }

  lemma UnknownLineFields()
    ensures "100" + [Separator] + "Cycling" + [Separator] + "1h" == "100,Cycling,1h"
    ensures Separator !in "100" && Separator !in "Cycling" && Separator !in "1h"
    ensures GoStrconv.Atoi("100") == Some(100)
  {
    assert "100"[..2] == "10" && "10"[..1] == "1";
    GoStrconv.AtoiDigits("100", 100);
  }

  /** A well-formed line whose label is neither of the two known ones is
      an unknown training type, whatever the copy, weight and height. */
  lemma UnknownLabel(p: CaloriesEngine.Profile, weight: real, height: real)
    ensures CaloriesEngine.TrainingInfo(p, "100,Cycling,1h", weight, height) == Err(UnknownActivity)
  {
    UnknownLineFields();
    GoTime.OneHour();
    CaloriesEngine.ParseTrainingOfFields(p, "100", "Cycling", "1h", 100, GoTime.Hour);
  }

  lemma WalkLineFields()
    ensures "678" + [Separator] + "0h50m" == "678,0h50m"
    ensures Separator !in "678" && Separator !in "0h50m"
    ensures GoStrconv.Atoi("678") == Some(678)
  {
    assert "678"[..2] == "67" && "67"[..1] == "6";
    GoStrconv.AtoiDigits("678", 678);
  }

  /** The walk line `678,0h50m` reads as 678 steps over fifty minutes. */
  lemma WalkLineParses()
    ensures DayStepsEngine.ParsePackage("678,0h50m") == Ok(Walk(678, 50 * GoTime.Minute))
  {
    WalkLineFields();
    GoTime.FiftyMinutes();
    DayStepsEngine.ParsePackageOfFields("678", "0h50m", 678, 50 * GoTime.Minute);
  }

  lemma NegativeLineFields()
    ensures "-5" + [Separator] + "1h" == "-5,1h"
    ensures Separator !in "-5" && Separator !in "1h"
    ensures GoStrconv.Atoi("-5") == Some(-5)
  {
    assert "-5"[1..] == "5";
    assert GoStrconv.DigitsValue("5") == 5;
  }

  /** A negative step count is rejected by the day parser before the
      duration is looked at, so the report is empty. */
  lemma NegativeWalkRejected(dp: DayStepsEngine.DayProfile, weight: real, height: real)
    ensures DayStepsEngine.ParsePackage("-5,1h") == Err(NonPositiveSteps)
    ensures DayStepsEngine.DayActionInfo(dp, "-5,1h", weight, height) == None
  {
    NegativeLineFields();
    GoStrings.SplitTwo("-5", "1h", Separator);
  }
}
