/** What both engines share: the error kinds, the decoded records, and the
    decoding of the comma-separated fields of an input line. Fields are
    decoded exactly as split: nothing is trimmed. */
module Records {
  import opened Wrappers
  import GoStrings
  import GoStrconv
  import GoTime

  /** One kind per distinct `return ..., err` site of the engines. */
  datatype Error =
    | WrongFieldCount    // the comma split gave the wrong number of parts
    | BadSteps           // `strconv.Atoi` rejected the step field
    | NonPositiveSteps   // a parser's `steps <= 0` check
    | BadDuration        // `time.ParseDuration` rejected the duration field
    | UnknownActivity    // the `default` branch of the activity switch
    | InvalidParameters  // the guard of the calorie functions

  /** A parsed `steps,activity,duration` line. The duration is in
      nanoseconds and may be zero or negative. */
  datatype Training = Training(steps: int, activity: string, duration: int)

  /** A parsed `steps,duration` line. */
  datatype Walk = Walk(steps: int, duration: int)

  const Separator: char := ','

  /** `strings.Split(data, ",")`. */
  function Fields(data: string): (parts: seq<string>)
    ensures |parts| == GoStrings.Count(data, Separator) + 1
    ensures forall i :: 0 <= i < |parts| ==> Separator !in parts[i]
  {
    GoStrings.Split(data, Separator)
  }

  /** The step field: `strconv.Atoi`, then, when `positive` is set, the
      `steps <= 0` check. */
  function DecodeSteps(field: string, positive: bool): (r: Result<int, Error>)
    ensures r.Ok? <==> GoStrconv.Atoi(field).Some? && (positive ==> GoStrconv.Atoi(field).value > 0)
    ensures r.Ok? ==> GoStrconv.Atoi(field) == Some(r.value)
    ensures r.Err? ==> r.error == (if GoStrconv.Atoi(field).None? then BadSteps else NonPositiveSteps)
  {
    match GoStrconv.Atoi(field)
    case None => Err(BadSteps)
    case Some(steps) => if positive && steps <= 0 then Err(NonPositiveSteps) else Ok(steps)
  }

  /** The duration field: `time.ParseDuration`. */
  function DecodeDuration(field: string): (r: Result<int, Error>)
    ensures r.Ok? <==> GoTime.ParseDuration(field).Some?
    ensures r.Ok? ==> GoTime.ParseDuration(field) == Some(r.value)
    ensures r.Err? ==> r.error == BadDuration
  {
    match GoTime.ParseDuration(field)
    case None => Err(BadDuration)
    case Some(d) => Ok(d)
  }

  /** A step field that `DecodeSteps` reads back as `n`. */
  lemma DecodeStepsItoa(n: int, positive: bool)
    requires GoStrconv.InIntRange(n) && (positive ==> n > 0)
    ensures DecodeSteps(GoStrconv.Itoa(n), positive) == Ok(n)
  {
    GoStrconv.AtoiItoa(n);
  }

  /** A duration field that `DecodeDuration` reads back as `d`. */
  lemma DecodeDurationLiteral(d: int)
    requires GoTime.IsDuration(d)
    ensures DecodeDuration(GoTime.DurationLiteral(d)) == Ok(d)
  {
    GoTime.ParseDurationLiteral(d);
  }

  /** Neither the step spelling nor the duration literal contains a comma. */
  lemma NoSeparatorInLiterals(n: int, d: int)
    ensures Separator !in GoStrconv.Itoa(n)
    ensures Separator !in GoTime.DurationLiteral(d)
  {
    GoStrconv.ItoaCharacters(n);
    GoStrconv.ItoaCharacters(d);
    var lit := GoTime.DurationLiteral(d);
    assert forall i :: 0 <= i < |lit| ==> lit[i] != Separator by {
      forall i | 0 <= i < |lit|
        ensures lit[i] != Separator
      {
        if i < |GoStrconv.Itoa(d)| {
          assert lit[i] == GoStrconv.Itoa(d)[i];
        }
      }
    }
  }
}
