/**
 * The power query of the monitor: the outcome of running the power-status
 * command, its mapping to `Result<bool, PowerError>` and the fail-open fold
 * that turns every failure into "not on mains".
 */
module Power {

  /** Why the power query failed. */
  datatype PowerError =
    | Io    // the status command could not be run
    | Utf8  // its standard output was not valid UTF-8

  /**
   * What running the status command gave back. Spawning the process and
   * decoding its output are outside the model, so their outcome is an input.
   */
  datatype CommandOutcome =
    | SpawnFailed           // running the command returned an I/O error
    | InvalidUtf8           // the command ran, but its stdout is not UTF-8
    | Stdout(text: string)  // the command ran and its stdout decoded to `text`

  datatype Result<T, E> = Ok(value: T) | Err(error: E)
  {
    /** The success value, or `default` for any error: `.ok().unwrap_or(default)`. */
    function OkOr(default: T): T
    {
      match this
      case Ok(v) => v
      case Err(_) => default
    }
  }

  /** The marker whose presence in the command's output means "on mains". */
  const OnLineMarker: string := "on-line"

  /** `pat` occurs in `text` starting at index `i`. */
  ghost predicate OccursAt(text: string, pat: string, i: int)
  {
    0 <= i && i + |pat| <= |text| && text[i..i + |pat|] == pat
  }

  /** `pat` is a substring of `text`: the meaning of `str::contains`. */
  ghost predicate Occurs(text: string, pat: string)
  {
    exists i :: OccursAt(text, pat, i)
  }

  /** Substring search, trying each start position from the left. */
  function Contains(text: string, pat: string): bool
    decreases |text|
  {
    if |text| < |pat| then false
    else text[..|pat|] == pat || Contains(text[1..], pat)
  }

  /** Dropping the first character moves every occurrence one place to the left. */
  lemma OccursAtShift(text: string, pat: string, i: int)
    requires |text| > 0 && i >= 0
    ensures OccursAt(text[1..], pat, i) <==> OccursAt(text, pat, i + 1)
  {
    if i + |pat| <= |text| - 1 {
      assert text[1..][i..i + |pat|] == text[i + 1..i + 1 + |pat|];
    }
  }

  /** The search finds `pat` exactly when it occurs somewhere in `text`. */
  lemma {:induction false} ContainsIffOccurs(text: string, pat: string)
    ensures Contains(text, pat) <==> Occurs(text, pat)
    decreases |text|
  {
    if |text| < |pat| {
    } else if text[..|pat|] == pat {
      assert OccursAt(text, pat, 0);
    } else {
      ContainsIffOccurs(text[1..], pat);
      if Contains(text[1..], pat) {
        var i :| OccursAt(text[1..], pat, i);
        OccursAtShift(text, pat, i);
      }
      if Occurs(text, pat) {
        var i :| OccursAt(text, pat, i);
        assert i != 0;
        OccursAtShift(text, pat, i - 1);
      }
    }
  }

  /**
   * The power query: an I/O failure becomes `Err(Io)`, a decoding failure
   * `Err(Utf8)`, and decoded output `Ok(b)` where `b` says whether the
   * output mentions the on-line marker.
   */
  function GetPower(outcome: CommandOutcome): (r: Result<bool, PowerError>)
    ensures outcome.SpawnFailed? <==> r == Err(Io)
    ensures outcome.InvalidUtf8? <==> r == Err(Utf8)
    ensures outcome.Stdout? <==> r.Ok?
    ensures outcome.Stdout? ==> (r.value <==> Occurs(outcome.text, OnLineMarker))
  {
    match outcome
    case SpawnFailed => Err(Io)
    case InvalidUtf8 => Err(Utf8)
    case Stdout(text) =>
      ContainsIffOccurs(text, OnLineMarker);
      Ok(Contains(text, OnLineMarker))
  }

  /**
   * Whether the host is on mains power. Fail-open: any failure of the
   * query counts as "not on mains", so that an armed monitor sounds.
   */
  function IsPowerOn(outcome: CommandOutcome): (on: bool)
    ensures on <==> outcome.Stdout? && Occurs(outcome.text, OnLineMarker)
    ensures outcome.SpawnFailed? || outcome.InvalidUtf8? ==> !on
  {
    GetPower(outcome).OkOr(false)
  }

  /** A typical report of an adapter on mains counts as power on. */
  lemma AdapterOnLine()
    ensures IsPowerOn(Stdout("Adapter 0: on-line\n"))
  {
    var text := "Adapter 0: on-line\n";
    assert text[11..18] == OnLineMarker;
    assert OccursAt(text, OnLineMarker, 11);
  }

  /** An occurrence of a pattern starts with the pattern's first two characters. */
  lemma OccursAtStart(text: string, pat: string, i: int)
    requires |pat| >= 2 && OccursAt(text, pat, i)
    ensures text[i] == pat[0] && text[i + 1] == pat[1]
  {
    assert text[i..i + |pat|][0] == text[i] && text[i..i + |pat|][1] == text[i + 1];
  }

  /** The off-mains report line has no 'o' followed by 'n'. */
  lemma NoOnInOffLineReport(i: nat)
    requires i + 1 < |"Adapter 0: off-line\n"|
    ensures !("Adapter 0: off-line\n"[i] == 'o' && "Adapter 0: off-line\n"[i + 1] == 'n')
  {
    if i < 10 {
      if i == 0 {} else if i == 1 {} else if i == 2 {} else if i == 3 {} else if i == 4 {}
      else if i == 5 {} else if i == 6 {} else if i == 7 {} else if i == 8 {} else {}
    } else {
      if i == 10 {} else if i == 11 {} else if i == 12 {} else if i == 13 {} else if i == 14 {}
      else if i == 15 {} else if i == 16 {} else if i == 17 {} else {}
    }
  }

  /** The marker does not occur in a typical report of an adapter off mains. */
  lemma NoMarkerInOffLineReport()
    ensures !Occurs("Adapter 0: off-line\n", OnLineMarker)
  {
    var text := "Adapter 0: off-line\n";
    forall i | OccursAt(text, OnLineMarker, i) ensures false {
      OccursAtStart(text, OnLineMarker, i);
      NoOnInOffLineReport(i);
    }
  }

  /** A typical report of an adapter off mains does not count as power on. */
  lemma AdapterOffLine()
    ensures !IsPowerOn(Stdout("Adapter 0: off-line\n"))
  {
    NoMarkerInOffLineReport();
  }
}
