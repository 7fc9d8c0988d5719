/** Model of `formatDuration` in `frontend/src/utils/timeUtils.ts`. Seconds
    are whole numbers here; `Math.floor` of an integer quotient with a
    positive divisor is Dafny's `/`, while JavaScript's `%` truncates towards
    zero and is written out as `JsRem`. */
module FrontendTime {
  import opened Strings
  import TimeUtils
  import opened Wrappers

  /** The TypeScript union type of the `format` parameter; the `switch` over
      it is exhaustive. */
  datatype Format = HHMMSS | MMSS | SS

  /** JavaScript's `a % b` for b > 0: the sign follows the dividend. */
  function JsRem(a: int, b: int): (r: int)
    requires b > 0
    ensures a >= 0 ==> r == a % b
    ensures -b < r < b && (a < 0 ==> r <= 0)
  {
    if a >= 0 then a % b else -((-a) % b)
  }

  /** `formatDuration(seconds, format = 'HH:MM:SS')`. Every format reads back
      through the backend's `parse_duration` as the same number of seconds,
      whenever that number is not negative. */
  function FormatDuration(seconds: int, format: Format := HHMMSS): (r: string)
    ensures seconds >= 0 ==> TimeUtils.ParseDuration(TimeUtils.Text(r)) == Ok(seconds)
  {
    var hours := seconds / 3600;
    var minutes := JsRem(seconds, 3600) / 60;
    var remainingSeconds := JsRem(seconds, 60);
    match format
    case HHMMSS =>
      if seconds >= 0 then
        TimeUtils.RemainderOfRemainder(seconds);
        TimeUtils.FormatParseRoundTrip(seconds);
        Pad2(hours) + ":" + Pad2(minutes) + ":" + Pad2(remainingSeconds)
      else Pad2(hours) + ":" + Pad2(minutes) + ":" + Pad2(remainingSeconds)
    case MMSS =>
      if seconds >= 0 then
        FoldMinutes(seconds);
        TimeUtils.ParsePadded2(seconds / 60, seconds % 60);
        TimeUtils.MinutesAndSeconds(seconds);
        Pad2(hours * 60 + minutes) + ":" + Pad2(remainingSeconds)
      else Pad2(hours * 60 + minutes) + ":" + Pad2(remainingSeconds)
    case SS =>
      IntToStringParses(seconds);
      TimeUtils.NoColonInInt(seconds);
      SplitNoSep(IntToString(seconds), ':');
      IntToString(seconds)
  }

  /** For s >= 0 the three fields are floor(s/3600), floor((s%3600)/60) and
      s%60; minutes and seconds are below 60 and the fields add back to s. */
  lemma FieldsInRange(s: nat)
    ensures exists h: nat, m: nat, r: nat ::
      && h == s / 3600 && m == s % 3600 / 60 && r == s % 60
      && m < 60 && r < 60 && h * 3600 + m * 60 + r == s
      && FormatDuration(s) == Pad2(h) + ":" + Pad2(m) + ":" + Pad2(r)
  {
    var h, m, r := s / 3600, s % 3600 / 60, s % 60;
    TimeUtils.RemainderOfRemainder(s);
    assert h * 3600 + m * 60 + r == s;
    assert FormatDuration(s) == Pad2(h) + ":" + Pad2(m) + ":" + Pad2(r);
  }

  /** "MM:SS" folds the hours into the minutes: for s >= 0 it shows
      floor(s/60) minutes, so parsing it back loses nothing. */
  lemma MinutesFoldHours(s: nat)
    ensures FormatDuration(s, MMSS) == Pad2(s / 60) + ":" + Pad2(s % 60)
    ensures TimeUtils.ParseDuration(TimeUtils.Text(FormatDuration(s, MMSS))) == Ok(s)
  {
    FoldMinutes(s);
    assert FormatDuration(s, MMSS) == Pad2(s / 60) + ":" + Pad2(s % 60);
    TimeUtils.ParsePadded2(s / 60, s % 60);
    TimeUtils.MinutesAndSeconds(s);
  }

  lemma FoldMinutes(s: nat)
    ensures s / 3600 * 60 + s % 3600 / 60 == s / 60
  {
    var h, m, r := s / 3600, s % 3600 / 60, s % 60;
    TimeUtils.RemainderOfRemainder(s);
    var q := s % 3600;
    assert s == 3600 * h + q;
    assert q == 60 * m + q % 60;
    assert s == 60 * (h * 60 + m) + r;
  }

  /** "SS" renders the whole input, not s mod 60, and parses back to it. */
  lemma SecondsFormatIsWhole(s: int)
    ensures FormatDuration(s, SS) == IntToString(s)
    ensures TimeUtils.ParseDuration(TimeUtils.Text(FormatDuration(s, SS))) == Ok(s)
  {
    IntToStringParses(s);
    TimeUtils.NoColonInInt(s);
    SplitNoSep(IntToString(s), ':');
  }

  /** For every n >= 0 the frontend's "HH:MM:SS" is the backend's. */
  lemma AgreesWithBackend(n: nat)
    ensures TimeUtils.FormatDuration(n, "HH:MM:SS") == Ok(FormatDuration(n, HHMMSS))
  {
    TimeUtils.RemainderOfRemainder(n);
  }

  /** Below zero they part: Python's `divmod` floors, JavaScript's `%` does not. */
  lemma DisagreesBelowZero()
    ensures TimeUtils.FormatDuration(-1, "HH:MM:SS") == Ok("-1:59:59")
    ensures FormatDuration(-1, HHMMSS) == "-1:-1:-1"
  {
    assert NatToString(1) == "1";
    assert IntToString(-1) == "-1";
    assert DigitChar(5) == '5' && DigitChar(9) == '9';
    assert NatToString(5) == "5";
    assert NatToString(59) == NatToString(5) + [DigitChar(9)];
    assert Pad2(59) == "59";
    assert -1 / 3600 == -1 && -1 % 3600 == 3599 && 3599 / 60 == 59 && 3599 % 60 == 59;
    assert JsRem(-1, 3600) == -1 && -1 / 60 == -1 && JsRem(-1, 60) == -1;
    assert Pad2(-1) == "-1";
    assert Pad2(-1) + ":" + Pad2(59) + ":" + Pad2(59) == "-1:59:59";
    assert TimeUtils.FormatDuration(-1, "HH:MM:SS") == Ok(Pad2(-1) + ":" + Pad2(59) + ":" + Pad2(59));
  }
}
