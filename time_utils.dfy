/** Model of `backend/utils/time_utils.py`: `parse_duration` turns a number,
    an "H:M:S" or an "M:S" string into seconds; `format_duration` renders a
    number of seconds as "HH:MM:SS", "MM:SS" or "SS". Durations are whole
    seconds here (see README, "Left out"). */
module TimeUtils {
  import opened Wrappers
  import opened Strings

  /** The `Union[str, float, int]` argument of `parse_duration`. */
  datatype DurationInput = Seconds(n: int) | Text(s: string)

  /** `int(p)` or `float(p)` on one component of a colon-separated duration.
      `what` names the conversion in the error message, as Python's does. */
  function Component(p: string, what: string): (r: Result<int>)
    ensures r.Ok? <==> ParseInt(p).Some?
    ensures r.Ok? ==> r.value == ParseInt(p).value
  {
    match ParseInt(p)
    case Some(v) => Ok(v)
    case None => Err(what + p)
  }

  const IntError := "invalid literal for int() with base 10: "
  const FloatError := "could not convert string to float: "

  /** Every component is a decimal integer. */
  predicate AllInts(parts: seq<string>)
  {
    forall i :: 0 <= i < |parts| ==> ParseInt(parts[i]).Some?
  }

  function ParseDuration(d: DurationInput): (r: Result<int>)
    ensures d.Seconds? ==> r == Ok(d.n)
    ensures d.Text? && (|Split(d.s, ':')| == 2 || |Split(d.s, ':')| == 3) ==>
              (r.Ok? <==> AllInts(Split(d.s, ':')))
    ensures d.Text? && |Split(d.s, ':')| != 2 && |Split(d.s, ':')| != 3 ==>
              && (r.Ok? <==> ParseInt(d.s).Some?)
              && (r.Ok? ==> r.value == ParseInt(d.s).value)
              && (r.Err? ==> r.msg == "Invalid duration format: " + d.s)
    ensures d.Text? && |Split(d.s, ':')| > 3 ==> r == Err("Invalid duration format: " + d.s)
  {
    match d
    case Seconds(n) => Ok(n)
    case Text(s) =>
      var parts := Split(s, ':');
      if |parts| == 3 then
        assert AllInts(parts) <==> ParseInt(parts[0]).Some? && ParseInt(parts[1]).Some? && ParseInt(parts[2]).Some?;
        var h :- Component(parts[0], IntError);
        var m :- Component(parts[1], IntError);
        var sec :- Component(parts[2], FloatError);
        Ok(h * 3600 + m * 60 + sec)
      else if |parts| == 2 then
        assert AllInts(parts) <==> ParseInt(parts[0]).Some? && ParseInt(parts[1]).Some?;
        var m :- Component(parts[0], IntError);
        var sec :- Component(parts[1], FloatError);
        Ok(m * 60 + sec)
      else
        assert |parts| > 3 ==> ':' in s by { SplitLength(s, ':'); CountZero(s, ':'); }
        assert ':' in s ==> ParseInt(s).None? by {
          if ':' in s { ColonIsNotInt(s); }
        }
        match ParseInt(s)
        case Some(v) => Ok(v)
        case None =>
          Err("Invalid duration format: " + s)
  }

  /** "h:m:s" with decimal components parses to h*3600 + m*60 + s. */
  lemma ParseThreeParts(h: string, m: string, s: string)
    requires ':' !in h && ':' !in m && ':' !in s
    requires ParseInt(h).Some? && ParseInt(m).Some? && ParseInt(s).Some?
    ensures ParseDuration(Text(h + ":" + m + ":" + s))
            == Ok(ParseInt(h).value * 3600 + ParseInt(m).value * 60 + ParseInt(s).value)
  {
    SplitNoSep(s, ':');
    SplitPrefix(m, s, ':');
    SplitPrefix(h, m + ":" + s, ':');
    assert h + ":" + m + ":" + s == h + [':'] + (m + [':'] + s);
  }

  /** "m:s" with decimal components parses to m*60 + s. */
  lemma ParseTwoParts(m: string, s: string)
    requires ':' !in m && ':' !in s
    requires ParseInt(m).Some? && ParseInt(s).Some?
    ensures ParseDuration(Text(m + ":" + s)) == Ok(ParseInt(m).value * 60 + ParseInt(s).value)
  {
    SplitNoSep(s, ':');
    SplitPrefix(m, s, ':');
  }

  lemma ParseExamples()
    ensures ParseDuration(Text("01:02:03")) == Ok(3723)
    ensures ParseDuration(Text("02:03")) == Ok(123)
  {
    TwoDigits('0', '1', 1);
    TwoDigits('0', '2', 2);
    TwoDigits('0', '3', 3);
    assert "01:02:03" == "01" + ":" + "02" + ":" + "03";
    ParseThreeParts("01", "02", "03");
    assert "02:03" == "02" + ":" + "03";
    ParseTwoParts("02", "03");
  }

  lemma TwoDigits(a: char, b: char, v: nat)
    requires IsDigit(a) && IsDigit(b) && v == DigitOf(a) * 10 + DigitOf(b)
    ensures ParseInt([a, b]) == Some(v) && ':' !in [a, b]
  {
    var s := [a, b];
    assert s[..1] == [a] && [a][..0] == [];
    assert AllDigits(s);
    assert DigitsValue([a]) == DigitOf(a);
    assert DigitsValue(s) == v;
  }

  const Formats: set<string> := {"HH:MM:SS", "MM:SS", "SS"}

  /** `format_duration(seconds, format='HH:MM:SS')` as written. Python's
      `divmod` with a positive divisor is Dafny's `/` and `%`. The second
      `divmod` rebinds `seconds` to the remainder, so "SS" renders
      `seconds % 60`. */
  function FormatDuration(seconds: int, format: string := "HH:MM:SS"): (r: Result<string>)
    ensures r.Err? <==> format !in Formats
    ensures r.Err? ==> r.msg == "Invalid format: " + format
  {
    var hours, remainder := seconds / 3600, seconds % 3600;
    var minutes, secs := remainder / 60, remainder % 60;
    if format == "HH:MM:SS" then Ok(Pad2(hours) + ":" + Pad2(minutes) + ":" + Pad2(secs))
    else if format == "MM:SS" then Ok(Pad2(minutes) + ":" + Pad2(secs))
    else if format == "SS" then Ok(IntToString(secs))
    else Err("Invalid format: " + format)
  }

  /** The fields of "HH:MM:SS": zero-padded hours, minutes and seconds that
      add back up to the input, with minutes and seconds below 60. */
  lemma FormatFields(n: nat)
    ensures exists h: nat, m: nat, s: nat ::
      && m < 60 && s < 60 && h * 3600 + m * 60 + s == n
      && FormatDuration(n, "HH:MM:SS") == Ok(Pad2(h) + ":" + Pad2(m) + ":" + Pad2(s))
  {
    var h, m, s := n / 3600, n % 3600 / 60, n % 3600 % 60;
    assert h * 3600 + m * 60 + s == n;
    assert FormatDuration(n, "HH:MM:SS") == Ok(Pad2(h) + ":" + Pad2(m) + ":" + Pad2(s));
  }

  /** Round trip: parsing the "HH:MM:SS" rendering of n >= 0 gives back n. */
  lemma FormatParseRoundTrip(n: nat)
    ensures FormatDuration(n, "HH:MM:SS").Ok?
    ensures ParseDuration(Text(FormatDuration(n, "HH:MM:SS").value)) == Ok(n)
  {
    var r := n % 3600;
    var h, m, s := n / 3600, r / 60, r % 60;
    assert FormatDuration(n, "HH:MM:SS") == Ok(Pad2(h) + ":" + Pad2(m) + ":" + Pad2(s));
    ParsePadded3(h, m, s);
    MinutesAndSeconds(r);
    assert h * 3600 + r == n;
  }

  /** "MM:SS" drops the hours: it parses back to n mod 3600, which is n
      exactly when n < 3600. */
  lemma ShortFormatDropsHours(n: nat)
    ensures FormatDuration(n, "MM:SS").Ok?
    ensures ParseDuration(Text(FormatDuration(n, "MM:SS").value)) == Ok(n % 3600)
    ensures ParseDuration(Text(FormatDuration(n, "MM:SS").value)) == Ok(n) <==> n < 3600
  {
    var r := n % 3600;
    var m, s := r / 60, r % 60;
    assert FormatDuration(n, "MM:SS") == Ok(Pad2(m) + ":" + Pad2(s));
    ParsePadded2(m, s);
    MinutesAndSeconds(r);
    assert r == n <==> n < 3600;
  }

  lemma ParsePadded3(h: nat, m: nat, s: nat)
    ensures ParseDuration(Text(Pad2(h) + ":" + Pad2(m) + ":" + Pad2(s))) == Ok(h * 3600 + m * 60 + s)
  {
    Pad2Parses(h);
    Pad2Parses(m);
    Pad2Parses(s);
    ParseDigitFields3(Pad2(h), Pad2(m), Pad2(s), h, m, s);
  }

  lemma ParsePadded2(m: nat, s: nat)
    ensures ParseDuration(Text(Pad2(m) + ":" + Pad2(s))) == Ok(m * 60 + s)
  {
    Pad2Parses(m);
    Pad2Parses(s);
    ParseDigitFields2(Pad2(m), Pad2(s), m, s);
  }

  lemma ParseDigitFields3(a: string, b: string, c: string, h: nat, m: nat, s: nat)
    requires AllDigits(a) && AllDigits(b) && AllDigits(c)
    requires ParseInt(a) == Some(h) && ParseInt(b) == Some(m) && ParseInt(c) == Some(s)
    ensures ParseDuration(Text(a + ":" + b + ":" + c)) == Ok(h * 3600 + m * 60 + s)
  {
    NoColonInDigits(a);
    NoColonInDigits(b);
    NoColonInDigits(c);
    ParseThreeParts(a, b, c);
  }

  lemma ParseDigitFields2(a: string, b: string, m: nat, s: nat)
    requires AllDigits(a) && AllDigits(b)
    requires ParseInt(a) == Some(m) && ParseInt(b) == Some(s)
    ensures ParseDuration(Text(a + ":" + b)) == Ok(m * 60 + s)
  {
    NoColonInDigits(a);
    NoColonInDigits(b);
    ParseTwoParts(a, b);
  }

  lemma MinutesAndSeconds(r: nat)
    ensures r / 60 * 60 + r % 60 == r
  {
  }

  /** "SS" renders only the seconds field, n mod 60, not the whole duration. */
  lemma SecondsFormatIsRemainder(n: int)
    ensures FormatDuration(n, "SS") == Ok(NatToString(n % 60))
  {
    RemainderOfRemainder(n);
  }

  lemma RemainderOfRemainder(n: int)
    ensures n % 3600 % 60 == n % 60
  {
    var q, r := n / 3600, n % 3600;
    assert n == r + 60 * (60 * q);
    var a, b := r / 60, r % 60;
    assert n == b + 60 * (a + 60 * q);
  }

  /** For instance 75 seconds render as "15" under "SS". */
  lemma SecondsFormatExample()
    ensures FormatDuration(75, "SS") == Ok("15")
  {
    SecondsFormatIsRemainder(75);
    assert 75 % 60 == 15;
    assert DigitChar(5) == '5' && DigitChar(1) == '1';
    assert NatToString(1) == "1";
    assert NatToString(15) == NatToString(1) + [DigitChar(5)];
    assert NatToString(15) == "15";
    assert FormatDuration(75, "SS") == Ok(NatToString(75 % 60));
  }

  /** What "SS" was evidently meant to render: the whole duration, as the
      frontend's `formatDuration` does. The other formats are unchanged. */
  function FormatDurationIntended(seconds: int, format: string): (r: Result<string>)
    ensures format != "SS" ==> r == FormatDuration(seconds, format)
    ensures format == "SS" ==> r.Ok? && ParseDuration(Text(r.value)) == Ok(seconds)
  {
    if format == "SS" then
      IntToStringParses(seconds);
      NoColonInInt(seconds);
      SplitNoSep(IntToString(seconds), ':');
      Ok(IntToString(seconds))
    else FormatDuration(seconds, format)
  }

  lemma NoColonInDigits(s: string)
    requires AllDigits(s)
    ensures ':' !in s
  {
    forall i | 0 <= i < |s|
      ensures s[i] != ':'
    {
      assert IsDigit(s[i]);
    }
  }

  lemma ColonIsNotInt(s: string)
    requires ':' in s
    ensures ParseInt(s).None?
  {
    var i :| 0 <= i < |s| && s[i] == ':';
    assert !IsDigit(s[i]);
    if i > 0 {
      assert s[1..][i - 1] == ':';
    }
  }

  lemma NoColonInInt(x: int)
    ensures ':' !in IntToString(x)
  {
    NoColonInDigits(NatToString(if x < 0 then -x else x));
  }
}
