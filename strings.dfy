/** String helpers shared by the Python and TypeScript models: decimal
    rendering of integers as `str(n)` and `n.toString()` produce it, the
    parsing `int(s)` performs on plain decimal text, zero padding, and
    `split`/`join` on a one-character separator. */
module Strings {
  import opened Wrappers

  predicate IsDigit(c: char) { '0' <= c <= '9' }

  predicate AllDigits(s: string) { forall i :: 0 <= i < |s| ==> IsDigit(s[i]) }

  function DigitChar(d: nat): (c: char)
    requires d < 10
    ensures IsDigit(c) && c as int - '0' as int == d
  {
    ('0' as int + d) as char
  }

  function DigitOf(c: char): nat
    requires IsDigit(c)
  {
    c as int - '0' as int
  }

  /** Decimal digits of `n`, most significant first, without leading zeros. */
  function NatToString(n: nat): (s: string)
    ensures |s| >= 1 && AllDigits(s)
    ensures n < 10 <==> |s| == 1
  {
    (if n < 10 then "" else NatToString(n / 10)) + [DigitChar(n % 10)]
  }

  /** The value of a string of decimal digits (leading zeros allowed). */
  function DigitsValue(s: string): nat
    requires AllDigits(s)
  {
    if s == [] then 0 else DigitsValue(s[..|s| - 1]) * 10 + DigitOf(s[|s| - 1])
  }

  lemma {:induction false} NatToStringValue(n: nat)
    ensures DigitsValue(NatToString(n)) == n
  {
    var s := NatToString(n);
    assert s[..|s| - 1] == if n < 10 then "" else NatToString(n / 10);
    if n >= 10 {
      NatToStringValue(n / 10);
    }
  }

  lemma {:induction false} LeadingZeroValue(s: string)
    requires AllDigits(s)
    ensures AllDigits("0" + s) && DigitsValue("0" + s) == DigitsValue(s)
  {
    if s != [] {
      var t := "0" + s;
      assert t[..|t| - 1] == "0" + s[..|s| - 1];
      LeadingZeroValue(s[..|s| - 1]);
    }
  }

  /** `str(x)` in Python and `x.toString()` in JavaScript, for an integer `x`. */
  function IntToString(x: int): (s: string)
    ensures |s| >= 1
  {
    if x < 0 then "-" + NatToString(-x) else NatToString(x)
  }

  /** `int(s)` on a string: an optional sign followed by at least one decimal
      digit; anything else is a `ValueError`, here `None`. */
  function ParseInt(s: string): (r: Option<int>)
    ensures r.Some? && |s| > 0 && IsDigit(s[0]) ==> r.value >= 0
  {
    if |s| > 0 && (s[0] == '-' || s[0] == '+') then
      if |s| > 1 && AllDigits(s[1..]) then
        var v: int := DigitsValue(s[1..]);
        Some(if s[0] == '-' then -v else v)
      else None
    else if |s| > 0 && AllDigits(s) then Some(DigitsValue(s))
    else None
  }

  lemma IntToStringParses(x: int)
    ensures ParseInt(IntToString(x)) == Some(x)
  {
    NatToStringValue(if x < 0 then -x else x);
    if x < 0 {
      assert IntToString(x)[1..] == NatToString(-x);
    }
  }

  /** `s.padStart(2, '0')` in JavaScript. */
  function PadStart2(s: string): (r: string)
    ensures |r| == if |s| >= 2 then |s| else 2
    ensures |s| >= 2 ==> r == s
  {
    if |s| >= 2 then s else if |s| == 1 then "0" + s else "00"
  }

  /** Two-digit zero padding of an integer. For every integer this is both
      Python's `f"{x:02d}"` (the sign counts towards the width, so a negative
      value is never padded) and JavaScript's `x.toString().padStart(2, '0')`. */
  function Pad2(x: int): (s: string)
    ensures |s| >= 2
    ensures 0 <= x < 10 ==> s == "0" + NatToString(x)
    ensures x >= 10 || x < 0 ==> s == IntToString(x)
  {
    PadStart2(IntToString(x))
  }

  lemma Pad2Parses(x: nat)
    ensures AllDigits(Pad2(x)) && ParseInt(Pad2(x)) == Some(x)
  {
    NatToStringValue(x);
    if x < 10 {
      LeadingZeroValue(NatToString(x));
    }
  }

  /** Number of occurrences of `c` in `s`. */
  function Count(s: string, c: char): nat
  {
    if s == [] then 0 else (if s[0] == c then 1 else 0) + Count(s[1..], c)
  }

  lemma {:induction false} CountAppend(a: string, b: string, c: char)
    ensures Count(a + b, c) == Count(a, c) + Count(b, c)
  {
    if a == [] {
      assert a + b == b;
    } else {
      assert (a + b)[1..] == a[1..] + b;
      CountAppend(a[1..], b, c);
    }
  }

  lemma {:induction false} CountZero(s: string, c: char)
    ensures Count(s, c) == 0 <==> c !in s
  {
    if s != [] {
      CountZero(s[1..], c);
      assert c in s <==> s[0] == c || c in s[1..];
    }
  }

  /** `s.split(sep)` in Python and JavaScript for a one-character separator:
      at least one piece, separators dropped, empty pieces kept. */
  function Split(s: string, sep: char): (r: seq<string>)
    ensures |r| >= 1
    ensures forall i :: 0 <= i < |r| ==> sep !in r[i]
  {
    if s == [] then [""]
    else if s[0] == sep then [""] + Split(s[1..], sep)
    else
      var rest := Split(s[1..], sep);
      [[s[0]] + rest[0]] + rest[1..]
  }

  lemma {:induction false} SplitLength(s: string, sep: char)
    ensures |Split(s, sep)| == Count(s, sep) + 1
  {
    if s != [] {
      SplitLength(s[1..], sep);
    }
  }

  /** `sep.join(xs)` in Python, `xs.join(sep)` in JavaScript. */
  function Join(xs: seq<string>, sep: char): string
  {
    if |xs| == 0 then ""
    else if |xs| == 1 then xs[0]
    else xs[0] + [sep] + Join(xs[1..], sep)
  }

  lemma {:induction false} JoinSplit(s: string, sep: char)
    ensures Join(Split(s, sep), sep) == s
  {
    if s == [] {
    } else if s[0] == sep {
      JoinSplit(s[1..], sep);
      var r := Split(s[1..], sep);
      assert ([""] + r)[1..] == r;
    } else {
      JoinSplit(s[1..], sep);
      var rest := Split(s[1..], sep);
      var r := [[s[0]] + rest[0]] + rest[1..];
      if |rest| > 1 {
        assert r[1..] == rest[1..];
        assert Join(rest, sep) == rest[0] + [sep] + Join(rest[1..], sep);
      }
    }
  }

  lemma {:induction false} SplitJoin(xs: seq<string>, sep: char)
    requires |xs| >= 1
    requires forall i :: 0 <= i < |xs| ==> sep !in xs[i]
    ensures Split(Join(xs, sep), sep) == xs
  {
    if |xs| == 1 {
      SplitNoSep(xs[0], sep);
    } else {
      SplitJoin(xs[1..], sep);
      SplitPrefix(xs[0], Join(xs[1..], sep), sep);
      assert [xs[0]] + xs[1..] == xs;
    }
  }

  lemma {:induction false} SplitNoSep(s: string, sep: char)
    requires sep !in s
    ensures Split(s, sep) == [s]
  {
    if s != [] {
      SplitNoSep(s[1..], sep);
      assert [s[0]] + s[1..] == s;
    }
  }

  /** Splitting `a + [sep] + b`, where `a` holds no separator, yields `a`
      followed by the pieces of `b`. */
  lemma {:induction false} SplitPrefix(a: string, b: string, sep: char)
    requires sep !in a
    ensures Split(a + [sep] + b, sep) == [a] + Split(b, sep)
  {
    if a == [] {
      assert ([] + [sep] + b)[1..] == b;
    } else {
      assert (a + [sep] + b)[1..] == a[1..] + [sep] + b;
      SplitPrefix(a[1..], b, sep);
      assert [a[0]] + a[1..] == a;
    }
  }

  lemma {:induction false} JoinCount(xs: seq<string>, sep: char)
    requires |xs| >= 1
    ensures Count(Join(xs, sep), sep) == |xs| - 1 + SumCount(xs, sep)
  {
    if |xs| > 1 {
      JoinCount(xs[1..], sep);
      CountAppend(xs[0] + [sep], Join(xs[1..], sep), sep);
      CountAppend(xs[0], [sep], sep);
    }
  }

  function SumCount(xs: seq<string>, c: char): nat
  {
    if xs == [] then 0 else Count(xs[0], c) + SumCount(xs[1..], c)
  }

  lemma {:induction false} SumCountZero(xs: seq<string>, c: char)
    requires forall i :: 0 <= i < |xs| ==> c !in xs[i]
    ensures SumCount(xs, c) == 0
  {
    if xs != [] {
      CountZero(xs[0], c);
      SumCountZero(xs[1..], c);
    }
  }

  /** `s.replace(a, b)` for one-character `a` and `b`. */
  function ReplaceChar(s: string, a: char, b: char): (r: string)
    ensures |r| == |s|
    ensures forall i :: 0 <= i < |s| ==> r[i] == if s[i] == a then b else s[i]
  {
    if s == [] then "" else [if s[0] == a then b else s[0]] + ReplaceChar(s[1..], a, b)
  }

  /** Python's `os.path.basename`: the part after the last '/'. */
  function Basename(p: string): (r: string)
    ensures '/' !in r
  {
    var parts := Split(p, '/');
    parts[|parts| - 1]
  }

  lemma BasenameNoSlash(p: string)
    requires '/' !in p
    ensures Basename(p) == p
  {
    SplitNoSep(p, '/');
  }

  /** Python's `a in b` on two strings: `a` occurs contiguously in `b`. */
  predicate IsSubstring(a: string, b: string)
  {
    a <= b || (b != [] && IsSubstring(a, b[1..]))
  }
}
