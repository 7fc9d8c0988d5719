/** Model of `encodeFilePath` and `decodeFilePath` in the frontend's
    `utils.ts`: split a path on '/', run each segment through
    `encodeURIComponent` (or `decodeURIComponent`), and join with '/'.
    The two built-ins follow section 15.1.3 of ECMA-262 5.1: a character
    outside the unreserved set becomes the "%XX" escapes of its UTF-8
    bytes, with upper-case hex digits, and decoding rejects any malformed
    escape with a `URIError`. A Dafny string is a sequence of Unicode
    scalar values, i.e. a well-formed JavaScript string. */
module PathCodec {
  import opened Wrappers
  import opened Strings

  /** The message of the `URIError` decoding raises. */
  const Malformed := "URI malformed"

  /** uriAlpha, DecimalDigit and uriMark: what `encodeURIComponent` leaves
      as it is. */
  predicate Unreserved(c: char)
  {
    ('A' <= c <= 'Z') || ('a' <= c <= 'z') || ('0' <= c <= '9')
    || c == '-' || c == '_' || c == '.' || c == '!' || c == '~' || c == '*'
    || c == '\'' || c == '(' || c == ')'
  }

  // ---------------------------------------------------------------------
  // Hex digits and escapes

  /** The upper-case hex digit of `d`. */
  function HexDigit(d: nat): (c: char)
    requires d < 16
  {
    if d < 10 then ('0' as int + d) as char else ('A' as int + d - 10) as char
  }

  predicate UpperHex(c: char)
  {
    ('0' <= c <= '9') || ('A' <= c <= 'F')
  }

  predicate IsHex(c: char)
  {
    ('0' <= c <= '9') || ('A' <= c <= 'F') || ('a' <= c <= 'f')
  }

  function HexValue(c: char): (v: nat)
    requires IsHex(c)
    ensures v < 16
  {
    if '0' <= c <= '9' then (c as int) - ('0' as int)
    else if 'A' <= c <= 'F' then (c as int) - ('A' as int) + 10
    else (c as int) - ('a' as int) + 10
  }

  lemma HexDigitValue(d: nat)
    requires d < 16
    ensures UpperHex(HexDigit(d)) && IsHex(HexDigit(d)) && HexValue(HexDigit(d)) == d
    ensures HexDigit(d) != '/'
  {
  }

  /** "%XX" for one byte. */
  function Escape(b: nat): (r: string)
    requires b < 256
    ensures |r| == 3
  {
    ['%', HexDigit(b / 16), HexDigit(b % 16)]
  }

  predicate IsBytes(bytes: seq<nat>)
  {
    forall i :: 0 <= i < |bytes| ==> bytes[i] < 256
  }

  function Escapes(bytes: seq<nat>): (r: string)
    requires IsBytes(bytes)
    ensures |r| == 3 * |bytes|
  {
    if bytes == [] then [] else Escape(bytes[0]) + Escapes(bytes[1..])
  }

  // ---------------------------------------------------------------------
  // UTF-8

  /** The UTF-8 bytes of one code point. */
  function Utf8(c: char): (r: seq<nat>)
    ensures IsBytes(r) && 1 <= |r| <= 4
  {
    var cp := c as int;
    var q1 := cp / 64;
    var q2 := q1 / 64;
    var q3 := q2 / 64;
    if cp < 0x80 then [cp]
    else if cp < 0x800 then [0xC0 + q1, 0x80 + cp % 64]
    else if cp < 0x10000 then [0xE0 + q2, 0x80 + q1 % 64, 0x80 + cp % 64]
    else [0xF0 + q3, 0x80 + q2 % 64, 0x80 + q1 % 64, 0x80 + cp % 64]
  }

  /** A code point a Dafny `char` can hold: not a surrogate, at most
      U+10FFFF. */
  predicate IsScalar(cp: int)
  {
    (0 <= cp < 0xD800) || (0xE000 <= cp <= 0x10FFFF)
  }

  // ---------------------------------------------------------------------
  // encodeURIComponent

  function EncodeChar(c: char): (r: string)
    ensures 1 <= |r|
  {
    if Unreserved(c) then [c] else Escapes(Utf8(c))
  }

  function EncodeURIComponent(s: string): (r: string)
    ensures |r| >= |s|
  {
    if s == [] then [] else EncodeChar(s[0]) + EncodeURIComponent(s[1..])
  }

  // ---------------------------------------------------------------------
  // decodeURIComponent

  /** The byte escaped at `s[3 * k ..]`, or the error a malformed escape
      raises. */
  function ByteAt(s: string, k: nat): (r: Result<nat>)
    ensures r.Ok? ==> r.value < 256 && 3 * k + 3 <= |s|
  {
    if 3 * k + 3 <= |s| && s[3 * k] == '%' && IsHex(s[3 * k + 1]) && IsHex(s[3 * k + 2]) then
      Ok(16 * HexValue(s[3 * k + 1]) + HexValue(s[3 * k + 2]))
    else Err(Malformed)
  }

  /** The code point whose leading bits are `acc`, continued by the bytes
      escaped at positions `k` to `n - 1`, each of the form 10xxxxxx. */
  function Continue(s: string, k: nat, n: nat, acc: nat): (r: Result<nat>)
    requires k <= n
    ensures r.Ok? ==> 3 * n <= |s|
    decreases n - k
  {
    if k == n then (if 3 * n <= |s| then Ok(acc) else Err(Malformed))
    else
      var b :- ByteAt(s, k);
      if b < 0x80 || 0xC0 <= b then Err(Malformed)
      else Continue(s, k + 1, n, acc * 64 + (b - 0x80))
  }

  /** The character the escapes at the start of `s` stand for, and how many
      characters they take. */
  function DecodeEscape(s: string): (r: Result<(char, nat)>)
    ensures r.Ok? ==> 3 <= r.value.1 <= |s|
  {
    var b :- ByteAt(s, 0);
    if b < 0x80 then Ok((b as char, 3))
    else if b < 0xC0 || 0xF8 <= b then Err(Malformed)
    else
      var n := if b < 0xE0 then 2 else if b < 0xF0 then 3 else 4;
      var lead := if n == 2 then b - 0xC0 else if n == 3 then b - 0xE0 else b - 0xF0;
      var least := if n == 2 then 0x80 else if n == 3 then 0x800 else 0x10000;
      var cp :- Continue(s, 1, n, lead);
      if cp < least || !IsScalar(cp) then Err(Malformed)
      else Ok((cp as char, 3 * n))
  }

  function DecodeURIComponent(s: string): (r: Result<string>)
    decreases |s|
  {
    if s == [] then Ok([])
    else if s[0] != '%' then
      var rest :- DecodeURIComponent(s[1..]);
      Ok([s[0]] + rest)
    else
      var d :- DecodeEscape(s);
      var rest :- DecodeURIComponent(s[d.1..]);
      Ok([d.0] + rest)
  }

  // ---------------------------------------------------------------------
  // The two path functions

  function EncodeAll(segs: seq<string>): (r: seq<string>)
    ensures |r| == |segs|
    ensures forall i :: 0 <= i < |segs| ==> r[i] == EncodeURIComponent(segs[i])
  {
    if segs == [] then [] else [EncodeURIComponent(segs[0])] + EncodeAll(segs[1..])
  }

  /** Every segment decodes. */
  predicate AllDecode(segs: seq<string>)
  {
    forall i :: 0 <= i < |segs| ==> DecodeURIComponent(segs[i]).Ok?
  }

  /** Decodes every segment; fails exactly when one of them is malformed. */
  function DecodeAll(segs: seq<string>): (r: Result<seq<string>>)
    ensures r.Ok? <==> AllDecode(segs)
    ensures r.Ok? ==> |r.value| == |segs|
    ensures r.Ok? ==> forall i :: 0 <= i < |segs| ==> r.value[i] == DecodeURIComponent(segs[i]).value
  {
    if segs == [] then Ok([])
    else
      assert forall i :: 0 < i < |segs| ==> segs[i] == segs[1..][i - 1];
      var first :- DecodeURIComponent(segs[0]);
      var rest :- DecodeAll(segs[1..]);
      Ok([first] + rest)
  }

  /** `encodeFilePath(filePath)`. The encoded path keeps every '/' of the
      input and adds none; its segments are the input's segments encoded one
      by one, so an empty segment stays empty. */
  function EncodeFilePath(path: string): (r: string)
    ensures Count(r, '/') == Count(path, '/')
    ensures Split(r, '/') == EncodeAll(Split(path, '/'))
  {
    var segs := Split(path, '/');
    EncodeAllNoSlash(segs);
    JoinCount(EncodeAll(segs), '/');
    SplitLength(path, '/');
    SplitJoin(EncodeAll(segs), '/');
    Join(EncodeAll(segs), '/')
  }

  /** `decodeFilePath(encodedFilePath)`: raises exactly when some segment
      between slashes is malformed. */
  function DecodeFilePath(encoded: string): (r: Result<string>)
    ensures r.Ok? <==> AllDecode(Split(encoded, '/'))
  {
    var segs :- DecodeAll(Split(encoded, '/'));
    Ok(Join(segs, '/'))
  }

  // ---------------------------------------------------------------------
  // What encoding promises

  /** The escapes of `bytes` are followed by `rest`: position `3k` holds
      the k-th escape. */
  lemma {:induction false} EscapesAt(bytes: seq<nat>, rest: string, k: nat)
    requires IsBytes(bytes) && k < |bytes|
    ensures ByteAt(Escapes(bytes) + rest, k) == Ok(bytes[k])
  {
    var tail := Escapes(bytes[1..]) + rest;
    assert Escapes(bytes) + rest == Escape(bytes[0]) + tail;
    if k == 0 {
      ByteOfEscape(bytes[0], tail);
    } else {
      EscapesAt(bytes[1..], rest, k - 1);
      ByteAtShift(Escape(bytes[0]), tail, k - 1);
    }
  }

  /** One escape followed by anything reads back as its byte. */
  lemma ByteOfEscape(b: nat, rest: string)
    requires b < 256
    ensures ByteAt(Escape(b) + rest, 0) == Ok(b)
  {
    var s := Escape(b) + rest;
    HexDigitValue(b / 16);
    HexDigitValue(b % 16);
    assert s[0] == '%' && s[1] == HexDigit(b / 16) && s[2] == HexDigit(b % 16);
  }

  /** Three characters in front move every escape along by one place. */
  lemma ByteAtShift(t: string, s: string, k: nat)
    requires |t| == 3
    ensures ByteAt(t + s, k + 1) == ByteAt(s, k)
  {
    var u := t + s;
    if 3 * k + 3 <= |s| {
      assert u[3 * k + 3] == s[3 * k] && u[3 * k + 4] == s[3 * k + 1] && u[3 * k + 5] == s[3 * k + 2];
    }
  }

  /** Decoding the escapes of one character gives that character back and
      consumes exactly those escapes. */
  lemma DecodeEscapeOfChar(c: char, rest: string)
    requires !Unreserved(c)
    ensures DecodeEscape(Escapes(Utf8(c)) + rest) == Ok((c, |Escapes(Utf8(c))|))
  {
    var bytes := Utf8(c);
    var s := Escapes(bytes) + rest;
    forall k | 0 <= k < |bytes|
      ensures ByteAt(s, k) == Ok(bytes[k])
    {
      EscapesAt(bytes, rest, k);
    }
    var cp := c as int;
    if cp < 0x80 {
    } else if cp < 0x800 {
      DecodeTwo(s, cp);
    } else if cp < 0x10000 {
      DecodeThree(s, cp);
    } else {
      DecodeFour(s, cp);
    }
  }

  lemma DecodeTwo(s: string, cp: int)
    requires 0x80 <= cp < 0x800
    requires ByteAt(s, 0) == Ok(0xC0 + cp / 64) && ByteAt(s, 1) == Ok(0x80 + cp % 64)
    ensures DecodeEscape(s) == Ok((cp as char, 6))
  {
    assert Continue(s, 2, 2, (cp / 64) * 64 + cp % 64) == Ok(cp);
    assert Continue(s, 1, 2, cp / 64) == Ok(cp);
  }

  lemma DecodeThree(s: string, cp: int)
    requires 0x800 <= cp < 0x10000 && IsScalar(cp)
    requires ByteAt(s, 0) == Ok(0xE0 + cp / 64 / 64)
    requires ByteAt(s, 1) == Ok(0x80 + (cp / 64) % 64) && ByteAt(s, 2) == Ok(0x80 + cp % 64)
    ensures DecodeEscape(s) == Ok((cp as char, 9))
  {
    var q1 := cp / 64;
    var q2 := q1 / 64;
    assert q2 * 64 + q1 % 64 == q1;
    assert Continue(s, 3, 3, q1 * 64 + cp % 64) == Ok(cp);
    assert Continue(s, 2, 3, q1) == Ok(cp);
    assert Continue(s, 1, 3, q2) == Ok(cp);
  }

  lemma DecodeFour(s: string, cp: int)
    requires 0x10000 <= cp <= 0x10FFFF
    requires ByteAt(s, 0) == Ok(0xF0 + cp / 64 / 64 / 64)
    requires ByteAt(s, 1) == Ok(0x80 + (cp / 64 / 64) % 64)
    requires ByteAt(s, 2) == Ok(0x80 + (cp / 64) % 64) && ByteAt(s, 3) == Ok(0x80 + cp % 64)
    ensures DecodeEscape(s) == Ok((cp as char, 12))
  {
    var q1 := cp / 64;
    var q2 := q1 / 64;
    var q3 := q2 / 64;
    assert q3 < 8;
    assert q2 * 64 + q1 % 64 == q1;
    assert q3 * 64 + q2 % 64 == q2;
    assert Continue(s, 4, 4, q1 * 64 + cp % 64) == Ok(cp);
    assert Continue(s, 3, 4, q1) == Ok(cp);
    assert Continue(s, 2, 4, q2) == Ok(cp);
    assert Continue(s, 1, 4, q3) == Ok(cp);
  }

  /** `decodeURIComponent(encodeURIComponent(s)) == s`. */
  lemma {:induction false} ComponentRoundTrip(s: string)
    ensures DecodeURIComponent(EncodeURIComponent(s)) == Ok(s)
  {
    if s != [] {
      ComponentRoundTrip(s[1..]);
      var e := EncodeURIComponent(s);
      var rest := EncodeURIComponent(s[1..]);
      assert e == EncodeChar(s[0]) + rest;
      if Unreserved(s[0]) {
        assert e[0] == s[0] && e[1..] == rest;
      } else {
        DecodeEscapeOfChar(s[0], rest);
        var n := |Escapes(Utf8(s[0]))|;
        assert e[0] == '%';
        assert e[n..] == rest;
      }
      assert s == [s[0]] + s[1..];
    }
  }

  /** An encoded segment holds only unreserved characters and "%XX"
      escapes with upper-case hex digits. */
  predicate WellEncoded(s: string)
    decreases |s|
  {
    if s == [] then true
    else if Unreserved(s[0]) then WellEncoded(s[1..])
    else
      && |s| >= 3 && s[0] == '%' && UpperHex(s[1]) && UpperHex(s[2])
      && WellEncoded(s[3..])
  }

  lemma {:induction false} WellEncodedConcat(a: string, b: string)
    requires WellEncoded(a) && WellEncoded(b)
    ensures WellEncoded(a + b)
    decreases |a|
  {
    if a != [] {
      if Unreserved(a[0]) {
        assert (a + b)[1..] == a[1..] + b;
        WellEncodedConcat(a[1..], b);
      } else {
        assert (a + b)[3..] == a[3..] + b;
        WellEncodedConcat(a[3..], b);
      }
    } else {
      assert a + b == b;
    }
  }

  lemma {:induction false} EscapesWellEncoded(bytes: seq<nat>)
    requires IsBytes(bytes)
    ensures WellEncoded(Escapes(bytes))
  {
    if bytes != [] {
      EscapesWellEncoded(bytes[1..]);
      var e := Escape(bytes[0]);
      assert !Unreserved(e[0]) && e[3..] == [];
      WellEncodedConcat(e, Escapes(bytes[1..]));
    }
  }

  lemma {:induction false} EncodedIsWellEncoded(s: string)
    ensures WellEncoded(EncodeURIComponent(s))
  {
    if s != [] {
      EncodedIsWellEncoded(s[1..]);
      if Unreserved(s[0]) {
        assert WellEncoded([s[0]]) by { assert [s[0]][1..] == []; }
      } else {
        EscapesWellEncoded(Utf8(s[0]));
      }
      WellEncodedConcat(EncodeChar(s[0]), EncodeURIComponent(s[1..]));
    }
  }

  /** No encoded segment contains '/', since '/' is not unreserved. */
  lemma {:induction false} WellEncodedNoSlash(s: string)
    requires WellEncoded(s)
    ensures '/' !in s
    decreases |s|
  {
    if s != [] {
      if Unreserved(s[0]) {
        WellEncodedNoSlash(s[1..]);
        assert s == [s[0]] + s[1..];
      } else {
        WellEncodedNoSlash(s[3..]);
        assert s == s[..3] + s[3..];
      }
    }
  }

  /** A string of unreserved characters encodes to itself, and only such a
      string does. */
  lemma {:induction false} EncodeIdentity(s: string)
    ensures EncodeURIComponent(s) == s <==> forall i :: 0 <= i < |s| ==> Unreserved(s[i])
  {
    if s != [] {
      EncodeIdentity(s[1..]);
      var rest := EncodeURIComponent(s[1..]);
      if Unreserved(s[0]) {
        assert EncodeURIComponent(s) == [s[0]] + rest;
        assert forall i :: 1 <= i < |s| ==> s[i] == s[1..][i - 1];
        if EncodeURIComponent(s) == s {
          assert rest == s[1..];
        }
      } else {
        assert EncodeURIComponent(s)[0] == '%';
        assert |EncodeURIComponent(s)| >= |s| + 2 by {
          assert |Escapes(Utf8(s[0]))| >= 3;
        }
      }
    }
  }

  // ---------------------------------------------------------------------
  // What the path functions promise

  lemma {:induction false} EncodeAllNoSlash(segs: seq<string>)
    ensures forall i :: 0 <= i < |segs| ==> '/' !in EncodeAll(segs)[i]
    ensures SumCount(EncodeAll(segs), '/') == 0
  {
    forall i | 0 <= i < |segs|
      ensures '/' !in EncodeAll(segs)[i]
    {
      EncodedIsWellEncoded(segs[i]);
      WellEncodedNoSlash(EncodeAll(segs)[i]);
    }
    SumCountZero(EncodeAll(segs), '/');
  }

  /** Every segment of an encoded path is made of unreserved characters and
      upper-case "%XX" escapes. */
  lemma EncodedSegmentsWellEncoded(path: string)
    ensures forall seg :: seg in Split(EncodeFilePath(path), '/') ==> WellEncoded(seg)
  {
    var segs := Split(path, '/');
    forall i | 0 <= i < |segs|
      ensures WellEncoded(EncodeAll(segs)[i])
    {
      EncodedIsWellEncoded(segs[i]);
    }
  }

  lemma {:induction false} DecodeAllEncodeAll(segs: seq<string>)
    ensures DecodeAll(EncodeAll(segs)) == Ok(segs)
  {
    if segs != [] {
      ComponentRoundTrip(segs[0]);
      DecodeAllEncodeAll(segs[1..]);
      assert EncodeAll(segs)[1..] == EncodeAll(segs[1..]);
      assert segs == [segs[0]] + segs[1..];
    }
  }

  /** `decodeFilePath(encodeFilePath(p)) == p` for every path. */
  lemma PathRoundTrip(path: string)
    ensures DecodeFilePath(EncodeFilePath(path)) == Ok(path)
  {
    DecodeAllEncodeAll(Split(path, '/'));
    JoinSplit(path, '/');
  }

  /** A '%' not followed by two hex digits makes decoding raise. */
  lemma BadEscapeRaises(before: string, after: string)
    requires '/' !in before && '%' !in before && '/' !in after
    requires |after| < 2 || !IsHex(after[0]) || !IsHex(after[1])
    ensures DecodeFilePath(before + "%" + after).Err?
  {
    var seg := before + "%" + after;
    assert '/' !in seg;
    SplitNoSep(seg, '/');
    BadEscapeInSegment(before, after);
  }

  lemma {:induction false} BadEscapeInSegment(before: string, after: string)
    requires '%' !in before
    requires |after| < 2 || !IsHex(after[0]) || !IsHex(after[1])
    ensures DecodeURIComponent(before + "%" + after).Err?
    decreases |before|
  {
    var s := before + "%" + after;
    if before == [] {
      assert s == "%" + after;
      assert ByteAt(s, 0).Err?;
    } else {
      assert s[0] == before[0] && s[1..] == before[1..] + "%" + after;
      BadEscapeInSegment(before[1..], after);
    }
  }
}
