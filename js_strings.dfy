/** The few JavaScript string facilities the parser relies on, over strings of
    Unicode scalar values: the `\s` class and `String.prototype.trim`, the
    UTF-16 `length`, and the decimal rendering of a non-negative integer in a
    template literal. */
module JsStrings {

  /** A character of the `\s` class, which is also the set `trim` removes:
      ECMAScript WhiteSpace (tab, vertical tab, form feed, space, no-break
      space, byte order mark and the space separators) and LineTerminator. */
  predicate IsJsSpace(c: char) {
    var u := c as int;
    (0x09 <= u <= 0x0D) || u == 0x20 || u == 0xA0 || u == 0x1680 || (0x2000 <= u <= 0x200A)
    || u == 0x2028 || u == 0x2029 || u == 0x202F || u == 0x205F || u == 0x3000 || u == 0xFEFF
  }

  /** `/^\s*$/.test(s)`. */
  predicate IsBlank(s: string) {
    forall i :: 0 <= i < |s| ==> IsJsSpace(s[i])
  }

  function TrimStart(s: string): (r: string)
    ensures |r| <= |s| && r == s[|s| - |r|..]
    ensures IsBlank(s[..|s| - |r|])
    ensures r == [] || !IsJsSpace(r[0])
    decreases |s|
  {
    if s != [] && IsJsSpace(s[0]) then
      var r := TrimStart(s[1..]);
      assert s[..|s| - |r|] == [s[0]] + s[1..][..|s| - 1 - |r|];
      r
    else s
  }

  function TrimEnd(s: string): (r: string)
    ensures |r| <= |s| && r == s[..|r|]
    ensures IsBlank(s[|r|..])
    ensures r == [] || !IsJsSpace(r[|r| - 1])
    decreases |s|
  {
    if s != [] && IsJsSpace(s[|s| - 1]) then
      var r := TrimEnd(s[..|s| - 1]);
      assert s[|r|..] == s[..|s| - 1][|r|..] + [s[|s| - 1]];
      r
    else s
  }

  /** `s.trim()`. */
  function Trim(s: string): string {
    TrimEnd(TrimStart(s))
  }

  /** A string with no whitespace at either end is its own trim. */
  lemma TrimmedAlready(s: string)
    requires s != [] && !IsJsSpace(s[0]) && !IsJsSpace(s[|s| - 1])
    ensures Trim(s) == s
  {
    assert TrimStart(s) == s;
  }

  lemma {:induction false} BlankTrimsAway(s: string)
    requires IsBlank(s)
    ensures TrimStart(s) == []
    decreases |s|
  {
    if s != [] {
      BlankTrimsAway(s[1..]);
    }
  }

  /** Trimming leaves nothing exactly when the string is blank. */
  lemma TrimEmptyIffBlank(s: string)
    ensures Trim(s) == [] <==> IsBlank(s)
  {
    var t := TrimStart(s);
    if Trim(s) == [] {
      assert IsBlank(t[..|t|]);
      assert s == s[..|s| - |t|] + t;
    }
    if IsBlank(s) {
      BlankTrimsAway(s);
    }
  }

  /** `s.length`: UTF-16 code units, two for a character outside the Basic
      Multilingual Plane. */
  function Utf16Length(s: string): (n: nat)
    ensures n >= |s|
    decreases |s|
  {
    if s == [] then 0 else (if s[0] as int > 0xFFFF then 2 else 1) + Utf16Length(s[1..])
  }

  /** A string of Basic Multilingual Plane characters has one code unit per character. */
  lemma {:induction false} Utf16LengthBmp(s: string)
    requires forall i :: 0 <= i < |s| ==> s[i] as int <= 0xFFFF
    ensures Utf16Length(s) == |s|
    decreases |s|
  {
    if s != [] {
      Utf16LengthBmp(s[1..]);
    }
  }

  /** The UTF-16 code units of one character: itself inside the Basic
      Multilingual Plane, a high and a low surrogate outside it. */
  function CharUnits(c: char): (r: seq<int>)
    ensures |r| == (if c as int > 0xFFFF then 2 else 1)
  {
    var n := c as int;
    if n > 0xFFFF then [0xD800 + (n - 0x10000) / 0x400, 0xDC00 + (n - 0x10000) % 0x400] else [n]
  }

  /** The UTF-16 code units of a string. */
  function Utf16Units(s: string): (r: seq<int>)
    ensures |r| == Utf16Length(s)
    decreases |s|
  {
    if s == [] then [] else CharUnits(s[0]) + Utf16Units(s[1..])
  }

  lemma {:induction false} Utf16UnitsAppend(a: string, b: string)
    ensures Utf16Units(a + b) == Utf16Units(a) + Utf16Units(b)
    decreases |a|
  {
    if a == [] {
      assert a + b == b;
    } else {
      assert (a + b)[0] == a[0];
      assert (a + b)[1..] == a[1..] + b;
      Utf16UnitsAppend(a[1..], b);
    }
  }

  predicate IsDigit(c: char) {
    '0' <= c <= '9'
  }

  predicate AllDigits(s: string) {
    forall i :: 0 <= i < |s| ==> IsDigit(s[i])
  }

  function DigitChar(d: nat): (c: char)
    requires d < 10
    ensures IsDigit(c) && c as int - '0' as int == d
  {
    ('0' as int + d) as char
  }

  /** `${n}` for a non-negative integer: its decimal digits, most significant first. */
  function NatToString(n: nat): (r: string)
    ensures r != [] && AllDigits(r)
    decreases n
  {
    if n < 10 then [DigitChar(n)] else NatToString(n / 10) + [DigitChar(n % 10)]
  }

  /** The number a string of decimal digits denotes. */
  function DigitsValue(s: string): nat
    requires AllDigits(s)
    decreases |s|
  {
    if s == [] then 0
    else DigitsValue(s[..|s| - 1]) * 10 + (s[|s| - 1] as int - '0' as int)
  }

  /** Reading the rendered digits back gives the number. */
  lemma {:induction false} NatToStringRoundTrip(n: nat)
    ensures DigitsValue(NatToString(n)) == n
    decreases n
  {
    if n >= 10 {
      var r := NatToString(n);
      NatToStringRoundTrip(n / 10);
      assert r[..|r| - 1] == NatToString(n / 10);
    }
  }

  lemma NatToStringInjective(a: nat, b: nat)
    requires NatToString(a) == NatToString(b)
    ensures a == b
  {
    NatToStringRoundTrip(a);
    NatToStringRoundTrip(b);
  }

  /** `${n0}-${n1}-...`: the numbers in decimal, joined by '-'. */
  function Dashed(ns: seq<nat>): (r: string)
    requires ns != []
    decreases |ns|
  {
    if |ns| == 1 then NatToString(ns[0]) else NatToString(ns[0]) + "-" + Dashed(ns[1..])
  }

  /** In a string of digits followed by '-', the first '-' is right after the digits. */
  lemma FirstDash(a: string, b: string)
    requires AllDigits(a)
    ensures (a + "-" + b)[|a|] == '-'
    ensures forall i :: 0 <= i < |a| ==> (a + "-" + b)[i] != '-'
  {
  }

  /** Two strings of digits each followed by '-' can only be split one way. */
  lemma SplitAtDash(a: string, b: string, c: string, d: string)
    requires AllDigits(a) && AllDigits(c)
    requires a + "-" + b == c + "-" + d
    ensures a == c && b == d
  {
    var s := a + "-" + b;
    FirstDash(a, b);
    FirstDash(c, d);
    assert |a| == |c|;
    assert a == s[..|a|] == c;
    assert b == s[|a| + 1..] == d;
  }

  /** A joined list holds a '-' exactly when it has more than one number. */
  lemma DashInDashed(ns: seq<nat>)
    requires ns != []
    ensures '-' in Dashed(ns) <==> |ns| > 1
  {
    var a := NatToString(ns[0]);
    if |ns| == 1 {
      assert forall i :: 0 <= i < |a| ==> a[i] != '-';
    } else {
      assert (a + "-" + Dashed(ns[1..]))[|a|] == '-';
    }
  }

  /** Distinct lists of numbers are joined into distinct strings. */
  lemma {:induction false} DashedInjective(ns: seq<nat>, ms: seq<nat>)
    requires ns != [] && ms != []
    requires Dashed(ns) == Dashed(ms)
    ensures ns == ms
    decreases |ns|
  {
    DashInDashed(ns);
    DashInDashed(ms);
    if |ns| == 1 {
      NatToStringInjective(ns[0], ms[0]);
    } else {
      SplitAtDash(NatToString(ns[0]), Dashed(ns[1..]), NatToString(ms[0]), Dashed(ms[1..]));
      NatToStringInjective(ns[0], ms[0]);
      DashedInjective(ns[1..], ms[1..]);
      assert ns == [ns[0]] + ns[1..];
      assert ms == [ms[0]] + ms[1..];
    }
  }
}
