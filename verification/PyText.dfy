/** The Python string operations the application relies on: strip, int, str and isdigit. */
module PyText {
  import opened Wrappers

  /** The characters removed by str.strip() with no argument. */
  predicate IsSpace(c: char) {
    var n := c as int;
    || 0x09 <= n <= 0x0d || 0x1c <= n <= 0x20 || n == 0x85 || n == 0xa0 || n == 0x1680
    || 0x2000 <= n <= 0x200a || n == 0x2028 || n == 0x2029 || n == 0x202f || n == 0x205f || n == 0x3000
  }

  function LStrip(s: string): string {
    if s != [] && IsSpace(s[0]) then LStrip(s[1..]) else s
  }

  function RStrip(s: string): string {
    if s != [] && IsSpace(s[|s| - 1]) then RStrip(s[..|s| - 1]) else s
  }

  function Strip(s: string): string {
    RStrip(LStrip(s))
  }

  predicate Blank(s: string) {
    Strip(s) == []
  }

  predicate Trimmed(s: string) {
    s != [] ==> !IsSpace(s[0]) && !IsSpace(s[|s| - 1])
  }

  lemma {:induction false} LStripPart(s: string)
    ensures |LStrip(s)| <= |s| && LStrip(s) == s[|s| - |LStrip(s)|..]
    ensures LStrip(s) != [] ==> !IsSpace(LStrip(s)[0])
  {
    if s != [] && IsSpace(s[0]) {
      LStripPart(s[1..]);
    }
  }

  lemma {:induction false} RStripPart(s: string)
    ensures RStrip(s) <= s
    ensures RStrip(s) != [] ==> !IsSpace(RStrip(s)[|RStrip(s)| - 1])
    ensures s != [] && !IsSpace(s[0]) ==> RStrip(s) != []
  {
    if s != [] && IsSpace(s[|s| - 1]) {
      RStripPart(s[..|s| - 1]);
    }
  }

  /** strip() returns a contiguous part of its argument with no space at either end. */
  lemma StripPart(s: string)
    ensures Trimmed(Strip(s))
    ensures forall c :: c in Strip(s) ==> c in s
  {
    LStripPart(s);
    RStripPart(LStrip(s));
  }

  lemma StripTrimmed(s: string)
    requires Trimmed(s)
    ensures Strip(s) == s
  {
  }

  predicate AllSpaces(s: string) {
    forall c :: c in s ==> IsSpace(c)
  }

  /** t is s without the spaces around it. */
  ghost predicate IsStripOf(t: string, s: string) {
    Trimmed(t) && exists l, r :: AllSpaces(l) && AllSpaces(r) && s == l + t + r
  }

  lemma {:induction false} LStripSpaces(l: string, s: string)
    requires AllSpaces(l)
    ensures LStrip(l + s) == LStrip(s)
  {
    if l == [] {
      assert l + s == s;
    } else {
      assert l[0] in l;
      LStripSpaces(l[1..], s);
      assert (l + s)[1..] == l[1..] + s;
    }
  }

  lemma {:induction false} RStripSpaces(s: string, r: string)
    requires AllSpaces(r)
    ensures RStrip(s + r) == RStrip(s)
  {
    if r == [] {
      assert s + r == s;
    } else {
      var n := |r| - 1;
      RStripSpaces(s, r[..n]);
      assert (s + r)[|s| + n] == r[n] && r[n] in r;
      assert RStrip(s + r) == RStrip((s + r)[..|s + r| - 1]);
      hide RStrip;
      assert (s + r)[..|s + r| - 1] == s + r[..n];
    }
  }

  lemma {:induction false} LStripDropsSpaces(s: string)
    ensures |LStrip(s)| <= |s| && AllSpaces(s[..|s| - |LStrip(s)|])
  {
    LStripPart(s);
    if s != [] && IsSpace(s[0]) {
      LStripPart(s[1..]);
      LStripDropsSpaces(s[1..]);
      var n := |s| - |LStrip(s)|;
      assert s[..n] == [s[0]] + s[1..][..n - 1];
    }
  }

  lemma {:induction false} RStripDropsSpaces(s: string)
    ensures |RStrip(s)| <= |s| && AllSpaces(s[|RStrip(s)|..])
  {
    RStripPart(s);
    if s != [] && IsSpace(s[|s| - 1]) {
      var init := s[..|s| - 1];
      RStripPart(init);
      RStripDropsSpaces(init);
      assert s[|RStrip(s)|..] == init[|RStrip(s)|..] + [s[|s| - 1]];
    }
  }

  lemma StripFits(s: string)
    ensures IsStripOf(Strip(s), s)
  {
    var u := LStrip(s);
    var t := RStrip(u);
    StripPart(s);
    LStripDropsSpaces(s);
    RStripDropsSpaces(u);
    LStripPart(s);
    RStripPart(u);
    hide LStrip, RStrip;
    var l, r := s[..|s| - |u|], u[|t|..];
    assert u == t + r;
    assert s == l + u;
    assert s == l + t + r;
  }

  lemma StripOnly(s: string, t: string, l: string, r: string)
    requires Trimmed(t) && AllSpaces(l) && AllSpaces(r) && s == l + t + r
    ensures t == Strip(s)
  {
    assert s == l + (t + r);
    LStripSpaces(l, t + r);
    if t == [] {
      assert t + r == r + [];
      LStripSpaces(r, []);
    } else {
      assert (t + r)[0] == t[0];
      assert LStrip(t + r) == t + r;
      RStripSpaces(t, r);
    }
  }

  /** strip() removes the surrounding spaces and nothing else; its result is the only such text. */
  lemma StripIsUnique(s: string, t: string)
    ensures IsStripOf(t, s) <==> t == Strip(s)
  {
    StripFits(s);
    hide Strip;
    if IsStripOf(t, s) {
      var l, r :| AllSpaces(l) && AllSpaces(r) && s == l + t + r;
      StripOnly(s, t, l, r);
    }
  }

  lemma {:induction false} BlankIffAllSpaces(s: string)
    ensures Blank(s) <==> forall c :: c in s ==> IsSpace(c)
  {
    LStripPart(s);
    RStripPart(LStrip(s));
    if s != [] && IsSpace(s[0]) {
      BlankIffAllSpaces(s[1..]);
      assert s == [s[0]] + s[1..];
    }
  }

  /** The zeros of the decimal digits outside ASCII (Unicode 15.0, general category Nd); nine digits follow each. */
  const OTHER_ZEROS: seq<int> := [
    0x660, 0x6f0, 0x7c0, 0x966, 0x9e6, 0xa66, 0xae6, 0xb66, 0xbe6, 0xc66, 0xce6, 0xd66, 0xde6, 0xe50, 0xed0,
    0xf20, 0x1040, 0x1090, 0x17e0, 0x1810, 0x1946, 0x19d0, 0x1a80, 0x1a90, 0x1b50, 0x1bb0, 0x1c40, 0x1c50,
    0xa620, 0xa8d0, 0xa900, 0xa9d0, 0xa9f0, 0xaa50, 0xabf0, 0xff10, 0x104a0, 0x10d30, 0x11066, 0x110f0,
    0x11136, 0x111d0, 0x112f0, 0x11450, 0x114d0, 0x11650, 0x116c0, 0x11730, 0x118e0, 0x11950, 0x11c50, 0x11d50,
    0x11da0, 0x11f50, 0x16a60, 0x16ac0, 0x16b50, 0x1d7ce, 0x1d7d8, 0x1d7e2, 0x1d7ec, 0x1d7f6, 0x1e140, 0x1e2f0,
    0x1e4f0, 0x1e950, 0x1fbf0]

  /** First and last of the characters that are digits but not decimal ones, as superscripts and circled digits. */
  const OTHER_DIGITS: seq<(int, int)> := [
    (0xb2, 0xb3), (0xb9, 0xb9), (0x1369, 0x1371), (0x19da, 0x19da), (0x2070, 0x2070), (0x2074, 0x2079),
    (0x2080, 0x2089), (0x2460, 0x2468), (0x2474, 0x247c), (0x2488, 0x2490), (0x24ea, 0x24ea), (0x24f5, 0x24fd),
    (0x24ff, 0x24ff), (0x2776, 0x277e), (0x2780, 0x2788), (0x278a, 0x2792), (0x10a40, 0x10a43),
    (0x10e60, 0x10e68), (0x11052, 0x1105a), (0x1f100, 0x1f10a)]

  function DigitAfter(zeros: seq<int>, n: int): (d: Option<int>)
    ensures d.Some? ==> 0 <= d.value < 10
  {
    if zeros == [] then None
    else if zeros[0] <= n < zeros[0] + 10 then Some(n - zeros[0])
    else DigitAfter(zeros[1..], n)
  }

  predicate InRanges(ranges: seq<(int, int)>, n: int) {
    ranges != [] && (ranges[0].0 <= n <= ranges[0].1 || InRanges(ranges[1..], n))
  }

  /** The value of a decimal digit of any script: what int() and the pattern \d take for a digit. */
  function DigitValue(c: char): (d: Option<int>)
    ensures d.Some? ==> 0 <= d.value < 10
    ensures '0' <= c <= '9' ==> d == Some(c as int - 0x30)
    ensures c < '\U{0660}' && d.Some? ==> '0' <= c <= '9'
  {
    if '0' <= c <= '9' then Some(c as int - 0x30)
    else if c < '\U{0660}' then None
    else DigitAfter(OTHER_ZEROS, c as int)
  }

  /** str.isdigit() of one character: a decimal digit, or another character that stands for a digit. */
  predicate IsDigit(c: char)
    ensures IsDigit(c) && c < '\U{0080}' ==> '0' <= c <= '9'
  {
    DigitValue(c).Some? || (c >= '\U{0080}' && InRanges(OTHER_DIGITS, c as int))
  }

  /** str.isdigit() */
  predicate IsDigits(s: string) {
    s != [] && forall c :: c in s ==> IsDigit(c)
  }

  predicate AllDecimal(s: string) {
    forall c :: c in s ==> DigitValue(c).Some?
  }

  /** One or more decimal digits, single underscores allowed between two of them. */
  function DigitsValue(s: string): (v: Option<int>)
    ensures v.Some? ==> v.value >= 0
  {
    if s == [] then None
    else
      var d := DigitValue(s[|s| - 1]);
      if d.None? then None
      else if |s| == 1 then d
      else
        var high := DigitsValue(if s[|s| - 2] == '_' then s[..|s| - 2] else s[..|s| - 1]);
        if high.None? then None else Some(10 * high.value + d.value)
  }

  /** The interpreter's limit on the digits of an integer that is read from text or written as text. */
  const MAX_INT_DIGITS := 4300

  function DigitCount(s: string): (n: nat)
    ensures n <= |s|
  {
    if s == [] then 0 else DigitCount(s[..|s| - 1]) + (if s[|s| - 1] == '_' then 0 else 1)
  }

  function LimitedValue(s: string): Option<int> {
    if DigitCount(s) > MAX_INT_DIGITS then None else DigitsValue(s)
  }

  /** int(s): surrounding space, an optional sign, digits; None when it raises ValueError. */
  function ParseInt(s: string): Option<int> {
    var t := Strip(s);
    if t != [] && t[0] == '-' then
      var v := LimitedValue(t[1..]);
      if v.Some? then Some(-v.value) else None
    else if t != [] && t[0] == '+' then LimitedValue(t[1..])
    else LimitedValue(t)
  }

  function NatToString(n: nat): (s: string)
    ensures s != [] && IsDigits(s)
    ensures forall c :: c in s ==> '0' <= c <= '9'
    ensures DigitsValue(s) == Some(n)
  {
    var d := (0x30 + n % 10) as char;
    if n < 10 then [d]
    else
      var high := NatToString(n / 10);
      assert (high + [d])[..|high|] == high;
      high + [d]
  }

  /** The decimal text of n. */
  function IntToString(n: int): string {
    if n < 0 then "-" + NatToString(-n) else NatToString(n)
  }

  /** str(n) returns; beyond the limit it raises ValueError. */
  predicate Printable(n: int) {
    |NatToString(if n < 0 then -n else n)| <= MAX_INT_DIGITS
  }

  predicate NumberChars(s: string) {
    s != [] && forall c :: c in s ==> c == '-' || '0' <= c <= '9'
  }

  lemma {:induction false} CountWithoutUnderscores(s: string)
    requires '_' !in s
    ensures DigitCount(s) == |s|
  {
    if s != [] {
      CountWithoutUnderscores(s[..|s| - 1]);
    }
  }

  lemma {:induction false} NatReadsBack(n: nat)
    ensures LimitedValue(NatToString(n)) == if |NatToString(n)| <= MAX_INT_DIGITS then Some(n) else None
  {
    hide DigitsValue, DigitCount, NatToString, IsDigits;
    CountWithoutUnderscores(NatToString(n));
  }

  lemma NumberText(n: int)
    ensures NumberChars(IntToString(n)) && Trimmed(IntToString(n))
    ensures IntToString(n)[0] == '-' <==> n < 0
    ensures IntToString(n)[0] != '+'
  {
    hide DigitsValue, IsDigits, NatToString;
    var s := IntToString(n);
    assert forall c :: c in s ==> c == '-' || '0' <= c <= '9';
    assert s[0] in s && s[|s| - 1] in s;
    var digits := NatToString(if n < 0 then -n else n);
    assert digits[0] in digits;
  }

  /** int() reads the text of n as n exactly when str() can print n: a number stored as text is read back unchanged. */
  lemma IntRoundTrip(n: int)
    ensures NumberChars(IntToString(n)) && Trimmed(IntToString(n))
    ensures ParseInt(IntToString(n)) == if Printable(n) then Some(n) else None
  {
    NumberText(n);
    StripTrimmed(IntToString(n));
    NatReadsBack(if n < 0 then -n else n);
    hide Strip, LimitedValue, NatToString, Trimmed, NumberChars;
    assert n < 0 ==> IntToString(n)[1..] == NatToString(-n);
  }

  lemma {:induction false} NatSnoc(n: nat)
    ensures |NatToString(n)| == if n < 10 then 1 else |NatToString(n / 10)| + 1
  {
  }

  /** Reading never produces a number with more digits than were read. */
  lemma {:induction false} ValueIsShort(s: string)
    ensures DigitsValue(s).Some? ==> |NatToString(DigitsValue(s).value)| <= DigitCount(s)
  {
    if DigitsValue(s).Some? {
      NatSnoc(DigitsValue(s).value);
      hide NatToString, DigitValue;
      if |s| > 1 {
        var init := s[..|s| - 1];
        var high := if s[|s| - 2] == '_' then s[..|s| - 2] else init;
        assert s[|s| - 2] == '_' ==> init[..|init| - 1] == high;
        ValueIsShort(high);
        assert DigitsValue(s).value / 10 == DigitsValue(high).value;
      }
    }
  }

  /** Every number that int() returns can be printed. */
  lemma ParsedIsPrintable(s: string)
    ensures ParseInt(s).Some? ==> Printable(ParseInt(s).value)
  {
    hide Strip, DigitsValue, DigitCount, NatToString;
    var t := Strip(s);
    ValueIsShort(t);
    if t != [] {
      ValueIsShort(t[1..]);
    }
  }

  // ---- What int() reads ----

  /** Surrounding spaces do not count. */
  lemma SpacesAround(l: string, s: string, r: string)
    requires AllSpaces(l) && AllSpaces(r) && Trimmed(s)
    ensures ParseInt(l + s + r) == ParseInt(s)
  {
    StripOnly(l + s + r, s, l, r);
    StripTrimmed(s);
    hide Strip, LimitedValue;
  }

  lemma SignedTrimmed(sign: char, u: string)
    requires u != [] && Trimmed(u) && !IsSpace(sign)
    ensures Strip([sign] + u) == [sign] + u && Strip(u) == u && ([sign] + u)[1..] == u
  {
    StripTrimmed(u);
    StripTrimmed([sign] + u);
  }

  /** One sign may stand before the digits. */
  lemma {:induction false} SignsAreRead(u: string)
    requires Trimmed(u) && DigitsValue(u).Some?
    ensures ParseInt("+" + u) == ParseInt(u)
    ensures ParseInt("-" + u) == if ParseInt(u).Some? then Some(-ParseInt(u).value) else None
  {
    DigitsAtEnds(u);
    assert u[0] != '-' && u[0] != '+';
    hide DigitsValue, LimitedValue, DigitValue, Strip;
    SignedTrimmed('+', u);
    SignedTrimmed('-', u);
    hide Trimmed;
    assert "+" + u == ['+'] + u && "-" + u == ['-'] + u;
  }

  /** A text with a value begins and ends with a decimal digit. */
  lemma {:induction false} DigitsAtEnds(s: string)
    requires DigitsValue(s).Some?
    ensures s != [] && DigitValue(s[0]).Some? && DigitValue(s[|s| - 1]).Some?
  {
    hide DigitValue;
    if |s| > 1 {
      DigitsAtEnds(if s[|s| - 2] == '_' then s[..|s| - 2] else s[..|s| - 1]);
    }
  }

  lemma {:induction false} ValueSnoc(init: string, c: char)
    requires init != [] && init[|init| - 1] != '_' && DigitValue(c).Some?
    ensures DigitsValue(init + [c]) ==
            var high := DigitsValue(init); if high.None? then None else Some(10 * high.value + DigitValue(c).value)
  {
    hide DigitValue;
    var s := init + [c];
    assert s[..|s| - 1] == init && s[|s| - 2] == init[|init| - 1];
  }

  lemma {:induction false} ValueAcross(init: string, c: char)
    requires init != [] && DigitValue(c).Some?
    ensures DigitsValue(init + "_" + [c]) ==
            var high := DigitsValue(init); if high.None? then None else Some(10 * high.value + DigitValue(c).value)
  {
    hide DigitValue;
    var s := init + "_" + [c];
    assert s[..|s| - 2] == init && s[|s| - 2] == '_' && s[|s| - 1] == c;
  }

  /** A further digit counts ten of the number before it, with or without an underscore in between. */
  lemma {:induction false} NextDigit(s: string, c: char)
    requires DigitsValue(s).Some? && DigitValue(c).Some?
    ensures DigitsValue(s + [c]) == DigitsValue(s + "_" + [c]) == Some(10 * DigitsValue(s).value + DigitValue(c).value)
  {
    DigitsAtEnds(s);
    assert s[|s| - 1] != '_';
    hide DigitsValue, DigitValue;
    ValueSnoc(s, c);
    ValueAcross(s, c);
  }
}
