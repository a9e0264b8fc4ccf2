/** Decimal numerals as Python reads and writes them: `int(text)` on a
    string (surrounding whitespace, one optional sign, ASCII digits with
    single underscores between them) and `str(n)` / `"%0wd" % n` for
    rendering. */
module Numerals {
  import opened Wrappers
  import opened Text

  predicate IsDigit(c: char) {
    '0' <= c <= '9'
  }

  function DigitValue(c: char): (d: nat)
    requires IsDigit(c)
    ensures d < 10
  {
    c as int - '0' as int
  }

  function DigitChar(d: nat): (c: char)
    requires d < 10
    ensures IsDigit(c) && DigitValue(c) == d
  {
    ('0' as int + d) as char
  }

  predicate AllDigits(s: string) {
    forall i :: 0 <= i < |s| ==> IsDigit(s[i])
  }

  /** The body of a decimal literal: digits, where an underscore may stand
      only between two digits. */
  predicate DigitGroups(s: string) {
    |s| >= 1 && IsDigit(s[0]) && IsDigit(s[|s| - 1]) &&
    (forall i :: 0 <= i < |s| ==> IsDigit(s[i]) || s[i] == '_') &&
    (forall i :: 0 <= i < |s| - 1 ==> NoDoubleUnderscoreAt(s, i))
  }

  predicate NoDoubleUnderscoreAt(s: string, i: int)
    requires 0 <= i < |s| - 1
  {
    !(s[i] == '_' && s[i + 1] == '_')
  }

  /** The value of a digit string, underscores skipped. */
  function DigitsValue(s: string): nat
    requires forall i :: 0 <= i < |s| ==> IsDigit(s[i]) || s[i] == '_'
  {
    if s == [] then 0
    else
      var last := s[|s| - 1];
      if last == '_' then DigitsValue(s[..|s| - 1])
      else DigitsValue(s[..|s| - 1]) * 10 + DigitValue(last)
  }

  /** `int(s)` for a `str` argument: `None` stands for the ValueError. */
  function ParseInt(s: string): Option<int> {
    ParseLiteral(Strip(s))
  }

  /** The literal once the surrounding whitespace is gone. */
  function ParseLiteral(t: string): Option<int> {
    if t == [] then None
    else
      var body := if t[0] == '-' || t[0] == '+' then t[1..] else t;
      if !DigitGroups(body) then None
      else
        var v: int := DigitsValue(body);
        Some(if t[0] == '-' then -v else v)
  }

  /** `str(n)` for a natural number: no leading zeros, `"0"` for zero. */
  function Digits(n: nat): (s: string)
    ensures |s| >= 1 && AllDigits(s)
    ensures |s| > 1 ==> s[0] != '0'
  {
    if n < 10 then [DigitChar(n)] else Digits(n / 10) + [DigitChar(n % 10)]
  }

  function Zeros(k: nat): (s: string)
    ensures |s| == k && AllDigits(s)
  {
    seq(k, i => '0')
  }

  /** `"%0wd" % n`: at least `w` characters, padded on the left with zeros. */
  function Pad(n: nat, w: nat): (s: string)
    ensures |s| == if |Digits(n)| >= w then |Digits(n)| else w
    ensures AllDigits(s)
  {
    var d := Digits(n);
    if |d| >= w then d else Zeros(w - |d|) + d
  }

  /** `str(i)` for any integer. */
  function IntToString(i: int): (s: string)
    ensures |s| >= 1
  {
    if i < 0 then "-" + Digits(-i) else Digits(i)
  }

  /** Ten to the power `k`. */
  function Pow10(k: nat): (p: nat)
    ensures p >= 1
  {
    if k == 0 then 1 else 10 * Pow10(k - 1)
  }

  lemma {:induction false} DigitsValueOfDigits(n: nat)
    ensures DigitsValue(Digits(n)) == n
    decreases n
  {
    if n >= 10 {
      var d := Digits(n);
      DigitsValueOfDigits(n / 10);
      assert d[..|d| - 1] == Digits(n / 10);
    }
  }

  lemma {:induction false} DigitsValueOfZeros(k: nat)
    ensures DigitsValue(Zeros(k)) == 0
  {
    if k > 0 {
      assert Zeros(k)[..k - 1] == Zeros(k - 1);
      DigitsValueOfZeros(k - 1);
    }
  }

  /** Leading zeros do not change the value. */
  lemma {:induction false} DigitsValueLeadingZeros(k: nat, s: string)
    requires AllDigits(s)
    ensures DigitsValue(Zeros(k) + s) == DigitsValue(s)
    decreases |s|
  {
    if s == [] {
      assert Zeros(k) + s == Zeros(k);
      DigitsValueOfZeros(k);
    } else {
      var z := Zeros(k) + s;
      assert z[..|z| - 1] == Zeros(k) + s[..|s| - 1];
      DigitsValueLeadingZeros(k, s[..|s| - 1]);
    }
  }

  /** A string of digits only is a valid literal body. */
  lemma AllDigitsAreGroups(s: string)
    requires |s| >= 1 && AllDigits(s)
    ensures DigitGroups(s)
  {
  }

  /** `Digits` stays below the next power of ten, so a number below `10^w`
      needs at most `w` characters. */
  lemma {:induction false} DigitsLength(n: nat, w: nat)
    requires n < Pow10(w)
    ensures |Digits(n)| <= if w == 0 then 1 else w
    decreases n
  {
    if n >= 10 {
      assert Pow10(0) == 1 && Pow10(1) == 10;
      DigitsLength(n / 10, w - 1);
    }
  }

  /** A zero-padded rendering reads back as the number it renders. */
  lemma ParsePad(n: nat, w: nat)
    ensures ParseInt(Pad(n, w)) == Some(n)
  {
    var s := Pad(n, w);
    var d := Digits(n);
    StripOfUnpadded(s);
    AllDigitsAreGroups(s);
    DigitsValueOfDigits(n);
    if |d| < w {
      DigitsValueLeadingZeros(w - |d|, d);
    }
  }

  /** Without whitespace at either end, `int()` reads the literal as it stands. */
  lemma ParseIntUnpadded(s: string)
    requires s == [] || (!IsSpace(s[0]) && !IsSpace(s[|s| - 1]))
    ensures ParseInt(s) == ParseLiteral(s)
  {
    StripOfUnpadded(s);
  }

  /** An unsigned literal body with no surrounding whitespace reads as its value. */
  lemma ParseIntOfGroups(s: string)
    requires DigitGroups(s)
    ensures ParseInt(s) == Some(DigitsValue(s))
  {
    ParseIntUnpadded(s);
  }

  /** A minus sign in front of an unsigned literal body negates its value. */
  lemma ParseIntOfNegated(s: string)
    requires DigitGroups(s)
    ensures ParseInt("-" + s) == Some(-(DigitsValue(s) as int))
  {
    var t := "-" + s;
    assert t[0] == '-' && t[1..] == s;
    assert !IsSpace(t[|t| - 1]) by { assert t[|t| - 1] == s[|s| - 1]; }
    ParseIntUnpadded(t);
    assert ParseLiteral(t) == Some(-(DigitsValue(s) as int));
  }

  lemma ParseIntOfDigits(n: nat)
    ensures ParseInt(Digits(n)) == Some(n)
  {
    AllDigitsAreGroups(Digits(n));
    DigitsValueOfDigits(n);
    ParseIntOfGroups(Digits(n));
  }

  lemma ParseIntOfNegativeDigits(n: nat)
    ensures ParseInt("-" + Digits(n)) == Some(-(n as int))
  {
    var d := Digits(n);
    AllDigitsAreGroups(d);
    DigitsValueOfDigits(n);
    NegatedValue(d, n);
  }

  /** A minus sign in front of a literal body of value `n` reads as `-n`. */
  lemma NegatedValue(d: string, n: nat)
    requires DigitGroups(d) && DigitsValue(d) == n
    ensures ParseInt("-" + d) == Some(-(n as int))
  {
    ParseIntOfNegated(d);
  }

  /** `int(str(i)) == i`. */
  lemma ParseIntToString(i: int)
    ensures ParseInt(IntToString(i)) == Some(i)
  {
    if i < 0 {
      ParseIntOfNegativeDigits(-i);
    } else {
      ParseIntOfDigits(i);
    }
  }

  /** `int()` ignores the whitespace around its argument. */
  lemma ParseIntIgnoresPadding(s: string)
    ensures ParseInt(Strip(s)) == ParseInt(s)
  {
    StripIdempotent(s);
  }

  /** Underscores between digit groups are accepted and skipped. */
  lemma ParseIntUnderscoreExample()
    ensures ParseInt(" 1_000 ") == Some(1000)
  {
    StripThousand();
    ThousandWithUnderscore();
    ParseIntOfGroups("1_000");
    assert ParseInt(" 1_000 ") == ParseLiteral("1_000");
  }

  /** The padding around ` 1_000 ` is stripped. */
  lemma StripThousand()
    ensures Strip(" 1_000 ") == "1_000"
  {
    assert LStrip(" 1_000 ") == "1_000 ";
    assert RStrip("1_000 ") == "1_000";
  }

  /** `1_000` is a literal body of value 1000. */
  lemma ThousandWithUnderscore()
    ensures DigitGroups("1_000") && DigitsValue("1_000") == 1000
  {
    assert DigitGroups("1_000");
    assert "1_000"[..4] == "1_00";
    assert "1_00"[..3] == "1_0";
    assert "1_0"[..2] == "1_";
    assert "1_"[..1] == "1";
    assert "1"[..0] == "";
  }

  /** A doubled or leading underscore is a ValueError. */
  lemma ParseIntBadUnderscoreExample()
    ensures ParseInt("1__000") == None
    ensures ParseInt("_1") == None
  {
    StripOfUnpadded("1__000");
    assert !DigitGroups("1__000") by { assert !NoDoubleUnderscoreAt("1__000", 1); }
    StripOfUnpadded("_1");
  }

  /** A sign and leading zeros are accepted. */
  lemma ParseIntSignExample()
    ensures ParseInt("-07") == Some(-7)
  {
    assert DigitsValue("07") == 7 by {
      assert "07"[..1] == "0";
      assert "0"[..0] == "";
    }
    ParseIntOfNegated("07");
  }
}
