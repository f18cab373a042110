/** Python's `int(text)` and `float(text)` for decimal text: whitespace around
    the literal is ignored, one sign is allowed, single underscores may group
    digits, and `float` also reads a fraction, an exponent and the words
    `inf`, `infinity` and `nan` in any letter case. Text that is not such a
    literal is the `ValueError` those calls raise, here `None`. */
module Numerals {
  import opened Wrappers
  import Text

  /** A Python float read from text: a finite value (exact), an infinity or NaN. */
  datatype Float = Finite(r: real) | Infinite(negative: bool) | NaN

  predicate IsDigit(c: char)
  {
    '0' <= c <= '9'
  }

  /** `s.strip()`: `s` without its leading and trailing whitespace. */
  function Strip(s: string): (r: string)
    ensures |r| <= |s|
    ensures |r| > 0 ==> !Text.IsSpace(r[0]) && !Text.IsSpace(r[|r| - 1])
  {
    if |s| > 0 && Text.IsSpace(s[0]) then Strip(s[1..])
    else if |s| > 0 && Text.IsSpace(s[|s| - 1]) then Strip(s[..|s| - 1])
    else s
  }

  /** A leading `+` or `-`, if any, and the text after it. */
  function SplitSign(t: string): (r: (bool, string))
    ensures |r.1| <= |t|
  {
    if |t| > 0 && (t[0] == '+' || t[0] == '-') then (t[0] == '-', t[1..]) else (false, t)
  }

  /** Python's `digitpart`: digits, where a single underscore may stand between two digits. */
  predicate IsDigitPart(s: string)
  {
    && |s| > 0 && IsDigit(s[0])
    && forall i | 0 <= i < |s| :: IsDigit(s[i]) || (s[i] == '_' && i + 1 < |s| && IsDigit(s[i + 1]))
  }

  /** The number the digits of `s` spell, underscores skipped. */
  function DigitsValue(s: string): nat
  {
    if s == [] then 0
    else
      var last := s[|s| - 1];
      var rest := DigitsValue(s[..|s| - 1]);
      if IsDigit(last) then rest * 10 + (last as int - '0' as int) else rest
  }

  /** How many digits `s` holds, underscores not counted. */
  function DigitCount(s: string): nat
  {
    if s == [] then 0
    else DigitCount(s[..|s| - 1]) + if IsDigit(s[|s| - 1]) then 1 else 0
  }

  function Pow10(n: nat): (p: nat)
    ensures p >= 1
  {
    if n == 0 then 1 else 10 * Pow10(n - 1)
  }

  /** Ten to the power `k`, for a negative `k` too. */
  function Scale(k: int): (r: real)
    ensures r > 0.0
  {
    if k >= 0 then Pow10(k) as real else 1.0 / Pow10(-k) as real
  }

  /** `int(text)`. */
  function ParseInt(s: string): Option<int>
  {
    IntLiteral(Strip(s))
  }

  /** `int(text)` once the whitespace is stripped. */
  function IntLiteral(t: string): Option<int>
  {
    var (negative, body) := SplitSign(t);
    var magnitude: int := DigitsValue(body);
    if IsDigitPart(body) then Some(if negative then -magnitude else magnitude) else None
  }

  function Lower(c: char): char
  {
    if 'A' <= c <= 'Z' then (c as int + 32) as char else c
  }

  /** `s` equals the lower-case `word` when ASCII letter case is ignored. */
  predicate IsWord(s: string, word: string)
  {
    |s| == |word| && forall i | 0 <= i < |s| :: Lower(s[i]) == word[i]
  }

  /** Where the exponent marker `e` or `E` is, or `|s|` without one. */
  function ExponentAt(s: string): (i: nat)
    ensures i <= |s|
    ensures forall j | 0 <= j < i :: s[j] != 'e' && s[j] != 'E'
    ensures i < |s| ==> s[i] == 'e' || s[i] == 'E'
  {
    if s == [] then 0
    else if s[0] == 'e' || s[0] == 'E' then 0
    else 1 + ExponentAt(s[1..])
  }

  /** Digits with an optional point: `digitpart`, `digitpart.`, `.digitpart` or `digitpart.digitpart`. */
  function Mantissa(s: string): Option<real>
  {
    if '.' !in s then
      if IsDigitPart(s) then Some(DigitsValue(s) as real) else None
    else
      var p := Text.IndexOf(s, '.');
      var whole := s[..p];
      var fraction := s[p + 1..];
      if (whole == "" || IsDigitPart(whole)) && (fraction == "" || IsDigitPart(fraction))
        && !(whole == "" && fraction == "")
      then Some(DigitsValue(whole) as real + DigitsValue(fraction) as real / Pow10(DigitCount(fraction)) as real)
      else None
  }

  /** An unsigned decimal literal with an optional signed exponent. */
  function Decimal(s: string): Option<real>
  {
    var e := ExponentAt(s);
    var m := Mantissa(s[..e]);
    if m.None? then None
    else if e == |s| then m
    else
      var (negative, digits) := SplitSign(s[e + 1..]);
      var k: int := DigitsValue(digits);
      if IsDigitPart(digits) then Some(m.value * Scale(if negative then -k else k))
      else None
  }

  /** `float(text)`. */
  function ParseFloat(s: string): Option<Float>
  {
    FloatLiteral(Strip(s))
  }

  /** `float(text)` once the whitespace is stripped. */
  function FloatLiteral(t: string): Option<Float>
  {
    var (negative, body) := SplitSign(t);
    if IsWord(body, "inf") || IsWord(body, "infinity") then Some(Infinite(negative))
    else if IsWord(body, "nan") then Some(NaN)
    else
      match Decimal(body)
      case None => None
      case Some(x) => Some(Finite(if negative then -x else x))
  }

  // ---------------------------------------------------------------------
  // Properties

  lemma DigitsValueAppend(s: string, c: char)
    requires IsDigit(c)
    ensures DigitsValue(s + [c]) == DigitsValue(s) * 10 + (c as int - '0' as int)
  {
    assert (s + [c])[..|s|] == s;
  }

  /** The decimal text `str(n)` writes spells `n` back. */
  lemma {:induction false} NatDigitsValue(n: nat)
    ensures IsDigitPart(Text.NatToString(n))
    ensures DigitsValue(Text.NatToString(n)) == n
  {
    if n < 10 {
      assert Text.NatToString(n) == [Text.DigitChar(n)];
      assert DigitsValue([Text.DigitChar(n)]) == DigitsValue([]) * 10 + (Text.DigitChar(n) as int - '0' as int);
    } else {
      NatDigitsValue(n / 10);
      DigitsValueAppend(Text.NatToString(n / 10), Text.DigitChar(n % 10));
    }
  }

  /** `int(str(n)) == n`: reading back what `str` writes gives the same integer. */
  lemma IntRoundTrip(n: int)
    ensures ParseInt(Text.IntToString(n)) == Some(n)
  {
    var digits := Text.NatToString(if n < 0 then -n else n);
    NatDigitsValue(if n < 0 then -n else n);
    var t := Text.IntToString(n);
    assert t == if n < 0 then "-" + digits else digits;
    assert t[0] == '-' || IsDigit(t[0]);
    assert IsDigit(t[|t| - 1]);
    Clean(t);
    if n < 0 {
      assert t[1..] == digits;
      assert SplitSign(t) == (true, digits);
    } else {
      assert SplitSign(t) == (false, digits);
    }
  }

  /** Text `int` accepts, `float` accepts too, with the same value. */
  lemma {:induction false} FloatOfIntText(s: string)
    requires ParseInt(s).Some?
    ensures ParseFloat(s) == Some(Finite(ParseInt(s).value as real))
  {
    var (negative, body) := SplitSign(Strip(s));
    assert IntLiteral(Strip(s)).Some?;
    assert IsDigit(body[0]);
    assert Lower(body[0]) == body[0];
    NoExponentInDigits(body);
    assert body[..|body|] == body;
    NoPointInDigits(body);
  }

  lemma NoExponentInDigits(s: string)
    requires IsDigitPart(s)
    ensures ExponentAt(s) == |s|
  {
    assert forall j | 0 <= j < |s| :: s[j] != 'e' && s[j] != 'E';
  }

  lemma NoPointInDigits(s: string)
    requires IsDigitPart(s)
    ensures '.' !in s
  {
    assert forall j | 0 <= j < |s| :: s[j] != '.';
  }

  /** Text that neither starts nor ends with whitespace is left as it is. */
  lemma Clean(t: string)
    requires |t| > 0 && (t[0] == '-' || t[0] == '+' || t[0] == '.' || IsDigit(t[0]) || 'A' <= t[0] <= 'z')
    requires IsDigit(t[|t| - 1]) || t[|t| - 1] == '.' || 'A' <= t[|t| - 1] <= 'z'
    ensures Strip(t) == t
  {
  }

  /** Whitespace around a literal is ignored. */
  lemma {:induction false} StripPadded(pre: string, t: string, post: string)
    requires Text.IsBlank(pre) && Text.IsBlank(post)
    requires |t| > 0 && !Text.IsSpace(t[0]) && !Text.IsSpace(t[|t| - 1])
    ensures Strip(pre + t + post) == t
    decreases |pre| + |post|
  {
    var s := pre + t + post;
    if |pre| > 0 {
      assert s[1..] == pre[1..] + t + post;
      StripPadded(pre[1..], t, post);
    } else if |post| > 0 {
      assert s == t + post;
      assert s[..|s| - 1] == pre + t + post[..|post| - 1];
      StripPadded(pre, t, post[..|post| - 1]);
    } else {
      assert s == t;
    }
  }

  /** So a padded literal reads as the literal itself. */
  lemma ParsePadded(pre: string, t: string, post: string)
    requires Text.IsBlank(pre) && Text.IsBlank(post)
    requires |t| > 0 && !Text.IsSpace(t[0]) && !Text.IsSpace(t[|t| - 1])
    ensures ParseInt(pre + t + post) == IntLiteral(t)
    ensures ParseFloat(pre + t + post) == FloatLiteral(t)
  {
    StripPadded(pre, t, post);
  }

  /** A fraction with its leading zero. */
  lemma HalfSample()
    ensures ParseFloat("0.5") == Some(Finite(0.5))
  {
    Clean("0.5");
    assert "0.5"[1] == '.' && Text.IndexOf("0.5", '.') == 1;
    assert "0.5"[..1] == "0" && "0.5"[2..] == "5";
    assert DigitsValue("5") == 5 && DigitCount("5") == 1 && DigitsValue("0") == 0;
  }

  /** A fraction without its leading zero. */
  lemma BareFractionSample()
    ensures ParseFloat(".5") == Some(Finite(0.5))
  {
    Clean(".5");
    assert ".5"[0] == '.' && Text.IndexOf(".5", '.') == 0;
    assert ".5"[..0] == "" && ".5"[1..] == "5";
    assert DigitsValue("5") == 5 && DigitCount("5") == 1;
  }

  /** A negative exponent scales the mantissa down. */
  lemma ExponentSample()
    ensures ParseFloat("5e-1") == Some(Finite(0.5))
  {
    Clean("5e-1");
    assert ExponentAt("5e-1") == 1;
    assert "5e-1"[..1] == "5" && "5e-1"[2..] == "-1";
    assert '.' !in "5";
    assert DigitsValue("1") == 1 && DigitsValue("5") == 5;
  }

  /** The infinity word, in any case and with a sign. */
  lemma InfinitySample()
    ensures ParseFloat("-Inf") == Some(Infinite(true))
  {
    Clean("-Inf");
    assert "-Inf"[1..] == "Inf";
    assert IsWord("Inf", "inf");
  }

  /** A lone point and a doubled underscore are not numbers. */
  lemma MalformedSamples()
    ensures ParseFloat(".") == None
    ensures ParseFloat("1__0") == None
  {
    Clean(".");
    Clean("1__0");
    assert !IsDigitPart("1__0") by {
      assert "1__0"[1] == '_' && !IsDigit("1__0"[2]);
    }
    assert !IsWord("1__0", "inf");
    assert '.' !in "1__0";
    assert ExponentAt("1__0") == 4;
    assert "1__0"[..4] == "1__0";
    assert "."[0] == '.' && Text.IndexOf(".", '.') == 0;
    assert "."[..0] == "" && "."[1..] == "";
  }

  /** `int` reads grouped digits with a sign, and refuses a fraction and empty text. */
  lemma IntSamples()
    ensures ParseInt("30") == Some(30)
    ensures ParseInt("-1_0") == Some(-10)
    ensures ParseInt("3.0") == None
    ensures ParseInt("") == None
  {
    Clean("30");
    Clean("-1_0");
    Clean("3.0");
    assert DigitsValue("3") == 3;
    assert "30"[..1] == "3";
    assert "-1_0"[1..] == "1_0";
    assert "1_0"[..2] == "1_" && "1_"[..1] == "1";
    assert DigitsValue("1") == 1;
    assert !IsDigit("3.0"[1]);
  }
}
