/** The two `formatResult` functions: the engine's (calculator/domain/
    CalculatorEngine.kt) and the older one of the two-operand view model
    (CalculatorViewModel.kt in the root package). Integral values print as a
    Long; other values print as `Double.toString` gives them, cut to the
    display budget of `MAX_NUM_LENGTH` characters. */
module ResultFormat {
  import opened Wrappers
  import opened Text
  import opened Doubles

  const MAX_NUM_LENGTH: nat := 9

  /** `if (integerPart.contains("-")) 1 else 0` */
  function SignLength(intPart: string): (n: nat)
    ensures n <= 1 && (n == 1 <==> '-' in intPart)
  {
    if '-' in intPart then 1 else 0
  }

  /** The text before the first '.', which both formatters keep whole. */
  function IntegerPart(s: string): (r: string)
    requires '.' in s
    ensures r <= s && '.' !in r && |r| < |s| && s[|r|] == '.'
  {
    s[..IndexOf(s, '.')]
  }

  /** The parts of `s.split(".")` the formatters use: the integer part, then
      the field after the first point, which follows it in `s`. */
  lemma SplitAtPoint(s: string)
    requires '.' in s
    ensures var parts := Split(s, '.');
      |parts| > 1 && parts[0] == IntegerPart(s) &&
      parts[1] <= s[|IntegerPart(s)| + 1..]
  {
    var i := IndexOf(s, '.');
    var rest := s[i + 1..];
    assert Split(s, '.') == [s[..i]] + Split(rest, '.');
    assert Split(rest, '.')[0] == rest[..|Split(rest, '.')[0]|];
  }

  /** `intPart + "." + frac.take(n)` is a prefix of `s` whenever `frac` is a
      prefix of what follows the point. */
  lemma JoinedIsPrefix(s: string, frac: string, n: nat)
    requires '.' in s
    requires frac <= s[|IntegerPart(s)| + 1..]
    ensures IntegerPart(s) + "." + Take(frac, n) <= s
  {
    var i := |IntegerPart(s)|;
    var t := Take(frac, n);
    assert s == s[..i] + "." + s[i + 1..];
    assert t <= s[i + 1..];
    assert s[i + 1..] == t + s[i + 1..][|t|..];
  }

  /** `availableDecimalLength`: the fractional digits the engine keeps after
      an integer part, leaving room for the sign and the point. */
  function Available(intPart: string): int {
    MAX_NUM_LENGTH - |intPart| - SignLength(intPart) - 1
  }

  /** The field after the first point (`parts[1]` of `split(".")`). */
  function Fraction(s: string): string
    requires '.' in s
  {
    Split(s, '.')[1]
  }

  /** How many characters `take(n)` keeps of a fraction. */
  function Kept(n: int, frac: string): int {
    if n <= |frac| then n else |frac|
  }

  /** The engine's truncation of the decimal string. */
  function FormatDecimal(s: string): string {
    if |s| > MAX_NUM_LENGTH + 1 then
      var parts := Split(s, '.');
      if |parts| > 1 then
        var intPart := parts[0];
        var available := Available(intPart);
        if available <= 0 then intPart
        else intPart + "." + Take(parts[1], available)
      else Take(s, MAX_NUM_LENGTH + 1)
    else s
  }

  /** A long decimal string cut by the engine: the integer part alone when it
      leaves no room for a digit, otherwise the integer part, the point and
      as many fractional digits as the budget allows, at most nine
      characters in all. */
  lemma LongDecimalCut(s: string)
    requires |s| > MAX_NUM_LENGTH + 1 && '.' in s
    ensures var r, i := FormatDecimal(s), IntegerPart(s);
      && r <= s
      && (r == i <==> Available(i) <= 0)
      && (Available(i) > 0 ==>
            |r| == |i| + 1 + Kept(Available(i), Fraction(s)) && |r| <= MAX_NUM_LENGTH)
  {
    var parts := Split(s, '.');
    SplitAtPoint(s);
    var available := Available(parts[0]);
    if available > 0 {
      JoinedIsPrefix(s, parts[1], available);
    }
  }

  /** The engine's truncation keeps a short string whole. A long one without
      a point is cut to the ten-character display; one with a point keeps its
      integer part whole, and then exactly `9 - |integer part| - sign - 1`
      fractional digits (fewer if the string has fewer), or none and no point
      when that budget is not positive. Nothing is invented: the result is a
      prefix of the string. */
  lemma FormatDecimalProperties(s: string)
    ensures var r := FormatDecimal(s);
      && r <= s
      && (|s| <= MAX_NUM_LENGTH + 1 ==> r == s)
      && ('.' in s ==> IntegerPart(s) <= r)
      && (|s| > MAX_NUM_LENGTH + 1 && '.' !in s ==> |r| == MAX_NUM_LENGTH + 1)
      && (|s| > MAX_NUM_LENGTH + 1 && '.' in s ==>
            var i := IntegerPart(s);
            && (r == i <==> Available(i) <= 0)
            && (Available(i) > 0 ==>
                  |r| == |i| + 1 + Kept(Available(i), Fraction(s)) && |r| <= MAX_NUM_LENGTH))
  {
    if |s| > MAX_NUM_LENGTH + 1 && '.' in s {
      LongDecimalCut(s);
    }
  }

  /** The engine's `formatResult`. */
  function FormatResult(p: Platform, v: real): string {
    if IsIntegral(p, v) then IntString(p.toLong(v)) else FormatDecimal(p.show(v))
  }

  /** An integral value prints as its Long without a point and reads back as
      that Long; any other value prints as a prefix of its `Double.toString`,
      whole when that fits. */
  lemma FormatResultProperties(p: Platform, v: real)
    ensures var r := FormatResult(p, v);
      && (IsIntegral(p, v) ==> '.' !in r && IntValue(r) == p.toLong(v))
      && (!IsIntegral(p, v) ==> r <= p.show(v))
      && (!IsIntegral(p, v) && |p.show(v)| <= MAX_NUM_LENGTH + 1 ==> r == p.show(v))
  {
    if IsIntegral(p, v) {
      IntStringRoundTrip(p.toLong(v));
    } else {
      FormatDecimalProperties(p.show(v));
    }
  }

  // ---------------------------------------------------------------------
  // The older formatter: one more fractional digit and no guard, so a long
  // integer part makes `take` throw.

  /** The count the older formatter passes to `take`. */
  function LegacyBudget(intPart: string): int {
    MAX_NUM_LENGTH - |intPart| - SignLength(intPart)
  }

  /** The older truncation; None where Kotlin's `take` throws on a negative
      count. */
  function LegacyFormatDecimal(s: string): Option<string> {
    if |s| > MAX_NUM_LENGTH + 1 then
      var parts := Split(s, '.');
      if |parts| > 1 then
        var intPart := parts[0];
        var n := LegacyBudget(intPart);
        if n < 0 then None
        else Some(intPart + "." + Take(parts[1], n))
      else Some(Take(s, MAX_NUM_LENGTH + 1))
    else Some(s)
  }

  /** The older truncation fails exactly when the integer part of a long
      decimal string leaves a negative budget; when it returns, the result is
      a prefix of the input that keeps the integer part and the point, it
      always fits the display, and a long decimal string keeps exactly
      `9 - |integer part| - sign` fractional digits (fewer if it has fewer). */
  lemma LegacyFormatDecimalProperties(s: string)
    ensures var r := LegacyFormatDecimal(s);
      && (r.None? <==> |s| > MAX_NUM_LENGTH + 1 && '.' in s && LegacyBudget(IntegerPart(s)) < 0)
      && (r.Some? ==> r.value <= s)
      && (|s| <= MAX_NUM_LENGTH + 1 ==> r == Some(s))
      && (r.Some? && |s| > MAX_NUM_LENGTH + 1 ==> |r.value| <= MAX_NUM_LENGTH + 1)
      && (r.Some? && '.' in s ==> IntegerPart(s) + "." <= r.value)
      && (r.Some? && |s| > MAX_NUM_LENGTH + 1 && '.' in s ==>
            |r.value| == |IntegerPart(s)| + 1 + Kept(LegacyBudget(IntegerPart(s)), Fraction(s)))
  {
    if |s| > MAX_NUM_LENGTH + 1 && '.' in s {
      var parts := Split(s, '.');
      SplitAtPoint(s);
      var n := LegacyBudget(parts[0]);
      if n >= 0 {
        JoinedIsPrefix(s, parts[1], n);
      }
    }
  }

  /** The older view model's `formatResult`. */
  function LegacyFormatResult(p: Platform, v: real): Option<string> {
    if IsIntegral(p, v) then Some(IntString(p.toLong(v))) else LegacyFormatDecimal(p.show(v))
  }

  /** The older formatter prints integral values exactly as the engine does
      and never fails on them; only its decimal truncation can fail. */
  lemma LegacyFormatResultAgrees(p: Platform, v: real)
    ensures IsIntegral(p, v) ==> LegacyFormatResult(p, v) == Some(FormatResult(p, v))
    ensures LegacyFormatResult(p, v).None? ==>
      !IsIntegral(p, v) && LegacyFormatDecimal(p.show(v)).None?
  {
  }

  /** The two formatters agree on integral values and on short strings. On a
      long decimal string the engine's result is a prefix of the older one
      (it keeps one fractional digit fewer), and the engine's `<= 0` guard
      answers with the integer part exactly where the older one throws. */
  lemma FormattersCompared(s: string)
    ensures |s| <= MAX_NUM_LENGTH + 1 ==> LegacyFormatDecimal(s) == Some(FormatDecimal(s))
    ensures LegacyFormatDecimal(s).Some? ==> FormatDecimal(s) <= LegacyFormatDecimal(s).value
    ensures LegacyFormatDecimal(s).None? ==> '.' in s && FormatDecimal(s) == IntegerPart(s)
  {
    FormatDecimalProperties(s);
    LegacyFormatDecimalProperties(s);
    if |s| > MAX_NUM_LENGTH + 1 && '.' in s {
      var parts := Split(s, '.');
      SplitAtPoint(s);
      var intPart := parts[0];
      var n := LegacyBudget(intPart);
      if n >= 1 {
        var older := intPart + "." + Take(parts[1], n);
        var newer := intPart + "." + Take(parts[1], n - 1);
        assert Take(parts[1], n - 1) <= Take(parts[1], n);
        assert newer <= older;
      }
    }
  }

  /** With room for at least two fractional digits and enough of them after
      the point, the older formatter keeps exactly one digit more; with room
      for one, the engine drops the point as well. */
  lemma FormattersDifferByOneDigit(s: string)
    requires |s| > MAX_NUM_LENGTH + 1 && '.' in s
    requires LegacyBudget(IntegerPart(s)) >= 1
    requires |Split(s, '.')[1]| >= LegacyBudget(IntegerPart(s))
    ensures LegacyFormatDecimal(s).Some?
    ensures LegacyBudget(IntegerPart(s)) >= 2 ==>
      |LegacyFormatDecimal(s).value| == |FormatDecimal(s)| + 1
    ensures LegacyBudget(IntegerPart(s)) == 1 ==>
      FormatDecimal(s) == IntegerPart(s) && LegacyFormatDecimal(s).value == FormatDecimal(s) + "." + [s[|FormatDecimal(s)| + 1]]
  {
    SplitAtPoint(s);
    FormatDecimalProperties(s);
    LegacyFormatDecimalProperties(s);
  }
}
