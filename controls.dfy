/**
 * The playback controls (components/Controls.tsx): the step-limit field, the
 * enabled state of the Reset, Prev and Next buttons, the step counter and the
 * timeline slider. Every rule is a single expression over the component's
 * props, so the module is made of functions; JavaScript's `parseInt` and the
 * decimal rendering of an integer in a template string are modelled so that
 * the limit field and the counter text can be read back.
 */
module Controls {
  import opened Common
  import opened Json

  // ---------------------------------------------------------------------
  // Digits
  // ---------------------------------------------------------------------

  /** The value of `c` as a digit in base `radix` (10 or 16), as `parseInt` reads it. */
  function RadixDigit(c: char, radix: nat): (r: Option<nat>)
    requires radix == 10 || radix == 16
    ensures r.Some? ==> r.value < radix
    ensures radix == 10 ==> (r.Some? <==> IsDigit(c))
    ensures radix == 10 && r.Some? ==> r.value == DigitValue(c)
  {
    if '0' <= c <= '9' then Some(c as nat - '0' as nat)
    else if radix == 16 && 'a' <= c <= 'f' then Some(c as nat - 'a' as nat + 10)
    else if radix == 16 && 'A' <= c <= 'F' then Some(c as nat - 'A' as nat + 10)
    else None
  }

  predicate IsRadixDigit(c: char, radix: nat)
    requires radix == 10 || radix == 16
  {
    RadixDigit(c, radix).Some?
  }

  /** The length of the longest run of digits at the start of `s`. */
  function LeadingDigits(s: string, radix: nat): (n: nat)
    requires radix == 10 || radix == 16
    ensures n <= |s|
    ensures forall i :: 0 <= i < n ==> IsRadixDigit(s[i], radix)
    ensures n == |s| || !IsRadixDigit(s[n], radix)
  {
    if |s| > 0 && IsRadixDigit(s[0], radix) then 1 + LeadingDigits(s[1..], radix) else 0
  }

  /** The number the hexadecimal digits `ds` spell, most significant first. */
  function HexValue(ds: string): nat
    requires forall i :: 0 <= i < |ds| ==> IsRadixDigit(ds[i], 16)
  {
    if |ds| == 0 then 0
    else
      assert IsRadixDigit(ds[|ds| - 1], 16);
      HexValue(ds[..|ds| - 1]) * 16 + RadixDigit(ds[|ds| - 1], 16).value
  }

  /** The decimal digits at the start of `u`. */
  function DecimalPrefix(u: string): (ds: string)
    ensures |ds| <= |u| && ds == u[..|ds|]
    ensures forall i :: 0 <= i < |ds| ==> IsDigit(ds[i])
    ensures |ds| == |u| || !IsDigit(u[|ds|])
  {
    var n := LeadingDigits(u, 10);
    assert forall i :: 0 <= i < n ==> IsRadixDigit(u[i], 10);
    u[..n]
  }

  /**
   * The numeral that follows the sign: hexadecimal after `0x` or `0X`,
   * decimal otherwise; `None` (JavaScript's NaN) when no digit follows.
   */
  function Magnitude(u: string): (r: Option<nat>)
  {
    if |u| >= 2 && u[0] == '0' && (u[1] == 'x' || u[1] == 'X') then
      var n := LeadingDigits(u[2..], 16);
      if n == 0 then None else Some(HexValue(u[2..][..n]))
    else
      var ds := DecimalPrefix(u);
      if |ds| == 0 then None else Some(DigitsValue(ds))
  }

  /**
   * JavaScript's `parseInt(s)` with no radix: leading white space is skipped,
   * one sign is accepted, and the longest run of digits that follows is read;
   * anything after it is ignored. `None` stands for NaN.
   */
  function ParseInt(s: string): (r: Option<int>)
    ensures |TrimStart(s)| == 0 ==> r.None?
    ensures r.Some? && r.value < 0 ==> TrimStart(s)[0] == '-'
  {
    var t := TrimStart(s);
    if |t| > 0 && t[0] == '-' then
      match Magnitude(t[1..])
      case None => None
      case Some(m) => Some(-(m as int))
    else
      var u := if |t| > 0 && t[0] == '+' then t[1..] else t;
      match Magnitude(u)
      case None => None
      case Some(m) => Some(m)
  }

  /** A run of digits followed by a non-digit is read up to the non-digit. */
  lemma DecimalPrefixOfNumeral(ds: string, t: string)
    requires forall i :: 0 <= i < |ds| ==> IsDigit(ds[i])
    requires |t| == 0 || !IsDigit(t[0])
    ensures DecimalPrefix(ds + t) == ds
  {
    var u := ds + t;
    var p := DecimalPrefix(u);
    assert p == u[..|ds|] == ds;
  }

  /**
   * Reading a rendered integer back gives the integer, whatever text follows
   * it, as long as that text does not continue the numeral (a digit) or turn
   * a lone `0` into a hexadecimal prefix.
   */
  lemma ParseRendered(i: int, t: string)
    requires |t| == 0 || (!IsDigit(t[0]) && t[0] != 'x' && t[0] != 'X')
    ensures ParseInt(IntToString(i) + t) == Some(i)
  {
    if i < 0 {
      ParseNegative(i, t);
    } else {
      ParseNonNegative(i, t);
    }
  }

  lemma ParseNonNegative(i: int, t: string)
    requires i >= 0
    requires |t| == 0 || (!IsDigit(t[0]) && t[0] != 'x' && t[0] != 'X')
    ensures ParseInt(IntToString(i) + t) == Some(i)
  {
    var s := NatToString(i) + t;
    assert IntToString(i) + t == s;
    MagnitudeOfNumeral(s, i, t);
    assert s[0] == NatToString(i)[0] && IsDigit(s[0]);
    ParsePlain(s, i);
  }

  lemma ParseNegative(i: int, t: string)
    requires i < 0
    requires |t| == 0 || (!IsDigit(t[0]) && t[0] != 'x' && t[0] != 'X')
    ensures ParseInt(IntToString(i) + t) == Some(i)
  {
    NegativeParts(i, t);
    ParseMinus(IntToString(i) + t, NatToString(-i) + t, i);
  }

  /** The text of a negative integer splits into a minus sign and a numeral of its magnitude. */
  lemma NegativeParts(i: int, t: string)
    requires i < 0
    requires |t| == 0 || (!IsDigit(t[0]) && t[0] != 'x' && t[0] != 'X')
    ensures IntToString(i) + t == "-" + (NatToString(-i) + t)
    ensures Magnitude(NatToString(-i) + t) == Some(-i)
  {
    NegativeText(i, t);
    MagnitudeOfNumeral(NatToString(-i) + t, -i, t);
  }

  /** The text of a negative integer is `-` followed by the text of its magnitude. */
  lemma NegativeText(i: int, t: string)
    requires i < 0
    ensures IntToString(i) + t == "-" + (NatToString(-i) + t)
  {
    Reassociate("-", NatToString(-i), t);
  }

  lemma Reassociate(a: string, b: string, c: string)
    ensures (a + b) + c == a + (b + c)
  {
    assert (a + b) + c == a + (b + c);
  }

  /** A minus sign followed by a numeral is read as the negated numeral. */
  lemma ParseMinus(s: string, u: string, i: int)
    requires i <= 0 && s == "-" + u && Magnitude(u) == Some(-i)
    ensures ParseInt(s) == Some(i)
  {
    assert s[1..] == u;
    NoLeadingSpace(s);
  }

  /** A string starting with a digit is read as its numeral. */
  lemma ParsePlain(s: string, m: nat)
    requires |s| > 0 && '0' <= s[0] <= '9' && Magnitude(s) == Some(m)
    ensures ParseInt(s) == Some(m)
  {
    NoLeadingSpace(s);
  }

  lemma NoLeadingSpace(s: string)
    requires |s| > 0 && (s[0] == '-' || '0' <= s[0] <= '9')
    ensures TrimStart(s) == s
  {
    assert !IsSpace(s[0]);
  }

  lemma MagnitudeOfNumeral(u: string, m: nat, t: string)
    requires |t| == 0 || (!IsDigit(t[0]) && t[0] != 'x' && t[0] != 'X')
    requires u == NatToString(m) + t
    ensures Magnitude(u) == Some(m)
  {
    var ds := NatToString(m);
    DecimalPrefixOfNumeral(ds, t);
    DigitsValueOfNatToString(m);
    assert !(|u| >= 2 && u[0] == '0' && (u[1] == 'x' || u[1] == 'X')) by {
      if |u| >= 2 && u[0] == '0' {
        assert m == 0 && |ds| == 1;
        assert u[1] == t[0];
      }
    }
  }

  // ---------------------------------------------------------------------
  // The controls
  // ---------------------------------------------------------------------

  /** The limit the step-limit field reports: `Math.max(10, parseInt(v) || 100)`. */
  function StepLimit(v: string): (limit: int)
    ensures limit >= 10
    ensures ParseInt(v) == None || ParseInt(v) == Some(0) ==> limit == 100
    ensures forall n :: ParseInt(v) == Some(n) && n != 0 ==> limit == if n < 10 then 10 else n
  {
    var typed := match ParseInt(v) case Some(n) => if n != 0 then n else 100 case None => 100;
    if typed < 10 then 10 else typed
  }

  /** A limit of at least 10 written into the field reads back unchanged. */
  lemma LimitRoundTrip(limit: int)
    requires limit >= 10
    ensures StepLimit(IntToString(limit)) == limit
  {
    var v := IntToString(limit);
    assert v + "" == v;
    ParseRendered(limit, "");
    assert ParseInt(v) == Some(limit);
  }

  /** Reset (and the slider) is disabled exactly when there is no step. */
  predicate ResetDisabled(totalSteps: int) {
    totalSteps == 0
  }

  /** Prev is disabled at or before the first step. */
  predicate PrevDisabled(currentStep: int) {
    currentStep <= 0
  }

  /** Next is disabled at or after the last step. */
  predicate NextDisabled(currentStep: int, totalSteps: int) {
    currentStep >= totalSteps - 1
  }

  /** The step counter: `current+1 / total`, or `--` with no step. */
  function Counter(currentStep: int, totalSteps: int): (r: string)
    ensures r == "--" <==> totalSteps <= 0
    ensures totalSteps > 0 ==> var n := IntToString(totalSteps); |n| <= |r| && r[|r| - |n|..] == n
  {
    if totalSteps > 0 then IntToString(currentStep + 1) + " / " + IntToString(totalSteps) else "--"
  }

  /** The counter reads back as the one-based position, and `--` only when there is no step. */
  lemma CounterShowsPosition(currentStep: int, totalSteps: int)
    ensures totalSteps > 0 ==> ParseInt(Counter(currentStep, totalSteps)) == Some(currentStep + 1)
    ensures Counter(currentStep, totalSteps) == "--" <==> totalSteps <= 0
  {
    if totalSteps > 0 {
      var rest := " / " + IntToString(totalSteps);
      assert Counter(currentStep, totalSteps) == IntToString(currentStep + 1) + rest;
      ParseRendered(currentStep + 1, rest);
      assert |Counter(currentStep, totalSteps)| > 2;
    }
  }

  /** The slider's upper end: `Math.max(0, totalSteps - 1)`. */
  function SliderMax(totalSteps: int): (m: int)
    ensures m >= 0 && m >= totalSteps - 1
    ensures totalSteps >= 1 ==> m == totalSteps - 1
  {
    if totalSteps - 1 > 0 then totalSteps - 1 else 0
  }

  /** The slider's position: the current step, with -1 (nothing selected) shown as 0. */
  function SliderValue(currentStep: int): (v: int)
    ensures currentStep == -1 ==> v == 0
    ensures currentStep != -1 ==> v == currentStep
  {
    if currentStep == -1 then 0 else currentStep
  }

  /** Any selected step of a non-empty trace sits on the slider. */
  lemma SliderHoldsStep(currentStep: int, totalSteps: int)
    requires -1 <= currentStep < totalSteps
    ensures 0 <= SliderValue(currentStep) <= SliderMax(totalSteps)
  {
  }
}
