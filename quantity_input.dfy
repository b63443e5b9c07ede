/** The numeric stepper: guards that decide which value, if any, is emitted. */
module QuantityInput {
  import opened Common
  import opened TextUtil

  predicate InRange(v: int, min: int, max: Option<int>)
  {
    min <= v && (max.None? || v <= max.value)
  }

  /** The minus button: emits value - 1 only while value is above the minimum. */
  function HandleDecrease(value: int, min: int): (emitted: Option<int>)
    ensures emitted.Some? <==> value > min
    ensures emitted.Some? ==> emitted.value == value - 1 && emitted.value >= min
  {
    if value > min then Some(value - 1) else None
  }

  /** The plus button: emits value + 1 unless a maximum is set and reached. */
  function HandleIncrease(value: int, max: Option<int>): (emitted: Option<int>)
    ensures emitted.Some? <==> (max.None? || value < max.value)
    ensures emitted.Some? ==> emitted.value == value + 1 && (max.None? || emitted.value <= max.value)
  {
    if max.None? || value < max.value then Some(value + 1) else None
  }

  /** The length of the run of decimal digits that starts s. */
  function DigitPrefix(s: string): (n: nat)
    ensures n <= |s|
    ensures forall i :: 0 <= i < n ==> IsDigit(s[i])
    ensures n < |s| ==> !IsDigit(s[n])
  {
    if s == [] || !IsDigit(s[0]) then 0 else 1 + DigitPrefix(s[1..])
  }

  /** The text without its leading whitespace: a suffix, with only whitespace cut off. */
  function TrimStart(s: string): (t: string)
    ensures |t| <= |s| && t == s[|s| - |t|..]
    ensures forall i :: 0 <= i < |s| - |t| ==> IsJsSpace(s[i])
    ensures t == [] || !IsJsSpace(t[0])
  {
    if s != [] && IsJsSpace(s[0]) then TrimStart(s[1..]) else s
  }

  /** 1 when the text starts with a sign, 0 otherwise. */
  function SignLength(t: string): nat
  {
    if t != [] && (t[0] == '-' || t[0] == '+') then 1 else 0
  }

  /** The longest digit run that starts at k. */
  function DigitRun(t: string, k: nat): (d: string)
    requires k <= |t|
    ensures forall i :: 0 <= i < |d| ==> IsDigit(d[i])
    ensures |d| <= |t| - k && d == t[k..k + |d|]
    ensures k + |d| < |t| ==> !IsDigit(t[k + |d|])
  {
    var n := DigitPrefix(t[k..]);
    t[k..k + n]
  }

  /** The value of a digit run under the sign that starts the text. */
  function Signed(t: string, v: int): int
  {
    if t != [] && t[0] == '-' then -v else v
  }

  /** parseInt with radix 10: leading whitespace, an optional sign, then the
      longest run of digits; None (NaN) exactly when no digit follows the sign. */
  function ParseInt(text: string): (r: Option<int>)
    ensures var t := TrimStart(text); var k := SignLength(t);
      && (r.Some? <==> k < |t| && IsDigit(t[k]))
      && (r.Some? ==> r.value == Signed(t, DigitsValue(DigitRun(t, k))))
  {
    var t := TrimStart(text);
    var k := SignLength(t);
    var digits := DigitRun(t, k);
    if digits == [] then
      assert !(k < |t| && IsDigit(t[k]));
      None
    else
      assert digits[0] == t[k];
      Some(Signed(t, DigitsValue(digits)))
  }

  /** parseInt reads back what String writes, and stops at the first
      character that is not a digit. */
  lemma ParseIntPrefix(n: int, rest: string)
    requires rest == [] || !IsDigit(rest[0])
    ensures ParseInt(IntToString(n) + rest) == Some(n)
  {
    var w := IntToString(n);
    var s := w + rest;
    assert s[0] == w[0];
    assert TrimStart(s) == s;
    var k := SignLength(s);
    assert k == (if n < 0 then 1 else 0);
    var d := DigitRun(s, k);
    assert forall i :: k <= i < |w| ==> IsDigit(s[i]) by {
      forall i | k <= i < |w|
        ensures IsDigit(s[i])
      {
        assert s[i] == w[i];
        if n < 0 {
          assert w[i] == w[1..][i - 1];
        }
      }
    }
    assert |w| < |s| ==> s[|w|] == rest[0];
    assert |d| == |w| - k;
    assert d == w[k..];
    if n < 0 {
      assert w[k..] == w[1..];
    } else {
      assert w[k..] == w;
    }
  }

  lemma ParseIntString(n: int)
    ensures ParseInt(IntToString(n)) == Some(n)
  {
    ParseIntPrefix(n, []);
    assert IntToString(n) + [] == IntToString(n);
  }

  /** Leading whitespace does not change what parseInt reads. */
  lemma ParseIntSkipsSpace(c: char, s: string)
    requires IsJsSpace(c)
    ensures ParseInt([c] + s) == ParseInt(s)
  {
    assert ([c] + s)[1..] == s;
  }

  /** Text that starts with anything but whitespace, a sign or a digit is NaN. */
  lemma ParseIntNoNumber(s: string)
    requires s != [] && !IsJsSpace(s[0]) && !IsDigit(s[0]) && s[0] != '-' && s[0] != '+'
    ensures ParseInt(s) == None
  {
    assert TrimStart(s) == s;
  }

  /** The typed value: emitted only when it parses and lies within the bounds. */
  function HandleTyped(text: string, min: int, max: Option<int>): (emitted: Option<int>)
    ensures emitted.Some? <==> ParseInt(text).Some? && InRange(ParseInt(text).value, min, max)
    ensures emitted.Some? ==> emitted == ParseInt(text)
  {
    var parsed := ParseInt(text);
    if parsed.Some? && parsed.value >= min && (max.None? || parsed.value <= max.value) then parsed else None
  }

  /** Whatever the stepper emits stays within [min, max] when the current value does. */
  lemma EmittedStaysInRange(value: int, min: int, max: Option<int>, text: string)
    requires InRange(value, min, max)
    ensures HandleDecrease(value, min).Some? ==> InRange(HandleDecrease(value, min).value, min, max)
    ensures HandleIncrease(value, max).Some? ==> InRange(HandleIncrease(value, max).value, min, max)
    ensures HandleTyped(text, min, max).Some? ==> InRange(HandleTyped(text, min, max).value, min, max)
  {
  }

  /** A concrete parse: a sign, a digit, and trailing junk that is ignored. */
  lemma ParseIntExample()
    ensures ParseInt("-7x") == Some(-7)
  {
    ParseIntPrefix(-7, "x");
    assert IntToString(-7) + "x" == "-7x";
  }
}
