/** JavaScript numbers as far as the core inspects them, the integer
    parsing done by `Number(raw)`, and `String(n)` for integers. */
module Numbers {
  import opened Wrappers
  import opened Strings

  /** `Number.MAX_SAFE_INTEGER`, 2^53 - 1. */
  const MAX_SAFE_INTEGER: int := 9007199254740991

  /** A finite real that is not an integer. */
  type NonInteger = r: real | r.Floor as real != r witness 1.0 / 2.0

  /** A JavaScript number: an integer, a finite non-integer, `NaN`, or an
      infinity. Doubles that are integers are kept exact; the rounding of
      doubles is not modelled. */
  datatype JsNumber = Int(n: int) | NonInt(value: NonInteger) | NaN | Infinite(negative: bool)

  /** `Number.isSafeInteger(x)` */
  predicate IsSafeInteger(x: JsNumber)
  {
    x.Int? && -MAX_SAFE_INTEGER <= x.n <= MAX_SAFE_INTEGER
  }

  /** `x < bound`; false for `NaN`. */
  predicate Below(x: JsNumber, bound: int)
  {
    match x
    case Int(n) => n < bound
    case NonInt(v) => v < bound as real
    case NaN => false
    case Infinite(negative) => negative
  }

  predicate IsDigit(c: char) { '0' <= c <= '9' }

  predicate IsDigits(s: string)
  {
    |s| > 0 && forall i :: 0 <= i < |s| ==> IsDigit(s[i])
  }

  /** The value of a string of decimal digits. */
  function DigitsValue(s: string): nat
    requires forall i :: 0 <= i < |s| ==> IsDigit(s[i])
  {
    if s == [] then 0
    else
      assert IsDigit(s[|s| - 1]);
      DigitsValue(s[..|s| - 1]) * 10 + (s[|s| - 1] as int - '0' as int)
  }

  /** `Number(raw)` on the strings that denote integers in decimal: after
      trimming white space, an optional sign and one or more digits. An
      all-blank string is 0, as in JavaScript. `None` stands for every
      other outcome (`NaN`, or a number that is not written as a decimal
      integer). */
  function ParseNumber(raw: string): (r: Option<int>)
    ensures Trim(raw) == [] ==> r == Some(0)
    ensures Trim(raw) != [] && IsDigits(Trim(raw)) ==> r == Some(DigitsValue(Trim(raw)))
    ensures r.Some? && r.value < 0 ==> Trim(raw)[0] == '-'
    ensures r.Some? && Trim(raw) != [] ==> IsDigits(Trim(raw)) || IsDigits(Trim(raw)[1..])
  {
    var t := Trim(raw);
    if t == [] then Some(0)
    else if (t[0] == '-' || t[0] == '+') && IsDigits(t[1..]) then
      Some(if t[0] == '-' then -(DigitsValue(t[1..]) as int) else DigitsValue(t[1..]))
    else if IsDigits(t) then Some(DigitsValue(t))
    else None
  }

  function DigitChar(d: nat): (c: char)
    requires d < 10
    ensures IsDigit(c) && c as int - '0' as int == d
  {
    ('0' as int + d) as char
  }

  /** The decimal digits of `n`; they denote `n` again. */
  function NatToString(n: nat): (r: string)
    ensures IsDigits(r) && DigitsValue(r) == n
    ensures r[0] == '0' ==> r == "0"
  {
    if n < 10 then [DigitChar(n)]
    else
      var front := NatToString(n / 10);
      var r := front + [DigitChar(n % 10)];
      assert r[..|r| - 1] == front;
      assert front != "0";
      r
  }

  /** `String(n)` for an integer `n` (below 10^21, where JavaScript would
      switch to exponent notation). */
  function IntToString(n: int): (r: string)
    ensures r != [] && IsTrimmed(r)
  {
    if n < 0 then "-" + NatToString(-n) else NatToString(n)
  }

  /** `Number(String(n)) == n`: the decimal text of an integer parses back
      to that integer. */
  lemma ParseIntToString(n: int)
    ensures ParseNumber(IntToString(n)) == Some(n)
  {
    var s := IntToString(n);
    assert Trim(s) == s;
    if n < 0 {
      assert s[1..] == NatToString(-n);
    }
  }
}
