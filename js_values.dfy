/** The dynamically typed values that flow through the form (react-hook-form
    values, JSON records, Supabase rows) and JavaScript's truthiness and
    `parseInt` over them. */
module Js {
  import opened Text

  datatype Option<T> = None | Some(value: T)

  /** A JavaScript value. Numbers are integers here (the form only holds
      integral numbers); NaN is not a value of this type. */
  datatype JsValue =
    | Undefined
    | Null
    | Bool(b: bool)
    | Num(n: int)
    | Str(s: string)
    | Arr(items: seq<JsValue>)
    | Obj(fields: map<string, JsValue>)

  /** A plain object, such as the form's `getValues()`. */
  type Record = map<string, JsValue>

  /** JavaScript truthiness. */
  predicate Truthy(v: JsValue) {
    match v
    case Undefined => false
    case Null => false
    case Bool(b) => b
    case Num(n) => n != 0
    case Str(s) => s != ""
    case Arr(_) => true
    case Obj(_) => true
  }

  /** `record[key]`, `undefined` when the key is absent. */
  function Get(r: Record, key: string): (v: JsValue)
    ensures key !in r ==> v == Undefined
    ensures key in r ==> v == r[key]
  {
    if key in r then r[key] else Undefined
  }

  /** `a || b`. */
  function Or(a: JsValue, b: JsValue): (v: JsValue)
    ensures Truthy(a) ==> v == a
    ensures !Truthy(a) ==> v == b
  {
    if Truthy(a) then a else b
  }

  predicate IsDigit(c: char) { '0' <= c <= '9' }

  /** Length of the run of decimal digits at the front of `s`. */
  function DigitRun(s: string): (n: nat)
    ensures n <= |s|
    ensures forall i :: 0 <= i < n ==> IsDigit(s[i])
    ensures n < |s| ==> !IsDigit(s[n])
  {
    if |s| > 0 && IsDigit(s[0]) then 1 + DigitRun(s[1..]) else 0
  }

  /** Decimal value of a string of digits. */
  function DigitsValue(s: string): (n: nat)
    requires forall i :: 0 <= i < |s| ==> IsDigit(s[i])
  {
    if |s| == 0 then 0
    else
      assert IsDigit(s[|s| - 1]);
      10 * DigitsValue(s[..|s| - 1]) + (s[|s| - 1] as int - '0' as int)
  }

  predicate IsHexDigit(c: char) { IsDigit(c) || 'a' <= c <= 'f' || 'A' <= c <= 'F' }

  function HexDigitValue(c: char): (n: nat)
    requires IsHexDigit(c)
    ensures n < 16
  {
    if IsDigit(c) then c as int - '0' as int
    else if 'a' <= c <= 'f' then c as int - 'a' as int + 10
    else c as int - 'A' as int + 10
  }

  /** Length of the run of hexadecimal digits at the front of `s`. */
  function HexRun(s: string): (n: nat)
    ensures n <= |s|
    ensures forall i :: 0 <= i < n ==> IsHexDigit(s[i])
    ensures n < |s| ==> !IsHexDigit(s[n])
  {
    if |s| > 0 && IsHexDigit(s[0]) then 1 + HexRun(s[1..]) else 0
  }

  /** Hexadecimal value of a string of hex digits. */
  function HexValue(s: string): (n: nat)
    requires forall i :: 0 <= i < |s| ==> IsHexDigit(s[i])
  {
    if |s| == 0 then 0
    else
      assert IsHexDigit(s[|s| - 1]);
      16 * HexValue(s[..|s| - 1]) + HexDigitValue(s[|s| - 1])
  }

  /** `u` starts with `0x` or `0X`. */
  predicate HexPrefixed(u: string)
  {
    |u| >= 2 && u[0] == '0' && (u[1] == 'x' || u[1] == 'X')
  }

  /** `Number.parseInt(s)` without a radix on a string: leading white
      space, an optional sign, then either `0x`/`0X` and the longest run of
      hexadecimal digits, or the longest run of decimal digits; `None` is
      NaN, including a `0x` with no hex digit after it. */
  function ParseIntString(s: string): Option<int>
  {
    var t := DropSpaces(s);
    var neg := |t| > 0 && t[0] == '-';
    var u := if |t| > 0 && (t[0] == '-' || t[0] == '+') then t[1..] else t;
    if HexPrefixed(u) then
      var h := HexRun(u[2..]);
      var m: int := if h == 0 then 0 else HexValue(u[2..][..h]);
      if h == 0 then None else if neg then Some(-m) else Some(m)
    else
      var k := DigitRun(u);
      var m: int := if k == 0 then 0 else DigitsValue(u[..k]);
      if k == 0 then None else if neg then Some(-m) else Some(m)
  }

  /** `Number.parseInt(v)`; `None` stands for NaN. */
  function ParseInt(v: JsValue): (r: Option<int>)
    ensures v.Num? ==> r == Some(v.n)
    ensures v.Str? ==> r == ParseIntString(v.s)
    ensures !v.Num? && !v.Str? ==> r == None
  {
    match v
    case Num(n) => Some(n)
    case Str(s) => ParseIntString(s)
    case _ => None
  }

  lemma DigitFacts(c: char)
    requires IsDigit(c)
    ensures DropSpaces([c]) == [c]
    ensures DigitRun([c]) == 1
    ensures DigitsValue([c]) == c as int - '0' as int
  {
    assert !IsSpace(c);
    assert [c][1..] == [];
    assert [c][..0] == [];
  }

  /** The radio buttons store a score as a one-digit string; `parseInt`
      reads it back. */
  lemma ParseIntDigit(c: char)
    requires IsDigit(c)
    ensures ParseIntString([c]) == Some(c as int - '0' as int)
  {
    DigitFacts(c);
    assert !HexPrefixed([c]);
    assert [c][..1] == [c];
  }

  /** Without a radix, a `0x` prefix switches to base 16: "0x1A" is 26. */
  lemma ParseIntHex()
    ensures ParseIntString("0x1A") == Some(26)
  {
    var s := "0x1A";
    assert !IsSpace(s[0]);
    assert DropSpaces(s) == s;
    assert HexPrefixed(s);
    var d := s[2..];
    assert d == "1A";
    assert d[1..][1..] == [];
    assert HexRun(d[1..]) == 1;
    assert HexRun(d) == 2;
    assert d[..2] == d && d[..1] == "1" && d[..1][..0] == [];
    assert HexValue(d[..1]) == 1;
  }

  /** A `0x` prefix with no hex digit after it is NaN. */
  lemma ParseIntHexWithoutDigits()
    ensures ParseIntString("0x") == None
  {
    var s := "0x";
    assert !IsSpace(s[0]);
    assert DropSpaces(s) == s;
    assert HexPrefixed(s) && s[2..] == [];
  }

  /** The sign comes before the prefix: "-0x5" is -5. */
  lemma ParseIntSignedHex()
    ensures ParseIntString("-0x5") == Some(-5)
  {
    var s := "-0x5";
    assert !IsSpace(s[0]);
    assert DropSpaces(s) == s;
    var u := s[1..];
    assert u == "0x5" && HexPrefixed(u);
    var d := u[2..];
    assert d == "5" && d[1..] == [];
    assert HexRun(d) == 1;
    assert d[..1] == d && d[..0] == [];
    assert HexValue(d) == 5;
    assert s[0] == '-';
  }

  /** `Math.round(num / den)` for a non-negative fraction: round half up. */
  function RoundRatio(num: nat, den: nat): (r: nat)
    requires den > 0
    ensures r * (2 * den) <= 2 * num + den < (r + 1) * (2 * den)
  {
    var q := (2 * num + den) / (2 * den);
    assert q * (2 * den) + (2 * num + den) % (2 * den) == 2 * num + den;
    q
  }

  lemma RoundRatioBounds(num: nat, den: nat, top: nat)
    requires den > 0 && num <= top * den
    ensures RoundRatio(num, den) <= top
  {
    var r := RoundRatio(num, den);
    if r > top {
      MulMono(top + 1, r, 2 * den);
    }
  }

  /** A whole ratio is exact. */
  lemma RoundRatioWhole(k: nat, den: nat)
    requires den > 0
    ensures RoundRatio(k * den, den) == k
  {
    var r := RoundRatio(k * den, den);
    if r > k {
      MulMono(k + 1, r, 2 * den);
    }
  }

  lemma MulMono(a: nat, b: nat, c: nat)
    requires a <= b
    ensures a * c <= b * c
  {
  }

  /** Rounding is monotonic in the numerator. */
  lemma RoundRatioMono(a: nat, b: nat, den: nat)
    requires den > 0 && a <= b
    ensures RoundRatio(a, den) <= RoundRatio(b, den)
  {
    var ra, rb := RoundRatio(a, den), RoundRatio(b, den);
    if ra > rb {
      MulMono(rb + 1, ra, 2 * den);
    }
  }
}
