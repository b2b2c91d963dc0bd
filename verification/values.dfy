/**
  The dynamically typed values that flow through configuration dictionaries and
  metric files (JSON scalars, lists and objects, plus the float infinities the
  flow produces), and the Python conversions the decision logic applies to them:
  truthiness, `int(x)` and `Decimal(x)`.
*/
module Values {
  import opened Wrappers
  import opened Strings

  /** A configuration or metric value as the Python code sees it. */
  datatype Value =
    | VNone
    | VBool(b: bool)
    | VInt(i: int)
    | VDec(d: real)            // a Decimal (JSON floats are parsed as Decimal)
    | VInf                     // math.inf
    | VNegInf                  // -math.inf
    | VStr(s: string)
    | VList(items: seq<Value>)
    | VDict(entries: map<string, Value>)

  /** Python's `bool(v)`. */
  predicate Truthy(v: Value) {
    match v
    case VNone => false
    case VBool(b) => b
    case VInt(i) => i != 0
    case VDec(d) => d != 0.0
    case VInf => true
    case VNegInf => true
    case VStr(s) => s != ""
    case VList(items) => |items| > 0
    case VDict(entries) => |entries| > 0
  }

  predicate IsDigit(c: char) {
    '0' <= c <= '9'
  }

  function DigitValue(c: char): nat
    requires IsDigit(c)
  {
    (c as int) - ('0' as int)
  }

  function DigitChar(d: nat): (c: char)
    requires d < 10
    ensures IsDigit(c) && DigitValue(c) == d
  {
    (('0' as int) + d) as char
  }

  /**
    The body of a Python integer literal: ASCII digits, where a single
    underscore may stand between two digits.
  */
  predicate IsDigitRun(s: string) {
    && |s| > 0
    && DigitsOrUnderscores(s)
    && forall i :: 0 <= i < |s| && s[i] == '_' ==>
         0 < i < |s| - 1 && IsDigit(s[i - 1]) && IsDigit(s[i + 1])
  }

  predicate DigitsOrUnderscores(s: string) {
    forall i :: 0 <= i < |s| ==> IsDigit(s[i]) || s[i] == '_'
  }

  /** The number a run of digits denotes, underscores ignored. */
  function DigitsValue(s: string): nat
    requires DigitsOrUnderscores(s)
  {
    if |s| == 0 then 0
    else if s[|s| - 1] == '_' then DigitsValue(s[..|s| - 1])
    else 10 * DigitsValue(s[..|s| - 1]) + DigitValue(s[|s| - 1])
  }

  /** An optional sign followed by a digit run, with nothing around it. */
  function ParseSigned(t: string): Option<int> {
    if |t| > 0 && (t[0] == '-' || t[0] == '+') then
      if IsDigitRun(t[1..]) then
        var n: int := DigitsValue(t[1..]);
        Some(if t[0] == '-' then -n else n)
      else None
    else if IsDigitRun(t) then Some(DigitsValue(t))
    else None
  }

  /** Python's `int(s)` on a string: None where it raises ValueError. */
  function ParseInt(s: string): (r: Option<int>)
    ensures r.Some? ==> Strip(s) != ""
  {
    ParseSigned(Strip(s))
  }

  /** The decimal digits of a natural number, most significant first. */
  function NatDigits(n: nat): (r: string)
    ensures |r| > 0 && forall i :: 0 <= i < |r| ==> IsDigit(r[i])
    decreases n
  {
    if n < 10 then [DigitChar(n)] else NatDigits(n / 10) + [DigitChar(n % 10)]
  }

  /** Python's `str(n)` for an integer. */
  function IntToString(n: int): string {
    if n < 0 then "-" + NatDigits(-n) else NatDigits(n)
  }

  lemma {:induction false} NatDigitsValue(n: nat)
    ensures DigitsValue(NatDigits(n)) == n
    decreases n
  {
    var r := NatDigits(n);
    if n >= 10 {
      NatDigitsValue(n / 10);
      assert r[..|r| - 1] == NatDigits(n / 10);
    }
  }

  lemma NoSpaceStripsToItself(t: string)
    requires |t| > 0 && t[0] !in Whitespace && t[|t| - 1] !in Whitespace
    ensures Strip(t) == t
  {
    assert StripLeft(t, Whitespace) == t;
  }

  lemma DigitIsNoSpace(c: char)
    requires IsDigit(c)
    ensures c !in Whitespace && c != '-' && c != '+'
  {
  }

  lemma DigitsAreDigitRun(digits: string)
    requires |digits| > 0 && forall i :: 0 <= i < |digits| ==> IsDigit(digits[i])
    ensures IsDigitRun(digits)
  {
  }

  /** `int(str(n)) == n`: the rendering of an integer parses back to it. */
  lemma ParseIntToString(n: int)
    ensures ParseInt(IntToString(n)) == Some(n)
  {
    if n < 0 {
      ParseNegativeToString(n);
    } else {
      NatDigitsValue(n);
      ParseIntOfDigits(NatDigits(n));
    }
  }

  lemma ParseNegativeToString(n: int)
    requires n < 0
    ensures ParseInt(IntToString(n)) == Some(n)
  {
    NegativeText(n);
    ParseIntOfNegative(IntToString(n));
  }

  /** The rendering of a negative integer is a minus sign and the digits of its magnitude. */
  lemma NegativeText(n: int)
    requires n < 0
    ensures |IntToString(n)| > 1 && IntToString(n)[0] == '-'
    ensures forall i :: 1 <= i < |IntToString(n)| ==> IsDigit(IntToString(n)[i])
    ensures DigitsValue(IntToString(n)[1..]) == -n
  {
    var t := IntToString(n);
    NatDigitsValue(-n);
    assert t[1..] == NatDigits(-n);
  }

  /** `int()` reads plain decimal digits as their value. */
  lemma ParseIntOfDigits(digits: string)
    requires |digits| > 0 && forall i :: 0 <= i < |digits| ==> IsDigit(digits[i])
    ensures ParseInt(digits) == Some(DigitsValue(digits) as int)
  {
    DigitsAreDigitRun(digits);
    DigitIsNoSpace(digits[0]);
    DigitIsNoSpace(digits[|digits| - 1]);
    NoSpaceStripsToItself(digits);
  }

  /** `int()` reads a minus sign and decimal digits as the negated value. */
  lemma ParseIntOfNegative(t: string)
    requires |t| > 1 && t[0] == '-' && forall i :: 1 <= i < |t| ==> IsDigit(t[i])
    ensures ParseInt(t) == Some(-(DigitsValue(t[1..]) as int))
  {
    DigitsAreDigitRun(t[1..]);
    DigitIsNoSpace(t[|t| - 1]);
    MinusIsNoSpace();
    NoSpaceStripsToItself(t);
  }

  lemma MinusIsNoSpace()
    ensures '-' !in Whitespace
  {
  }

  /** Python's `int(x)`. */
  datatype IntConversion =
    | Converted(n: int)
    | NotAnInteger    // ValueError: x is a string that is no integer literal
    | Unconvertible   // TypeError or OverflowError: x is None, a container or infinite

  /** The integer part of `d`, rounding toward zero as `int(Decimal)` does. */
  function Truncate(d: real): (n: int)
    ensures d >= 0.0 ==> n as real <= d < n as real + 1.0
    ensures d < 0.0 ==> n as real - 1.0 < d <= n as real
  {
    if d >= 0.0 then d.Floor else -((-d).Floor)
  }

  function PyInt(v: Value): (r: IntConversion)
    ensures v.VInt? ==> r == Converted(v.i)
    ensures v.VStr? ==> (r.Converted? <==> ParseInt(v.s).Some?)
    ensures (v.VNone? || v.VList? || v.VDict? || v.VInf? || v.VNegInf?) ==> r == Unconvertible
  {
    match v
    case VBool(b) => Converted(if b then 1 else 0)
    case VInt(i) => Converted(i)
    case VDec(d) => Converted(Truncate(d))
    case VStr(s) =>
      (match ParseInt(s)
       case Some(n) => Converted(n)
       case None => NotAnInteger)
    case _ => Unconvertible
  }

  /** An ASCII upper-case letter turned lower-case; any other character kept. */
  function LowerChar(c: char): char {
    if 'A' <= c <= 'Z' then ((c as int) + 32) as char else c
  }

  /** `s` spells the lower-case `word`, ignoring the case of ASCII letters. */
  predicate SpellsIgnoringCase(s: string, word: string) {
    |s| == |word| && forall i :: 0 <= i < |s| ==> LowerChar(s[i]) == word[i]
  }

  /** The exponent markers of a decimal string. */
  const ExponentMarks: set<char> := {'e', 'E'}

  /** The text before and after the first exponent marker, or None when there is none. */
  function SplitExponent(s: string): (r: Option<(string, string)>)
    ensures r.None? <==> Avoids(s, ExponentMarks)
    ensures r.Some? ==>
      && Avoids(r.value.0, ExponentMarks) && |r.value.0| < |s| && s[|r.value.0|] in ExponentMarks
      && s == r.value.0 + [s[|r.value.0|]] + r.value.1
  {
    if |s| == 0 then None
    else if s[0] in ExponentMarks then Some(("", s[1..]))
    else
      match SplitExponent(s[1..])
      case None => None
      case Some(kv) => Some(([s[0]] + kv.0, kv.1))
  }

  /** Splitting `k + [mark] + v` at the first exponent marker recovers `k` and `v` when `k` has none. */
  lemma {:induction false} SplitExponentJoin(k: string, mark: char, v: string)
    requires Avoids(k, ExponentMarks) && mark in ExponentMarks
    ensures SplitExponent(k + [mark] + v) == Some((k, v))
    decreases |k|
  {
    if |k| > 0 {
      SplitExponentJoin(k[1..], mark, v);
      assert (k + [mark] + v)[1..] == k[1..] + [mark] + v;
      assert [k[0]] + k[1..] == k;
    } else {
      assert (k + [mark] + v)[1..] == v;
    }
  }

  /** An unsigned numeral with an optional fractional part, such as `12`, `1.5`, `.5` or `3.`. */
  function ParseFixed(body: string): Option<real> {
    match SplitOnce(body, '.')
    case None =>
      if IsDigitRun(body) then Some(DigitsValue(body) as real) else None
    case Some(parts) =>
      var (whole, fraction) := parts;
      if (whole == "" || IsDigitRun(whole)) && (fraction == "" || IsDigitRun(fraction))
         && (whole != "" || fraction != "") then
        Some((if whole == "" then 0 else DigitsValue(whole)) as real
             + (if fraction == "" then 0 else DigitsValue(fraction)) as real / Pow10(|fraction| - Count(fraction, {'_'})))
      else None
  }

  /** `x` times ten to the power `e`. */
  function Scale(x: real, e: int): real {
    if e >= 0 then x * Pow10(e) else x / Pow10(-e)
  }

  /**
    Python's `Decimal(s)` on a string: optional surrounding whitespace, an
    optional sign, then either a numeral with an optional fraction and an
    optional exponent (`e` or `E`, an optional sign, digits), or `Inf` or
    `Infinity` in any case.  None where it raises; NaN has no `Value` and
    is rejected too.
  */
  function ParseDecimal(s: string): (r: Option<Value>)
    ensures r.Some? ==> r.value.VDec? || r.value.VInf? || r.value.VNegInf?
  {
    SignedDecimal(Strip(s))
  }

  /** A decimal string without surrounding whitespace. */
  function SignedDecimal(t: string): Option<Value> {
    if |t| > 0 && t[0] == '-' then Negated(UnsignedDecimal(t[1..]))
    else if |t| > 0 && t[0] == '+' then UnsignedDecimal(t[1..])
    else UnsignedDecimal(t)
  }

  /** The decimal of opposite sign. */
  function Negated(r: Option<Value>): Option<Value> {
    match r
    case Some(VInf) => Some(VNegInf)
    case Some(VDec(x)) => Some(VDec(-x))
    case _ => r
  }

  /** `Inf` or `Infinity`, in any letter case. */
  predicate IsInfinityWord(u: string) {
    SpellsIgnoringCase(u, "inf") || SpellsIgnoringCase(u, "infinity")
  }

  /** A decimal string without sign: an infinity or a numeral. */
  function UnsignedDecimal(u: string): (r: Option<Value>)
    ensures r.Some? ==> r.value.VDec? || r.value.VInf?
  {
    if IsInfinityWord(u) then Some(VInf)
    else
      match ParseMagnitude(u)
      case Some(x) => Some(VDec(x))
      case None => None
  }

  /** An unsigned numeral with an optional exponent. */
  function ParseMagnitude(u: string): Option<real> {
    match SplitExponent(u)
    case None => ParseFixed(u)
    case Some(parts) =>
      match (ParseFixed(parts.0), ParseSigned(parts.1))
      case (Some(x), Some(e)) => Some(Scale(x, e))
      case _ => None
  }

  /** A digit run is no infinity and reads as a numeral of the same value, with no exponent. */
  lemma DigitRunDecimal(d: string)
    requires IsDigitRun(d)
    ensures !IsInfinityWord(d) && Avoids(d, ExponentMarks)
    ensures ParseFixed(d) == ParseMagnitude(d) == Some(DigitsValue(d) as real)
    ensures UnsignedDecimal(d) == Some(VDec(DigitsValue(d) as real))
  {
    assert IsDigit(d[0]) && LowerChar(d[0]) == d[0];
    assert 'e' !in d && 'E' !in d && '.' !in d;
  }

  /** `Decimal(s) == int(s)` whenever `int(s)` succeeds: every integer literal is a decimal one of the same value. */
  lemma ParseDecimalOfInteger(s: string)
    ensures ParseInt(s).Some? ==> ParseDecimal(s) == Some(VDec(ParseInt(s).value as real))
  {
    if ParseInt(s).Some? {
      var t := Strip(s);
      var digits := if t[0] == '-' || t[0] == '+' then t[1..] else t;
      assert IsDigitRun(digits);
      DigitRunDecimal(digits);
      assert SignedDecimal(t) == if t[0] == '-' then Negated(UnsignedDecimal(digits)) else UnsignedDecimal(digits);
    }
  }

  /** A decimal string that starts with a digit and ends in one reads as an unsigned decimal. */
  lemma UnsignedDecimalText(t: string)
    requires |t| > 0 && IsDigit(t[0]) && IsDigit(t[|t| - 1])
    ensures ParseDecimal(t) == UnsignedDecimal(t)
  {
    DigitIsNoSpace(t[0]);
    DigitIsNoSpace(t[|t| - 1]);
    NoSpaceStripsToItself(t);
  }

  lemma NegativeExponent(d: string)
    requires IsDigitRun(d)
    ensures ParseSigned("-" + d) == Some(-(DigitsValue(d) as int))
  {
    assert ("-" + d)[0] == '-' && ("-" + d)[1..] == d;
  }

  /** Scaling by a negative power of ten divides by the positive one. */
  lemma ScaleDown(x: real, n: nat)
    ensures Scale(x, -(n as int)) == x / Pow10(n)
  {
    if n == 0 {
      assert Pow10(0) == 1.0;
      assert Scale(x, 0) == x * 1.0;
    } else {
      var e: int := -(n as int);
      assert Scale(x, e) == x / Pow10(-e);
      assert -e == n;
    }
  }

  /** The magnitude of a numeral with a negative exponent. */
  lemma MagnitudeExponent(m: string, mark: char, d: string)
    requires IsDigitRun(m) && IsDigitRun(d) && mark in ExponentMarks
    ensures ParseMagnitude(m + [mark] + ("-" + d)) == Some(DigitsValue(m) as real / Pow10(DigitsValue(d)))
  {
    DigitRunDecimal(m);
    SplitExponentJoin(m, mark, "-" + d);
    NegativeExponent(d);
    var n: int := DigitsValue(d);
    ScaleDown(DigitsValue(m) as real, n);
  }

  /**
    A numeral with a negative exponent, such as `1e-1` or `25E-2`, is the
    numeral divided by that power of ten.
  */
  lemma ParseDecimalExponent(m: string, mark: char, d: string)
    requires IsDigitRun(m) && IsDigitRun(d) && mark in ExponentMarks
    ensures ParseDecimal(m + [mark] + "-" + d) == Some(VDec(DigitsValue(m) as real / Pow10(DigitsValue(d))))
  {
    var s := m + [mark] + ("-" + d);
    assert m + [mark] + "-" + d == s;
    assert IsDigit(m[0]) && IsDigit(d[|d| - 1]);
    assert s[0] == m[0] && s[|s| - 1] == d[|d| - 1];
    UnsignedDecimalText(s);
    assert IsDigit(s[0]) && LowerChar(s[0]) == s[0];
    assert !IsInfinityWord(s);
    MagnitudeExponent(m, mark, d);
  }

  lemma LetterIsNoSpace(c: char)
    requires 'A' <= c <= 'Z' || 'a' <= c <= 'z'
    ensures c !in Whitespace && c != '-' && c != '+'
  {
  }

  /** An infinity word starts and ends with a letter. */
  lemma InfinityWordEnds(w: string)
    requires IsInfinityWord(w)
    ensures |w| > 0 && w[0] !in Whitespace && w[|w| - 1] !in Whitespace
    ensures w[0] != '-' && w[0] != '+'
  {
    assert LowerChar(w[0]) == 'i';
    assert LowerChar(w[|w| - 1]) in {'f', 'y'};
    LetterIsNoSpace(w[0]);
    LetterIsNoSpace(w[|w| - 1]);
  }

  /** A sign before an unsigned decimal, with no whitespace after it, gives that decimal with the sign. */
  lemma SignedDecimalText(t: string)
    requires |t| > 1 && (t[0] == '-' || t[0] == '+') && t[|t| - 1] !in Whitespace
    ensures ParseDecimal(t) == if t[0] == '-' then Negated(UnsignedDecimal(t[1..])) else UnsignedDecimal(t[1..])
  {
    NoSpaceStripsToItself(t);
  }

  /** `Inf` and `Infinity`, in any letter case, are positive infinity. */
  lemma ParseDecimalInfinity(w: string)
    requires IsInfinityWord(w)
    ensures ParseDecimal(w) == Some(VInf)
  {
    InfinityWordEnds(w);
    NoSpaceStripsToItself(w);
  }

  /** `-Inf` and `-Infinity`, in any letter case, are negative infinity. */
  lemma ParseDecimalNegativeInfinity(w: string)
    requires IsInfinityWord(w)
    ensures ParseDecimal("-" + w) == Some(VNegInf)
  {
    InfinityWordEnds(w);
    var t := "-" + w;
    assert t[1..] == w && t[|t| - 1] == w[|w| - 1];
    SignedDecimalText(t);
    assert UnsignedDecimal(w) == Some(VInf);
    assert Negated(Some(VInf)) == Some(VNegInf);
  }

  /** `+Inf` and `+Infinity`, in any letter case, are positive infinity. */
  lemma ParseDecimalPositiveInfinity(w: string)
    requires IsInfinityWord(w)
    ensures ParseDecimal("+" + w) == Some(VInf)
  {
    InfinityWordEnds(w);
    var t := "+" + w;
    assert t[1..] == w && t[|t| - 1] == w[|w| - 1];
    SignedDecimalText(t);
    assert UnsignedDecimal(w) == Some(VInf);
  }

  /** 10 raised to the power `e`. */
  function Pow10(e: nat): (r: real)
    ensures r >= 1.0
  {
    if e == 0 then 1.0 else 10.0 * Pow10(e - 1)
  }

  /** Python's `Decimal(v)`: None where the conversion raises. */
  function PyDecimal(v: Value): (r: Option<Value>)
    ensures r.Some? ==> r.value.VDec? || r.value.VInf? || r.value.VNegInf?
    ensures v.VDec? || v.VInf? || v.VNegInf? ==> r == Some(v)
    ensures v.VInt? ==> r == Some(VDec(v.i as real))
  {
    match v
    case VBool(b) => Some(VDec(if b then 1.0 else 0.0))
    case VInt(i) => Some(VDec(i as real))
    case VDec(_) => Some(v)
    case VInf => Some(v)
    case VNegInf => Some(v)
    case VStr(s) => ParseDecimal(s)
    case _ => None
  }
}
