/** The part of PHP's value semantics the client depends on: values as
    json_decode() returns them, and the loose tests (empty(), isset(), `==`,
    `(int)` casts, string conversion of ints) the client applies to them.
    PHP 8 comparison rules are modelled. */
module PhpValues {
  import opened Optional
  import Padding

  /** A value decoded by json_decode() without the associative flag: JSON
      objects become property bags, JSON lists become arrays. JSON numbers
      with a fraction or an exponent (PHP floats) are not modelled. */
  datatype Json =
    | JNull
    | JBool(b: bool)
    | JInt(n: int)
    | JStr(s: string)
    | JArr(items: seq<Json>)
    | JObj(fields: map<string, Json>)

  /** PHP's empty(): null, false, 0, "", "0" and the empty array are empty;
      an object never is. */
  predicate Empty(v: Json) {
    match v
    case JNull => true
    case JBool(b) => !b
    case JInt(n) => n == 0
    case JStr(s) => s == "" || s == "0"
    case JArr(items) => items == []
    case JObj(_) => false
  }

  /** PHP's conversion to bool, as in `if ($v)`. */
  predicate Truthy(v: Json) {
    !Empty(v)
  }

  /** `$v->name`: the property of an object, or null for a missing property
      or a value that is not an object. */
  function Prop(v: Json, name: string): Json {
    if v.JObj? && name in v.fields then v.fields[name] else JNull
  }

  /** `isset($v)` for a value already read: anything but null. */
  predicate IsSet(v: Json) {
    v != JNull
  }

  /** One step of a nested read such as `$r->A->B[0]->c`. */
  datatype Step = Key(name: string) | Index(i: nat)

  /** Follows `path` from `v`; null as soon as a step is missing. */
  function Lookup(v: Json, path: seq<Step>): Json
    decreases |path|
  {
    if path == [] then v
    else
      var next :=
        match path[0]
        case Key(name) => Prop(v, name)
        case Index(i) => if v.JArr? && i < |v.items| then v.items[i] else JNull;
      Lookup(next, path[1..])
  }

  // ---------------------------------------------------------------------
  // Decimal text

  predicate IsDigit(c: char) {
    '0' <= c <= '9'
  }

  predicate AllDigits(s: string) {
    forall i :: 0 <= i < |s| ==> IsDigit(s[i])
  }

  /** The whitespace PHP skips in front of a numeric string. */
  predicate IsSpace(c: char) {
    c == ' ' || c == '\t' || c == '\n' || c == '\r' || c == 11 as char || c == 12 as char
  }

  function DigitChar(d: nat): (c: char)
    requires d < 10
    ensures IsDigit(c)
  {
    ((48 + d) as char)
  }

  function DigitValue(c: char): (d: nat)
    requires IsDigit(c)
    ensures d < 10
  {
    (c as int) - 48
  }

  /** The decimal text of a natural number, without leading zeros. */
  function NatToString(n: nat): (s: string)
    ensures |s| > 0 && AllDigits(s)
    ensures n < 10 <==> |s| == 1
    decreases n
  {
    if n < 10 then [DigitChar(n)] else NatToString(n / 10) + [DigitChar(n % 10)]
  }

  /** PHP's conversion of an int to a string, as `$n . 'h '` does it. */
  function IntToString(n: int): string {
    if n < 0 then "-" + NatToString(-n) else NatToString(n)
  }

  /** The number a string of decimal digits denotes. */
  function DigitsValue(s: string): nat
    requires AllDigits(s)
    decreases |s|
  {
    if s == [] then 0 else DigitsValue(s[..|s| - 1]) * 10 + DigitValue(s[|s| - 1])
  }

  /** Length of the run of digits at the front of `s`. */
  function DigitRun(s: string): (k: nat)
    ensures k <= |s| && AllDigits(s[..k])
    ensures k < |s| ==> !IsDigit(s[k])
    decreases |s|
  {
    if s == [] || !IsDigit(s[0]) then 0
    else
      var k := 1 + DigitRun(s[1..]);
      assert s[..k] == [s[0]] + s[1..][..k - 1];
      k
  }

  /** Length of the run of whitespace at the front of `s`. */
  function SpaceRun(s: string): (k: nat)
    ensures k <= |s|
    ensures forall i :: 0 <= i < k ==> IsSpace(s[i])
    ensures k < |s| ==> !IsSpace(s[k])
    decreases |s|
  {
    if s == [] || !IsSpace(s[0]) then 0 else 1 + SpaceRun(s[1..])
  }

  /** How PHP reads a number at the front of a string: leading whitespace,
      an optional sign, a run of digits, optionally a point and a run of
      fraction digits (a point needs a digit before or after it), and, once
      there is a digit, optionally an exponent: e or E, an optional sign and
      at least one digit. `isFloat` says whether a point or an exponent was
      read; `rest` is what follows the number. */
  datatype Numeral = Numeral(negative: bool, whole: string, fraction: string, exponent: int, isFloat: bool, rest: string)

  /** The exponent at the front of `w`, and what follows it. */
  datatype Exponent = Exponent(value: int, rest: string)

  function ScanExponent(w: string): Option<Exponent> {
    if |w| > 0 && (w[0] == 'e' || w[0] == 'E') then
      var x := w[1..];
      var signed := |x| > 0 && (x[0] == '-' || x[0] == '+');
      var y := if signed then x[1..] else x;
      var j := DigitRun(y);
      if j == 0 then None
      else
        var d: int := DigitsValue(y[..j]);
        Some(Exponent(if signed && x[0] == '-' then -d else d, y[j..]))
    else None
  }

  function ScanNumber(s: string): (r: Numeral)
    ensures AllDigits(r.whole) && AllDigits(r.fraction)
  {
    var t := s[SpaceRun(s)..];
    if |t| > 0 && (t[0] == '-' || t[0] == '+') then ScanUnsigned(t[1..], t[0] == '-') else ScanUnsigned(t, false)
  }

  /** The number after the sign. */
  function ScanUnsigned(u: string, negative: bool): (r: Numeral)
    ensures AllDigits(r.whole) && AllDigits(r.fraction) && r.negative == negative
  {
    var k := DigitRun(u);
    ScanFraction(u[..k], u[k..], negative)
  }

  /** The number after its whole part `whole`: `v` is what follows it. */
  function ScanFraction(whole: string, v: string, negative: bool): (r: Numeral)
    requires AllDigits(whole)
    ensures AllDigits(r.fraction) && r.whole == whole && r.negative == negative
  {
    if |v| > 0 && v[0] == '.' && (|whole| > 0 || (|v| > 1 && IsDigit(v[1]))) then
      var f := DigitRun(v[1..]);
      WithExponent(Numeral(negative, whole, v[1..][..f], 0, true, v[1..][f..]))
    else if |whole| > 0 then
      WithExponent(Numeral(negative, whole, "", 0, false, v))
    else
      Numeral(negative, whole, "", 0, false, v)
  }

  /** The numeral `r` extended by an exponent at the front of its rest, if
      there is one. */
  function WithExponent(r: Numeral): (e: Numeral)
    ensures e.negative == r.negative && e.whole == r.whole && e.fraction == r.fraction
  {
    var x := ScanExponent(r.rest);
    if x.Some? then r.(exponent := x.value.value, isFloat := true, rest := x.value.rest) else r
  }

  /** The string starts with a number at all. */
  predicate HasNumber(r: Numeral) {
    |r.whole| + |r.fraction| > 0
  }

  /** A PHP 8 numeric string: a number with nothing but whitespace after it. */
  predicate IsNumericString(s: string) {
    var r := ScanNumber(s);
    HasNumber(r) && forall i :: 0 <= i < |r.rest| ==> IsSpace(r.rest[i])
  }

  function Pow10(n: nat): (p: nat)
    ensures p >= 1
  {
    if n == 0 then 1 else 10 * Pow10(n - 1)
  }

  /** The exact value of a numeral: plus or minus `mantissa` times ten to
      the `scale`. */
  datatype Decimal = Decimal(negative: bool, mantissa: nat, scale: int)

  function DecimalOf(r: Numeral): Decimal
    requires AllDigits(r.whole) && AllDigits(r.fraction)
  {
    assert AllDigits(r.whole + r.fraction) by {
      forall i | 0 <= i < |r.whole + r.fraction|
        ensures IsDigit((r.whole + r.fraction)[i])
      {
        if i >= |r.whole| {
          assert (r.whole + r.fraction)[i] == r.fraction[i - |r.whole|];
        }
      }
    }
    Decimal(r.negative, DigitsValue(r.whole + r.fraction), r.exponent - |r.fraction|)
  }

  /** The value as a fraction Numerator(d) / Denominator(d). */
  function Numerator(d: Decimal): int {
    var m := d.mantissa * Pow10(if d.scale >= 0 then d.scale else 0);
    if d.negative then -m else m
  }

  function Denominator(d: Decimal): (q: nat)
    ensures q >= 1
  {
    Pow10(if d.scale < 0 then -d.scale else 0)
  }

  /** The value rounded toward zero. */
  function Truncate(d: Decimal): int {
    var q := d.mantissa * Pow10(if d.scale >= 0 then d.scale else 0) / Denominator(d);
    if d.negative then -q else q
  }

  /** PHP_INT_MAX and PHP_INT_MIN on a 64-bit build. */
  const IntMax: int := 0x7FFF_FFFF_FFFF_FFFF
  const IntMin: int := -0x8000_0000_0000_0000

  function Saturate(n: int): (r: int)
    ensures IntMin <= r <= IntMax
  {
    if n > IntMax then IntMax else if n < IntMin then IntMin else n
  }

  /** `(int)` of a string: the number at its front (0 if there is none),
      rounded toward zero and saturated to the 64-bit range. */
  function StringToInt(s: string): (n: int)
    ensures IntMin <= n <= IntMax
  {
    Saturate(Truncate(DecimalOf(ScanNumber(s))))
  }

  /** `(int)` of a decoded value. JSON ints are taken to be within PHP's range. */
  function IntCast(v: Json): int {
    match v
    case JNull => 0
    case JBool(b) => if b then 1 else 0
    case JInt(n) => n
    case JStr(s) => StringToInt(s)
    case JArr(items) => if items == [] then 0 else 1
    case JObj(_) => 1
  }

  /** A string passed for an int parameter in PHP's coercive mode: one that
      starts with a number gives that number, its fraction cut off (with a
      warning when text follows); one without a number or with a number
      outside the 64-bit range is refused with a TypeError, here 0. */
  function IntParam(s: string): int {
    var r := ScanNumber(s);
    var d := DecimalOf(r);
    if HasNumber(r) && IntMin * Denominator(d) <= Numerator(d) < (IntMax + 1) * Denominator(d) then Truncate(d) else 0
  }

  /** PHP 8 `$v == $n` for an int `$n`: a numeric string compares by value,
      any other string as text against the decimal text of `$n`. */
  predicate LooselyEqualsInt(v: Json, n: int) {
    match v
    case JNull => n == 0
    case JBool(b) => b == (n != 0)
    case JInt(m) => m == n
    case JStr(s) =>
      if IsNumericString(s) then Numerator(DecimalOf(ScanNumber(s))) == n * Denominator(DecimalOf(ScanNumber(s)))
      else s == IntToString(n)
    case JArr(_) => false
    case JObj(_) => n == 1
  }

  /** PHP 8 `$v == $word` for a string literal `$word` that is not numeric
      (such as 'START'): strings compare as text, booleans against the
      word's truth value, null against the empty string, an int by its
      decimal text; arrays and objects never match. */
  predicate LooselyEqualsWord(v: Json, word: string) {
    match v
    case JNull => word == ""
    case JBool(b) => b == Truthy(JStr(word))
    case JInt(n) => IntToString(n) == word
    case JStr(s) => s == word
    case JArr(_) => false
    case JObj(_) => false
  }

  /** strtoupper() on one character: ASCII letters only. */
  function UpperChar(c: char): char {
    if 'a' <= c <= 'z' then (c as int - 32) as char else c
  }

  /** strtoupper(). */
  function ToUpper(s: string): (r: string)
    ensures |r| == |s| && forall i :: 0 <= i < |s| ==> r[i] == UpperChar(s[i])
  {
    seq(|s|, i requires 0 <= i < |s| => UpperChar(s[i]))
  }

  // ---------------------------------------------------------------------
  // Lemmas: the text an int is printed as reads back as that int.

  lemma {:induction false} DigitsValueSnoc(s: string, c: char)
    requires AllDigits(s) && IsDigit(c)
    ensures AllDigits(s + [c]) && DigitsValue(s + [c]) == DigitsValue(s) * 10 + DigitValue(c)
  {
    assert (s + [c])[..|s + [c]| - 1] == s;
  }

  lemma {:induction false} NatToStringValue(n: nat)
    ensures DigitsValue(NatToString(n)) == n
    decreases n
  {
    if n >= 10 {
      NatToStringValue(n / 10);
      DigitsValueSnoc(NatToString(n / 10), DigitChar(n % 10));
    }
  }

  lemma {:induction false} DigitRunOfDigits(d: string, rest: string)
    requires AllDigits(d)
    requires rest == [] || !IsDigit(rest[0])
    ensures DigitRun(d + rest) == |d|
    decreases |d|
  {
    if d != [] {
      assert (d + rest)[1..] == d[1..] + rest;
      DigitRunOfDigits(d[1..], rest);
    }
  }

  /** `rest` cannot continue a number: it does not start with a digit, a
      point or an exponent mark. */
  predicate EndsNumber(rest: string) {
    rest == [] || (!IsDigit(rest[0]) && rest[0] != '.' && rest[0] != 'e' && rest[0] != 'E')
  }

  lemma ScanUnsignedDigits(d: string, rest: string, negative: bool)
    requires |d| > 0 && AllDigits(d) && EndsNumber(rest)
    ensures ScanUnsigned(d + rest, negative) == Numeral(negative, d, "", 0, false, rest)
  {
    var s := d + rest;
    DigitRunOfDigits(d, rest);
    assert s[..|d|] == d && s[|d|..] == rest;
    assert ScanExponent(rest) == None;
  }

  lemma ScanDigits(d: string, rest: string)
    requires |d| > 0 && AllDigits(d) && EndsNumber(rest)
    ensures ScanNumber(d + rest) == Numeral(false, d, "", 0, false, rest)
  {
    var s := d + rest;
    assert !IsSpace(s[0]) && s[0] != '-' && s[0] != '+';
    assert s[SpaceRun(s)..] == s;
    ScanUnsignedDigits(d, rest, false);
  }

  lemma ScanMinusDigits(d: string, rest: string)
    requires |d| > 0 && AllDigits(d) && EndsNumber(rest)
    ensures ScanNumber("-" + d + rest) == Numeral(true, d, "", 0, false, rest)
  {
    var s := "-" + d + rest;
    assert !IsSpace(s[0]) && s[0] == '-';
    assert s[SpaceRun(s)..] == s;
    assert s[1..] == d + rest;
    ScanUnsignedDigits(d, rest, true);
  }

  /** Reading the printed text of `n`, followed by anything that does not
      continue the number, gives an integer-form numeral of value `n`. */
  lemma ScanIntToString(n: int, rest: string)
    requires EndsNumber(rest)
    ensures ScanNumber(IntToString(n) + rest) == Numeral(n < 0, NatToString(if n < 0 then -n else n), "", 0, false, rest)
    ensures Truncate(DecimalOf(ScanNumber(IntToString(n) + rest))) == n
  {
    var d := NatToString(if n < 0 then -n else n);
    if n < 0 {
      ScanMinusDigits(d, rest);
    } else {
      ScanDigits(d, rest);
    }
    NatToStringValue(if n < 0 then -n else n);
    assert d + "" == d;
  }

  /** `(int)` undoes PHP's int-to-string conversion within the 64-bit range,
      whatever follows that does not continue the number. */
  lemma StringToIntRoundTrip(n: int, rest: string)
    requires IntMin <= n <= IntMax
    requires EndsNumber(rest)
    ensures StringToInt(IntToString(n) + rest) == n
  {
    ScanIntToString(n, rest);
  }

  /** An exponent counts: `(int)"5e3"` is 5000. */
  lemma ExponentString()
    ensures ScanNumber("5e3") == Numeral(false, "5", "", 3, true, "")
    ensures StringToInt("5e3") == 5000
  {
    var s := "5e3";
    assert SpaceRun(s) == 0 && s[0..] == s;
    assert DigitRun(s[1..]) == 0;
    assert DigitRun(s) == 1 && s[..1] == "5" && s[1..] == "e3";
    var w := "e3";
    assert w[1..] == "3" && DigitRun("3") == 1 && "3"[..1] == "3" && "3"[1..] == "";
    assert ScanExponent(w) == Some(Exponent(3, ""));
    assert DigitsValue("5" + "") == 5 by {
      assert "5" + "" == "5";
    }
    assert Pow10(3) == 1000;
  }

  /** An 'e' and exponent digits at the front of `w`. */
  lemma ScanExponentDigits(k: string, rest: string)
    requires |k| > 0 && AllDigits(k)
    requires rest == [] || !IsDigit(rest[0])
    ensures ScanExponent(['e'] + (k + rest)) == Some(Exponent(DigitsValue(k), rest))
  {
    var x := k + rest;
    var w := ['e'] + x;
    assert w[1..] == x;
    assert x[0] == k[0] && IsDigit(x[0]);
    DigitRunOfDigits(k, rest);
    assert x[..|k|] == k && x[|k|..] == rest;
  }

  /** A run of digits at the front, not followed by another digit, is the
      whole part of the number. */
  lemma ScanLeadingDigits(d: string, w: string)
    requires |d| > 0 && AllDigits(d) && |w| > 0 && !IsDigit(w[0])
    ensures ScanNumber(d + w) == ScanFraction(d, w, false)
  {
    var s := d + w;
    assert !IsSpace(s[0]) && s[0] != '-' && s[0] != '+';
    assert s[SpaceRun(s)..] == s;
    DigitRunOfDigits(d, w);
    assert s[..|d|] == d && s[|d|..] == w;
  }

  lemma ScanExponentForm(d: string, k: string, rest: string)
    requires |d| > 0 && AllDigits(d) && |k| > 0 && AllDigits(k)
    requires rest == [] || !IsDigit(rest[0])
    ensures ScanNumber(d + "e" + k + rest) == Numeral(false, d, "", DigitsValue(k), true, rest)
  {
    var w := ['e'] + (k + rest);
    ExponentText(d, k, rest);
    ScanLeadingDigits(d, w);
    ScanExponentDigits(k, rest);
  }

  lemma ExponentText(d: string, k: string, rest: string)
    ensures d + "e" + k + rest == d + (['e'] + (k + rest))
  {
  }

  /** The exponent rule in general: digits, an 'e' and exponent digits
      read as the whole part times ten to that exponent, then saturated. */
  lemma ExponentForm(d: string, k: string, rest: string)
    requires |d| > 0 && AllDigits(d) && |k| > 0 && AllDigits(k)
    requires rest == [] || !IsDigit(rest[0])
    ensures ScanNumber(d + "e" + k + rest) == Numeral(false, d, "", DigitsValue(k), true, rest)
    ensures StringToInt(d + "e" + k + rest) == Saturate(DigitsValue(d) * Pow10(DigitsValue(k)))
  {
    ScanExponentForm(d, k, rest);
    var r := ScanNumber(d + "e" + k + rest);
    assert r.whole + r.fraction == d;
    var dec := DecimalOf(r);
    assert dec == Decimal(false, DigitsValue(d), DigitsValue(k));
    assert Denominator(dec) == 1;
    var m := DigitsValue(d) * Pow10(DigitsValue(k));
    assert m / 1 == m;
    assert Truncate(dec) == m;
  }

  /** A string whose first character is neither whitespace, a sign, a
      digit nor a point holds no number. */
  lemma NoLeadingNumber(s: string)
    requires |s| > 0 && !IsSpace(s[0]) && !IsDigit(s[0]) && s[0] != '-' && s[0] != '+' && s[0] != '.'
    ensures !HasNumber(ScanNumber(s))
  {
    assert s[SpaceRun(s)..] == s;
    assert DigitRun(s) == 0 && s[..0] == "" && s[0..] == s;
  }

  /** A point, fraction digits and text that continues neither, after a
      non-empty whole part. */
  lemma ScanFractionPoint(whole: string, f: string, rest: string, negative: bool)
    requires |whole| > 0 && AllDigits(whole) && AllDigits(f)
    requires rest == [] || (!IsDigit(rest[0]) && rest[0] != 'e' && rest[0] != 'E')
    ensures ScanFraction(whole, "." + f + rest, negative) == Numeral(negative, whole, f, 0, true, rest)
  {
    var v := "." + f + rest;
    assert v[1..] == f + rest;
    DigitRunOfDigits(f, rest);
    assert (f + rest)[..|f|] == f && (f + rest)[|f|..] == rest;
    assert ScanExponent(rest) == None;
  }

  /** Digits, a point, more digits and text that continues neither: a
      float-form numeral with that whole part and fraction. */
  lemma ScanPointDigits(d: string, f: string, rest: string)
    requires |d| > 0 && AllDigits(d) && AllDigits(f)
    requires rest == [] || (!IsDigit(rest[0]) && rest[0] != 'e' && rest[0] != 'E')
    ensures ScanNumber(d + "." + f + rest) == Numeral(false, d, f, 0, true, rest)
  {
    var s := d + "." + f + rest;
    var v := "." + f + rest;
    assert s == d + v;
    assert !IsSpace(s[0]) && s[0] != '-' && s[0] != '+';
    assert s[SpaceRun(s)..] == s;
    DigitRunOfDigits(d, v);
    assert s[..|d|] == d && s[|d|..] == v;
    ScanFractionPoint(d, f, rest, false);
  }

  lemma {:induction false} DigitsValueAppend(d: string, f: string)
    requires AllDigits(d) && AllDigits(f)
    ensures AllDigits(d + f)
    ensures DigitsValue(d + f) == DigitsValue(d) * Pow10(|f|) + DigitsValue(f)
    ensures DigitsValue(f) < Pow10(|f|)
    decreases |f|
  {
    if f == [] {
      assert d + f == d;
    } else {
      var g, c := f[..|f| - 1], f[|f| - 1];
      assert f == g + [c];
      assert d + f == (d + g) + [c];
      DigitsValueAppend(d, g);
      DigitsValueSnoc(d + g, c);
      DigitsValueSnoc(g, c);
      assert Pow10(|f|) == Pow10(|g|) * 10;
      ShiftDigit(DigitsValue(d), Pow10(|g|), DigitsValue(g), DigitValue(c));
    }
  }

  /** One more digit on a number whose low part `g` is below `p`. */
  lemma ShiftDigit(x: nat, p: nat, g: nat, c: nat)
    requires g < p && c < 10
    ensures (x * p + g) * 10 + c == x * (p * 10) + (g * 10 + c)
    ensures g * 10 + c < p * 10
  {
    assert (x * p + g) * 10 == x * p * 10 + g * 10;
    assert x * p * 10 == x * (p * 10);
    assert g * 10 <= (p - 1) * 10;
  }

  /** A fraction is cut off: `(int)` of a number with a point and fraction
      digits gives its whole part. */
  lemma FractionTruncates(a: nat, f: string, rest: string)
    requires a <= IntMax && AllDigits(f)
    requires rest == [] || (!IsDigit(rest[0]) && rest[0] != 'e' && rest[0] != 'E')
    ensures StringToInt(NatToString(a) + "." + f + rest) == a
  {
    var s := NatToString(a) + "." + f + rest;
    ScanPointDigits(NatToString(a), f, rest);
    TruncateOfFraction(a, ScanNumber(s));
  }

  /** A numeral without exponent whose whole part reads `a` truncates to `a`,
      whatever its fraction. */
  lemma TruncateOfFraction(a: nat, r: Numeral)
    requires AllDigits(r.fraction) && r.whole == NatToString(a) && r.exponent == 0 && !r.negative
    ensures Truncate(DecimalOf(r)) == a
  {
    var d, f := r.whole, r.fraction;
    var p := Pow10(|f|);
    NatToStringValue(a);
    DigitsValueAppend(d, f);
    var dec := DecimalOf(r);
    assert dec == Decimal(false, a * p + DigitsValue(f), -|f|);
    assert Denominator(dec) == p;
    assert dec.mantissa * Pow10(0) == a * p + DigitsValue(f);
    Padding.DivModUnique(a * p + DigitsValue(f), p, a, DigitsValue(f));
  }

  /** The printed digits of `n`, then text that does not continue the
      number: the exact value `n`. */
  lemma LeadingNumber(n: nat, rest: string)
    requires EndsNumber(rest)
    ensures HasNumber(ScanNumber(NatToString(n) + rest))
    ensures DecimalOf(ScanNumber(NatToString(n) + rest)) == Decimal(false, n, 0)
  {
    ScanDigits(NatToString(n), rest);
    NatToStringValue(n);
    assert NatToString(n) + "" == NatToString(n);
  }

  /** A string that starts with an integer in range gives that integer as
      an int parameter, whatever follows it: "404abc" gives 404. */
  lemma IntParamLeadingNumber(n: nat, rest: string)
    requires n <= IntMax && EndsNumber(rest)
    ensures IntParam(NatToString(n) + rest) == n
  {
    LeadingNumber(n, rest);
    var d := Decimal(false, n, 0);
    assert Pow10(0) == 1;
    assert Numerator(d) == n && Denominator(d) == 1 && Truncate(d) == n;
  }

  /** A string that does not start with a number casts to 0. */
  lemma NoNumberCastsToZero(s: string)
    requires !HasNumber(ScanNumber(s))
    ensures StringToInt(s) == 0
  {
    var r := ScanNumber(s);
    assert r.whole + r.fraction == "";
  }

  /** PHP 8 compares a numeric string with an int by value, so a float
      text such as "404.0" equals 404. */
  lemma IntegralFloatEquals(n: nat)
    ensures LooselyEqualsInt(JStr(NatToString(n) + ".0"), n)
  {
    var d := NatToString(n);
    PointZeroScan(d);
    var r := ScanNumber(d + ".0");
    assert IsNumericString(d + ".0");
    PointZeroValue(n, r);
  }

  /** Digits, a point and a zero: a float-form numeral with nothing after it. */
  lemma PointZeroScan(d: string)
    requires |d| > 0 && AllDigits(d)
    ensures ScanNumber(d + ".0") == Numeral(false, d, "0", 0, true, "")
  {
    ScanPointDigits(d, "0", "");
    assert d + "." + "0" + "" == d + ".0";
  }

  /** The exact value of "<n>.0" is ten times n over ten. */
  lemma PointZeroValue(n: nat, r: Numeral)
    requires r == Numeral(false, NatToString(n), "0", 0, true, "")
    ensures Numerator(DecimalOf(r)) == n * 10 && Denominator(DecimalOf(r)) == 10
  {
    var d := NatToString(n);
    NatToStringValue(n);
    DigitsValueSnoc(d, '0');
    assert r.whole + r.fraction == d + ['0'];
    var m := DigitsValue(d + ['0']);
    assert m == n * 10 by {
      assert DigitValue('0') == 0;
    }
    assert DecimalOf(r) == Decimal(false, m, -1);
    assert Pow10(0) == 1 && Pow10(1) == 10;
  }

  /** A number followed by text that does not continue it and holds a
      character other than whitespace (at `i`) is not a numeric string, so
      it does not equal the number: "404abc" == 404 and "404 abc" == 404
      are false. */
  lemma TrailingTextNotEqual(n: nat, rest: string, i: nat)
    requires i < |rest| && !IsSpace(rest[i]) && EndsNumber(rest)
    ensures !LooselyEqualsInt(JStr(NatToString(n) + rest), n)
  {
    ScanDigits(NatToString(n), rest);
    assert !IsNumericString(NatToString(n) + rest) by {
      assert ScanNumber(NatToString(n) + rest).rest == rest;
    }
    assert |IntToString(n)| < |NatToString(n) + rest|;
  }
}
