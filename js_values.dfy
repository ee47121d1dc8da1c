/** The JavaScript values that flow through the store's draft fields, and the
    few built-in operations of the language the store relies on: strict
    equality, conversion to a string, `toString()` and `parseInt`. */
module JsValues {

  /** A dynamically typed JavaScript value as far as the store sees one.
      Numbers are integral here: the store never computes with fractions. */
  datatype JsValue = Undefined | Null | Num(n: int) | NaN | Str(s: string)

  /** How the evaluation of a handler or expression ends: normally with a
      value, or by throwing a TypeError (a property read on `undefined`, a
      `toString()` call on `null` or `undefined`). */
  datatype Completion<+T> = Normal(value: T) | TypeError

  /** `a === b`; the store's `!==` is its negation. NaN is the one value not
      strictly equal to itself. */
  predicate StrictEquals(a: JsValue, b: JsValue)
  {
    a == b && !a.NaN?
  }

  const DecimalDigits: string := "0123456789"

  /** The decimal text of a natural number, most significant digit first. */
  function NatToDecimal(n: nat): string
    decreases n
  {
    if n < 10 then [DecimalDigits[n]] else NatToDecimal(n / 10) + [DecimalDigits[n % 10]]
  }

  /** Number::toString for an integral number: decimal with a leading '-'. */
  function IntToDecimal(i: int): string
  {
    if i < 0 then "-" + NatToDecimal(-i) else NatToDecimal(i)
  }

  /** `String(v)`: the conversion used for property keys and by `parseInt`. */
  function ToJsString(v: JsValue): string
  {
    match v
    case Undefined => "undefined"
    case Null => "null"
    case Num(n) => IntToDecimal(n)
    case NaN => "NaN"
    case Str(s) => s
  }

  /** `v.toString()`: like `String(v)`, but throws on `undefined` and `null`. */
  function CallToString(v: JsValue): Completion<string>
  {
    if v.Undefined? || v.Null? then TypeError else Normal(ToJsString(v))
  }

  /** The characters `parseInt` skips before the number: WhiteSpace and
      LineTerminator of section 12.2 and 12.3 of ECMA-262. */
  predicate IsStrWhiteSpace(c: char)
  {
    || c == '\t' || c == '\U{000B}' || c == '\U{000C}' || c == ' '
    || c == '\U{00A0}' || c == '\U{FEFF}' || c == '\U{1680}'
    || ('\U{2000}' <= c <= '\U{200A}')
    || c == '\U{202F}' || c == '\U{205F}' || c == '\U{3000}'
    || c == '\n' || c == '\r' || c == '\U{2028}' || c == '\U{2029}'
  }

  /** The value of an ASCII letter or digit as a digit in radix 36. */
  function DigitValue(c: char): nat
  {
    if '0' <= c <= '9' then c as nat - '0' as nat
    else if 'a' <= c <= 'z' then c as nat - 'a' as nat + 10
    else if 'A' <= c <= 'Z' then c as nat - 'A' as nat + 10
    else 36
  }

  predicate IsRadixDigit(c: char, radix: nat)
  {
    DigitValue(c) < radix
  }

  /** Leading whitespace removed. */
  function TrimStart(s: string): (t: string)
    ensures t == [] || !IsStrWhiteSpace(t[0])
  {
    if s != [] && IsStrWhiteSpace(s[0]) then TrimStart(s[1..]) else s
  }

  /** The longest prefix of `s` made of digits of the radix. */
  function DigitRun(s: string, radix: nat): (z: string)
    ensures |z| <= |s| && z == s[..|z|]
    ensures forall i | 0 <= i < |z| :: IsRadixDigit(z[i], radix)
    ensures |z| < |s| ==> !IsRadixDigit(s[|z|], radix)
  {
    if s != [] && IsRadixDigit(s[0], radix) then [s[0]] + DigitRun(s[1..], radix) else []
  }

  /** The number a string of digits denotes in the radix. */
  function DigitsValue(z: string, radix: nat): nat
  {
    if z == [] then 0 else DigitsValue(z[..|z| - 1], radix) * radix + DigitValue(z[|z| - 1])
  }

  /** `parseInt(s)` with no radix argument (section 19.2.5 of ECMA-262): skip
      leading whitespace, take an optional sign, and read the digits after it. */
  function ParseIntString(input: string): (r: JsValue)
    ensures r.Num? || r.NaN?
  {
    ParseSigned(TrimStart(input))
  }

  /** An optional '-' or '+' followed by the unsigned part. */
  function ParseSigned(s: string): (r: JsValue)
    ensures r.Num? || r.NaN?
  {
    if s != [] && s[0] == '-' then Negate(ParseUnsigned(s[1..]))
    else if s != [] && s[0] == '+' then ParseUnsigned(s[1..])
    else ParseUnsigned(s)
  }

  function Negate(v: JsValue): JsValue
  {
    if v.Num? then Num(-v.n) else v
  }

  /** Hexadecimal after a `0x`/`0X` prefix and decimal otherwise, up to the
      first character that is not a digit; NaN when no digit was read. */
  function ParseUnsigned(u: string): (r: JsValue)
    ensures r.Num? || r.NaN?
    ensures r.Num? ==> r.n >= 0
  {
    var hex := |u| >= 2 && u[0] == '0' && (u[1] == 'x' || u[1] == 'X');
    var radix := if hex then 16 else 10;
    var z := DigitRun(if hex then u[2..] else u, radix);
    if z == [] then NaN else Num(DigitsValue(z, radix))
  }

  /** `parseInt(v)`: converts its argument with `String` first. */
  function ParseInt(v: JsValue): (r: JsValue)
    ensures r.Num? || r.NaN?
  {
    ParseIntString(ToJsString(v))
  }

  lemma {:induction false} NatToDecimalIsDigits(n: nat)
    ensures |NatToDecimal(n)| >= 1
    ensures forall i | 0 <= i < |NatToDecimal(n)| :: '0' <= NatToDecimal(n)[i] <= '9'
    decreases n
  {
    if n >= 10 {
      NatToDecimalIsDigits(n / 10);
    }
  }

  /** Reading back the decimal text of `n` gives `n`. */
  lemma {:induction false} NatToDecimalValue(n: nat)
    ensures DigitsValue(NatToDecimal(n), 10) == n
    decreases n
  {
    var s := NatToDecimal(n);
    if n < 10 {
      assert s[..0] == [];
    } else {
      NatToDecimalValue(n / 10);
      assert s[..|s| - 1] == NatToDecimal(n / 10);
    }
  }

  lemma {:induction false} DigitRunOfDigits(s: string, radix: nat)
    requires forall i | 0 <= i < |s| :: IsRadixDigit(s[i], radix)
    ensures DigitRun(s, radix) == s
    decreases |s|
  {
    if s != [] {
      DigitRunOfDigits(s[1..], radix);
    }
  }

  /** The unsigned part of `parseInt` reads back a natural number's decimal text. */
  lemma ParseUnsignedOfDecimal(m: nat)
    ensures ParseUnsigned(NatToDecimal(m)) == Num(m)
  {
    var digits := NatToDecimal(m);
    NatToDecimalIsDigits(m);
    NatToDecimalValue(m);
    DigitRunOfDigits(digits, 10);
    assert |digits| >= 2 ==> '0' <= digits[1] <= '9';
  }

  /** Text that starts with a sign or a digit has no leading whitespace. */
  lemma TrimStartOfSignOrDigit(s: string)
    requires s != [] && (s[0] == '-' || '0' <= s[0] <= '9')
    ensures TrimStart(s) == s
  {
    assert !IsStrWhiteSpace(s[0]);
  }

  /** `parseInt` reads back what `Number::toString` writes. */
  lemma ParseIntOfDecimal(i: int)
    ensures ParseIntString(IntToDecimal(i)) == Num(i)
  {
    var m: nat := if i < 0 then -i else i;
    var digits := NatToDecimal(m);
    var text := IntToDecimal(i);
    ParseUnsignedOfDecimal(m);
    NatToDecimalIsDigits(m);
    if i < 0 {
      assert text == "-" + digits;
      assert text[0] == '-' && text[1..] == digits;
      TrimStartOfSignOrDigit(text);
      assert ParseSigned(text) == Negate(ParseUnsigned(digits));
    } else {
      assert text == digits;
      assert '0' <= text[0] <= '9';
      TrimStartOfSignOrDigit(text);
      assert ParseSigned(text) == ParseUnsigned(digits);
    }
  }

  /** `parseInt` of an integral number is that number. */
  lemma ParseIntOfNumber(n: int)
    ensures ParseInt(Num(n)) == Num(n)
  {
    ParseIntOfDecimal(n);
  }

  /** Distinct integers print differently. */
  lemma IntToDecimalInjective(a: int, b: int)
    ensures IntToDecimal(a) == IntToDecimal(b) <==> a == b
  {
    if IntToDecimal(a) == IntToDecimal(b) {
      ParseIntOfDecimal(a);
      ParseIntOfDecimal(b);
    }
  }

  /** Comparing `v.toString()` with the text of the integer `n`, as the replica
      check does, accepts exactly the number `n` and the string that spells it:
      `2` and `"2"` compare equal, `2` and `3` do not. */
  lemma ToStringMatchesDecimal(v: JsValue, n: int)
    ensures CallToString(v) == Normal(IntToDecimal(n)) <==> v == Num(n) || v == Str(IntToDecimal(n))
  {
    var text := IntToDecimal(n);
    NatToDecimalIsDigits(if n < 0 then -n else n);
    assert text[0] == '-' || '0' <= text[0] <= '9';
    match v
    case Num(m) => IntToDecimalInjective(m, n);
    case NaN => assert "NaN"[0] == 'N';
    case Undefined =>
    case Null =>
    case Str(s) =>
  }

  /** A text that starts with something other than whitespace, a sign or a
      decimal digit does not parse. */
  lemma ParseIntOfNonDigit(s: string)
    requires s != [] && !IsStrWhiteSpace(s[0]) && s[0] != '-' && s[0] != '+' && DigitValue(s[0]) >= 10
    ensures ParseIntString(s) == NaN
  {
    assert TrimStart(s) == s;
    assert ParseSigned(s) == ParseUnsigned(s);
  }

  /** The values the draft holds for an unset credential do not parse. */
  lemma ParseIntOfNonNumbers()
    ensures ParseInt(Null) == NaN && ParseInt(Undefined) == NaN && ParseInt(NaN) == NaN
  {
    ParseIntOfNonDigit("null");
    ParseIntOfNonDigit("undefined");
    ParseIntOfNonDigit("NaN");
  }
}
