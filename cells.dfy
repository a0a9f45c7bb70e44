/** The values a spreadsheet row object can hold once the reader has turned a sheet
    into JSON rows (no date cells: the reader is called without `cellDates`), and the
    JavaScript conversions the loaders apply to them: truthiness and `||`, `String(v)`
    and `Number(v)`. Numbers are the finite decimals JavaScript prints for them. */
module Cells {
  import opened Wrappers
  import opened JsText

  function Pow10(n: nat): (r: nat)
    ensures r >= 1
  {
    if n == 0 then 1 else 10 * Pow10(n - 1)
  }

  /** The number `mant / 10^scale`. */
  datatype Decimal = Decimal(mant: int, scale: nat)

  /** The exact number `n * 10^e`. */
  function Scaled(n: int, e: int): real {
    if e >= 0 then (n * Pow10(e)) as real else n as real / Pow10(-e) as real
  }

  function DecValue(d: Decimal): real {
    Scaled(d.mant, -(d.scale as int))
  }

  /** No trailing zero after the decimal point: the form JavaScript prints. */
  predicate Canonical(d: Decimal) {
    d.scale == 0 || d.mant % 10 != 0
  }

  /** Strips trailing fractional zeros without changing the number. */
  function Canon(d: Decimal): (c: Decimal)
    ensures Canonical(c) && c.scale <= d.scale
    decreases d.scale
  {
    if d.scale > 0 && d.mant % 10 == 0 then Canon(Decimal(d.mant / 10, d.scale - 1)) else d
  }

  /** Dropping a trailing zero digit and one power of ten keeps the number. */
  lemma ScaledDropZero(m: int, k: nat)
    requires k > 0 && m % 10 == 0
    ensures Scaled(m / 10, 1 - k) == Scaled(m, -(k as int))
  {
    var p := Pow10(k - 1) as real;
    assert Pow10(k) as real == 10.0 * p;
    assert m as real == 10.0 * (m / 10) as real;
    if k - 1 == 0 {
      assert Scaled(m / 10, 0) == (m / 10) as real;
    }
    assert Scaled(m, -(k as int)) == (10.0 * (m / 10) as real) / (10.0 * p);
  }

  lemma ScaledNegate(n: int, e: int)
    ensures Scaled(-n, e) == -Scaled(n, e)
  {
  }

  lemma {:induction false} CanonValue(d: Decimal)
    ensures DecValue(Canon(d)) == DecValue(d)
    decreases d.scale
  {
    if d.scale > 0 && d.mant % 10 == 0 {
      CanonValue(Decimal(d.mant / 10, d.scale - 1));
      ScaledDropZero(d.mant, d.scale);
    }
  }

  /** A cell of a JSON row: a missing column reads as `Undefined`. */
  datatype Value = Undefined | Null | Str(s: string) | Num(d: Decimal) | Bool(b: bool)

  /** JavaScript truthiness: `undefined`, `null`, `""`, `0` and `false` are falsy. */
  predicate Truthy(v: Value) {
    match v
    case Undefined => false
    case Null => false
    case Str(s) => s != ""
    case Num(d) => d.mant != 0
    case Bool(b) => b
  }

  /** `v || w`. */
  function Or(v: Value, w: Value): Value {
    if Truthy(v) then v else w
  }

  /** `String(n)` for a finite number written positionally. */
  function NumberText(d: Decimal): (r: string)
    ensures r != []
  {
    var c := Canon(d);
    var a := Magnitude(c.mant);
    SignText(c.mant) + FixedText(Quot(a, c.scale), Rem(a, c.scale), c.scale)
  }

  /** The minus sign of a negative number's text. */
  function SignText(m: int): string {
    if m < 0 then "-" else ""
  }

  /** The absolute value of a mantissa. */
  function Magnitude(m: int): (a: nat)
    ensures a == m || a == -m
  {
    if m < 0 then -m else m
  }

  /** The integer part of `a / 10^k`. */
  function Quot(a: nat, k: nat): nat {
    if k == 0 then a else Quot(a / 10, k - 1)
  }

  /** The `k` fractional digits of `a / 10^k`, as a number. */
  function Rem(a: nat, k: nat): (r: nat)
    ensures r < Pow10(k)
  {
    if k == 0 then 0 else Rem(a / 10, k - 1) * 10 + a % 10
  }

  lemma {:induction false} QuotRem(a: nat, k: nat)
    ensures a == Quot(a, k) * Pow10(k) + Rem(a, k) && Rem(a, k) < Pow10(k)
  {
    if k > 0 {
      QuotRem(a / 10, k - 1);
      ShiftQuotRem(a, Quot(a / 10, k - 1), Rem(a / 10, k - 1), Pow10(k - 1));
    }
  }

  lemma ShiftQuotRem(a: nat, q: nat, r: nat, p: nat)
    requires a / 10 == q * p + r && r < p
    ensures a == q * (10 * p) + (r * 10 + a % 10) && r * 10 + a % 10 < 10 * p
  {
    assert a == 10 * (a / 10) + a % 10;
    assert 10 * (q * p) == q * (10 * p);
  }

  /** `String(v)`. */
  function ToText(v: Value): string {
    match v
    case Undefined => "undefined"
    case Null => "null"
    case Str(s) => s
    case Num(d) => NumberText(d)
    case Bool(b) => if b then "true" else "false"
  }

  /** A JavaScript number as `Number(v)` can produce it. */
  datatype JsNumber = NaN | Finite(x: Sci) | Infinite(negative: bool)

  /** A finite number `mant * 10^exp`; several forms denote the same number. */
  datatype Sci = Sci(mant: int, exp: int)

  function SciValue(x: Sci): real {
    Scaled(x.mant, x.exp)
  }

  function Negate(x: Sci): Sci {
    Sci(-x.mant, x.exp)
  }

  /** `Number(v)`. */
  function ToNumber(v: Value): JsNumber {
    match v
    case Undefined => NaN
    case Null => Finite(Sci(0, 0))
    case Str(s) => StringToNumber(s)
    case Num(d) => Finite(Sci(d.mant, -(d.scale as int)))
    case Bool(b) => Finite(Sci(if b then 1 else 0, 0))
  }

  /** `Number(s)` for a string: surrounding white space is ignored, the empty string
      is 0, and the rest must be a decimal literal with optional sign, fraction and
      exponent, a signed `Infinity`, or an unsigned `0x` hexadecimal integer. */
  function StringToNumber(s: string): JsNumber {
    TrimmedToNumber(Trim(s))
  }

  function TrimmedToNumber(t: string): JsNumber {
    if t == "" then Finite(Sci(0, 0))
    else if HasHexPrefix(t) then HexLiteral(t[2..])
    else SignedLiteral(t)
  }

  /** The digits after `0x`: at least one, and nothing else. */
  function HexLiteral(h: string): JsNumber {
    if h != [] && DigitRun(h, true) == |h| then Finite(Sci(DigitsValue(h, true), 0)) else NaN
  }

  /** An optional sign, then `Infinity` or an unsigned decimal literal. */
  function SignedLiteral(t: string): JsNumber
    requires t != []
  {
    var negative := t[0] == '-';
    var u := if t[0] == '-' || t[0] == '+' then t[1..] else t;
    if u == "Infinity" then Infinite(negative)
    else
      match UnsignedDecimal(u)
      case None => NaN
      case Some(x) => Finite(if negative then Negate(x) else x)
  }

  /** An unsigned decimal literal: digits, optionally a point and more digits (at least
      one digit in all), optionally an exponent; nothing may follow. */
  function UnsignedDecimal(u: string): Option<Sci> {
    var k := DigitRun(u, false);
    var (fraction, tail) := SplitFraction(u[k..]);
    if k == 0 && fraction == [] then None
    else
      match Exponent(tail)
      case None => None
      case Some(e) => Some(LiteralValue(u[..k], fraction, e))
  }

  /** The number written with integer digits `whole`, fraction digits `fraction` and
      exponent `e`. */
  function LiteralValue(whole: string, fraction: string, e: int): Sci
    requires AllDigits(whole) && AllDigits(fraction)
  {
    Sci(DigitsValue(whole, false) * Pow10(|fraction|) + DigitsValue(fraction, false), e - |fraction|)
  }

  /** After the integer digits: the fraction digits (after a point) and what follows. */
  function SplitFraction(rest: string): (r: (string, string))
    ensures AllDigits(r.0)
  {
    if rest != [] && rest[0] == '.' then
      var f := DigitRun(rest[1..], false);
      (rest[1..][..f], rest[1..][f..])
    else ([], rest)
  }

  /** The exponent part `e`/`E`, sign, digits; the empty text is exponent 0. */
  function Exponent(tail: string): Option<int> {
    if tail == [] then Some(0)
    else if tail[0] != 'e' && tail[0] != 'E' then None
    else
      var w := tail[1..];
      var negative := w != [] && w[0] == '-';
      var ds := if w != [] && (w[0] == '-' || w[0] == '+') then w[1..] else w;
      if ds != [] && DigitRun(ds, false) == |ds| then
        Some(if negative then -(DigitsValue(ds, false) as int) else DigitsValue(ds, false))
      else None
  }

  // ----- `Number(String(n)) == n` -----

  predicate AllDigits(s: string) {
    forall i :: 0 <= i < |s| ==> DigitValue(s[i], false).Some?
  }

  lemma {:induction false} DigitsValueAppend(a: string, b: string)
    requires AllDigits(a) && AllDigits(b)
    ensures AllDigits(a + b)
    ensures DigitsValue(a + b, false) == DigitsValue(a, false) * Pow10(|b|) + DigitsValue(b, false)
    decreases |b|
  {
    assert AllDigits(a + b) by {
      forall i | 0 <= i < |a + b| ensures DigitValue((a + b)[i], false).Some? {
        if i < |a| { assert (a + b)[i] == a[i]; } else { assert (a + b)[i] == b[i - |a|]; }
      }
    }
    if b == [] {
      assert a + b == a;
    } else {
      var b' := b[..|b| - 1];
      assert (a + b)[..|a + b| - 1] == a + b';
      assert (a + b)[|a + b| - 1] == b[|b| - 1];
      DigitsValueAppend(a, b');
      var last := DigitValue(b[|b| - 1], false).value;
      assert DigitsValue(a + b, false) == DigitsValue(a + b', false) * 10 + last;
      assert DigitsValue(b, false) == DigitsValue(b', false) * 10 + last;
      ShiftDigit(DigitsValue(a, false), Pow10(|b'|), DigitsValue(b', false), last);
    }
  }

  lemma ShiftDigit(x: nat, p: nat, y: nat, last: nat)
    ensures (x * p + y) * 10 + last == x * (10 * p) + (y * 10 + last)
  {
  }

  lemma {:induction false} DigitsValueZeros(n: nat)
    ensures AllDigits(Repeat('0', n)) && DigitsValue(Repeat('0', n), false) == 0
  {
    if n > 0 {
      DigitsValueZeros(n - 1);
      var z := Repeat('0', n);
      assert z[..n - 1] == Repeat('0', n - 1);
    }
  }

  lemma {:induction false} NatToStringLength(n: nat, k: nat)
    requires k >= 1 && n < Pow10(k)
    ensures |NatToString(n)| <= k
  {
    if n >= 10 {
      assert k >= 2;
      assert n / 10 < Pow10(k - 1);
      NatToStringLength(n / 10, k - 1);
    }
  }

  /** `k` zero-padded digits of `r < 10^k` read back as `r`. */
  lemma PaddedDigits(r: nat, k: nat)
    requires k >= 1 && r < Pow10(k)
    ensures |PadStart(NatToString(r), k, '0')| == k
    ensures AllDigits(PadStart(NatToString(r), k, '0'))
    ensures DigitsValue(PadStart(NatToString(r), k, '0'), false) == r
  {
    var s := NatToString(r);
    NatToStringLength(r, k);
    DigitsOfNatToString(r);
    if |s| < k {
      DigitsValueZeros(k - |s|);
      DigitsValueAppend(Repeat('0', k - |s|), s);
    }
  }

  lemma {:induction false} DigitRunPrefix(a: string, b: string)
    requires AllDigits(a)
    requires b == [] || DigitValue(b[0], false).None?
    ensures DigitRun(a + b, false) == |a|
  {
    if a != [] {
      assert (a + b)[1..] == a[1..] + b;
      DigitRunPrefix(a[1..], b);
    } else {
      assert a + b == b;
    }
  }



  /** The `k` fractional digits of `r / 10^k`. */
  function FractionText(r: nat, k: nat): string {
    if k == 0 then "" else PadStart(NatToString(r), k, '0')
  }

  /** The positional text of `q + r / 10^k` with exactly `k` fractional digits. */
  function FixedText(q: nat, r: nat, k: nat): string {
    NatToString(q) + (if k == 0 then "" else "." + FractionText(r, k))
  }

  lemma FractionTextDigits(r: nat, k: nat)
    requires r < Pow10(k)
    ensures |FractionText(r, k)| == k && AllDigits(FractionText(r, k))
    ensures DigitsValue(FractionText(r, k), false) == r
  {
    if k > 0 {
      PaddedDigits(r, k);
    }
  }

  /** The fixed text splits into its integer digits and its fraction digits. */
  lemma FixedTextSplits(q: nat, r: nat, k: nat)
    requires r < Pow10(k)
    ensures DigitRun(FixedText(q, r, k), false) == |NatToString(q)|
    ensures FixedText(q, r, k)[..|NatToString(q)|] == NatToString(q)
    ensures SplitFraction(FixedText(q, r, k)[|NatToString(q)|..]) == (FractionText(r, k), [])
  {
    var ip := NatToString(q);
    DigitsOfNatToString(q);
    var fracText := if k == 0 then "" else "." + FractionText(r, k);
    var u := FixedText(q, r, k);
    assert u == ip + fracText;
    DigitRunPrefix(ip, fracText);
    assert u[..|ip|] == ip && u[|ip|..] == fracText;
    if k > 0 {
      FractionTextDigits(r, k);
      SplitAfterPoint(FractionText(r, k));
    }
  }

  lemma SplitAfterPoint(fraction: string)
    requires AllDigits(fraction)
    ensures SplitFraction("." + fraction) == (fraction, [])
  {
    DigitRunAll(fraction, false);
    assert ("." + fraction)[1..] == fraction;
    assert fraction[..|fraction|] == fraction && fraction[|fraction|..] == [];
  }

  lemma UnsignedWithoutExponent(u: string, whole: string, fraction: string)
    requires whole != [] && AllDigits(whole) && AllDigits(fraction)
    requires |whole| <= |u| && u[..|whole|] == whole && DigitRun(u, false) == |whole|
    requires SplitFraction(u[|whole|..]) == (fraction, [])
    ensures UnsignedDecimal(u) == Some(LiteralValue(whole, fraction, 0))
  {
    assert Exponent([]) == Some(0);
  }

  /** The fixed text of `a / 10^k` reads back as that number. */
  lemma UnsignedText(a: nat, k: nat)
    ensures UnsignedDecimal(FixedText(Quot(a, k), Rem(a, k), k)) == Some(Sci(a, -(k as int)))
  {
    QuotRem(a, k);
    var x := UnsignedTextParse(Quot(a, k), Rem(a, k), k);
    assert x == Sci(a, -(k as int));
  }

  lemma UnsignedTextParse(q: nat, r: nat, k: nat) returns (x: Sci)
    requires r < Pow10(k)
    ensures x == Sci(q * Pow10(k) + r, -(k as int))
    ensures UnsignedDecimal(FixedText(q, r, k)) == Some(x)
  {
    var ip := NatToString(q);
    var fraction := FractionText(r, k);
    var u := FixedText(q, r, k);
    DigitsOfNatToString(q);
    FractionTextDigits(r, k);
    x := LiteralValue(ip, fraction, 0);
    FixedTextSplits(q, r, k);
    UnsignedWithoutExponent(u, ip, fraction);
  }

  /** A fixed text starts with a digit that is not followed by `x`. */
  lemma FixedTextStart(q: nat, r: nat, k: nat)
    ensures var t := FixedText(q, r, k);
            t != [] && '0' <= t[0] <= '9' && (|t| >= 2 ==> t[1] != 'x' && t[1] != 'X')
  {
    var ip := NatToString(q);
    var t := FixedText(q, r, k);
    assert t[0] == ip[0];
    if |t| >= 2 {
      if |ip| >= 2 { assert t[1] == ip[1]; } else { assert t[1] == '.'; }
    }
  }

  /** A fixed text ends with a digit. */
  lemma FixedTextEnd(q: nat, r: nat, k: nat)
    requires r < Pow10(k)
    ensures var t := FixedText(q, r, k);
            t != [] && DigitValue(t[|t| - 1], false).Some?
  {
    var ip := NatToString(q);
    if k == 0 {
      assert FixedText(q, r, k) == ip;
      assert '0' <= ip[|ip| - 1] <= '9';
    } else {
      var fraction := FractionText(r, k);
      FractionTextDigits(r, k);
      assert DigitValue(fraction[k - 1], false).Some?;
      LastOfConcat(ip + ".", fraction);
    }
  }

  lemma LastOfConcat(a: string, b: string)
    requires b != []
    ensures (a + b)[|a + b| - 1] == b[|b| - 1]
  {
  }

  lemma MinusText(body: string, x: Sci)
    requires body != [] && '0' <= body[0] <= '9'
    requires DigitValue(body[|body| - 1], false).Some?
    requires UnsignedDecimal(body) == Some(x)
    ensures StringToNumber("-" + body) == Finite(Negate(x))
  {
    MinusTrimmed(body);
    MinusLiteral(body, x);
    AlreadyTrimmed("-" + body);
  }

  lemma AlreadyTrimmed(t: string)
    requires Trim(t) == t
    ensures StringToNumber(t) == TrimmedToNumber(t)
  {
  }

  lemma MinusTrimmed(body: string)
    requires body != [] && DigitValue(body[|body| - 1], false).Some?
    ensures Trim("-" + body) == "-" + body
  {
    var t := "-" + body;
    DigitNotSpace(body[|body| - 1]);
    assert t[0] == '-' && t[|t| - 1] == body[|body| - 1];
    TrimNoSpaceEnds(t);
  }

  lemma MinusLiteral(body: string, x: Sci)
    requires body != [] && '0' <= body[0] <= '9'
    requires UnsignedDecimal(body) == Some(x)
    ensures TrimmedToNumber("-" + body) == Finite(Negate(x))
  {
    var t := "-" + body;
    assert t[0] == '-' && t[1..] == body;
    assert body != "Infinity" by { assert body[0] != 'I'; }
    assert TrimmedToNumber(t) == SignedLiteral(t);
  }

  lemma PlainText(body: string, x: Sci)
    requires body != [] && '0' <= body[0] <= '9' && (|body| >= 2 ==> body[1] != 'x' && body[1] != 'X')
    requires DigitValue(body[|body| - 1], false).Some?
    requires UnsignedDecimal(body) == Some(x)
    ensures StringToNumber(body) == Finite(x)
  {
    DigitNotSpace(body[0]);
    DigitNotSpace(body[|body| - 1]);
    TrimNoSpaceEnds(body);
    PlainLiteral(body, x);
  }

  /** The trimmed text of a plain decimal literal reads as its value. */
  lemma PlainLiteral(body: string, x: Sci)
    requires body != [] && '0' <= body[0] <= '9' && (|body| >= 2 ==> body[1] != 'x' && body[1] != 'X')
    requires UnsignedDecimal(body) == Some(x)
    ensures TrimmedToNumber(body) == Finite(x)
  {
    assert body != "Infinity" by { assert body[0] != 'I'; }
    assert !HasHexPrefix(body);
  }

  /** `Number(String(n))` is `n`, in its canonical form. */
  lemma NumberTextRoundTrip(d: Decimal)
    ensures StringToNumber(NumberText(d)) == Finite(Sci(Canon(d).mant, -(Canon(d).scale as int)))
  {
    var c := Canon(d);
    var a := Magnitude(c.mant);
    var x := Sci(a, -(c.scale as int));
    var body := BodyText(a, c.scale);
    if c.mant < 0 {
      assert NumberText(d) == "-" + body;
      MinusText(body, x);
    } else {
      assert NumberText(d) == body;
      PlainText(body, x);
    }
  }

  /** The unsigned part of a number's text reads back as its magnitude. */
  lemma BodyText(a: nat, k: nat) returns (body: string)
    ensures body == FixedText(Quot(a, k), Rem(a, k), k)
    ensures body != [] && '0' <= body[0] <= '9'
    ensures |body| >= 2 ==> body[1] != 'x' && body[1] != 'X'
    ensures DigitValue(body[|body| - 1], false).Some?
    ensures UnsignedDecimal(body) == Some(Sci(a, -(k as int)))
  {
    body := FixedText(Quot(a, k), Rem(a, k), k);
    UnsignedText(a, k);
    FixedTextStart(Quot(a, k), Rem(a, k), k);
    FixedTextEnd(Quot(a, k), Rem(a, k), k);
  }

  /** The text of a number starts with a minus sign or a digit. */
  lemma NumberTextStart(d: Decimal)
    ensures NumberText(d)[0] == '-' || '0' <= NumberText(d)[0] <= '9'
  {
    var c := Canon(d);
    var a := Magnitude(c.mant);
    var body := BodyText(a, c.scale);
    assert NumberText(d) == SignText(c.mant) + body;
  }
}
