/** The JavaScript string operations the dashboard relies on, written out over
    `seq<char>`: `trim`, `toLowerCase` (ASCII letters only), `includes`,
    `padStart`, `Number.prototype.toString` for integers, `parseInt`, and
    `charCodeAt(0)`. */
module JsText {
  import opened Wrappers

  /** The characters `String.prototype.trim` and `parseInt` skip: ECMAScript's
      WhiteSpace (tab, vertical tab, form feed, the byte-order mark and every
      space separator) and LineTerminator code points. */
  predicate IsSpace(c: char) {
    var n := c as int;
    n == 0x09 || n == 0x0A || n == 0x0B || n == 0x0C || n == 0x0D || n == 0x20 ||
    n == 0xA0 || n == 0x1680 || (0x2000 <= n <= 0x200A) || n == 0x2028 || n == 0x2029 ||
    n == 0x202F || n == 0x205F || n == 0x3000 || n == 0xFEFF
  }

  predicate AllSpace(s: string) {
    forall i :: 0 <= i < |s| ==> IsSpace(s[i])
  }

  /** The index of the first character at or after `k` that is not white space. */
  function SpaceRunFrom(s: string, k: nat): (e: nat)
    requires k <= |s|
    ensures k <= e <= |s| && (e == |s| || !IsSpace(s[e]))
    ensures AllSpace(s[k..e])
    decreases |s| - k
  {
    if k < |s| && IsSpace(s[k]) then
      var e := SpaceRunFrom(s, k + 1);
      assert forall m :: 0 <= m < e - k ==> s[k..e][m] == s[k + m];
      e
    else k
  }

  /** The index just past the last character before `k` that is not white space. */
  function SpaceRunBefore(s: string, k: nat): (b: nat)
    requires k <= |s|
    ensures b <= k && (b == 0 || !IsSpace(s[b - 1]))
    ensures AllSpace(s[b..k])
  {
    if k > 0 && IsSpace(s[k - 1]) then
      var b := SpaceRunBefore(s, k - 1);
      assert forall m :: 0 <= m < k - b ==> s[b..k][m] == s[b + m];
      b
    else k
  }

  /** Drops the leading white space: the result is a suffix of `s` that does not start
      with white space, and what was dropped is all white space. */
  function TrimStart(s: string): (r: string)
    ensures |r| <= |s| && r == s[|s| - |r|..]
    ensures AllSpace(s[..|s| - |r|])
    ensures r == [] || !IsSpace(r[0])
  {
    s[SpaceRunFrom(s, 0)..]
  }

  /** Drops the trailing white space: the result is a prefix of `s` that does not end
      with white space, and what was dropped is all white space. */
  function TrimEnd(s: string): (r: string)
    ensures |r| <= |s| && r == s[..|r|]
    ensures AllSpace(s[|r|..])
    ensures r == [] || !IsSpace(r[|r| - 1])
  {
    s[..SpaceRunBefore(s, |s|)]
  }

  /** `String.prototype.trim`. */
  function Trim(s: string): string {
    TrimEnd(TrimStart(s))
  }

  /** A trimmed string is a slice of the input, with white space only outside it and
      no white space at either end. */
  lemma TrimIsSlice(s: string) returns (i: nat, j: nat)
    ensures i <= j <= |s| && Trim(s) == s[i..j]
    ensures AllSpace(s[..i]) && AllSpace(s[j..])
    ensures Trim(s) == [] || (!IsSpace(Trim(s)[0]) && !IsSpace(Trim(s)[|Trim(s)| - 1]))
  {
    var t := TrimStart(s);
    var r := TrimEnd(t);
    i := |s| - |t|;
    j := i + |r|;
    TrimmedSlice(s, t, r);
  }

  /** The slice argument of `TrimIsSlice`, over the two intermediate strings. */
  lemma TrimmedSlice(s: string, t: string, r: string)
    requires |t| <= |s| && t == s[|s| - |t|..] && (t == [] || !IsSpace(t[0]))
    requires |r| <= |t| && r == t[..|r|] && AllSpace(t[|r|..]) && (r == [] || !IsSpace(r[|r| - 1]))
    ensures var i := |s| - |t|; r == s[i..i + |r|] && AllSpace(s[i + |r|..])
    ensures r == [] || (!IsSpace(r[0]) && !IsSpace(r[|r| - 1]))
  {
    var i := |s| - |t|;
    assert s[i + |r|..] == t[|r|..];
    if r != [] {
      assert r[0] == t[0];
    }
  }

  /** Trimming twice is trimming once. */
  lemma TrimIdempotent(s: string)
    ensures Trim(Trim(s)) == Trim(s)
  {
    var _, _ := TrimIsSlice(s);
    var t := Trim(s);
    assert TrimStart(t) == t;
    assert TrimEnd(t) == t;
  }

  /** A string trims to "" exactly when it is all white space. */
  lemma TrimEmptyIffAllSpace(s: string)
    ensures Trim(s) == "" <==> AllSpace(s)
  {
    var i, j := TrimIsSlice(s);
    if Trim(s) != "" {
      assert Trim(s)[0] == s[i] && !IsSpace(s[i]);
    } else {
      assert s == s[..i] + s[j..];
      forall k | 0 <= k < |s| ensures IsSpace(s[k]) {
        if k < i { assert s[k] == s[..i][k]; } else { assert s[k] == s[j..][k - j]; }
      }
    }
  }

  /** `String.prototype.toLowerCase` for ASCII letters; every other character is kept. */
  function ToLower(s: string): (r: string)
    ensures |r| == |s|
    ensures forall i :: 0 <= i < |s| ==>
      r[i] == if 'A' <= s[i] <= 'Z' then (s[i] as int + 32) as char else s[i]
  {
    if s == [] then []
    else [if 'A' <= s[0] <= 'Z' then (s[0] as int + 32) as char else s[0]] + ToLower(s[1..])
  }

  /** `String.prototype.includes`: `t` occurs in `s` as a contiguous piece. */
  predicate Includes(s: string, t: string) {
    exists i :: 0 <= i <= |s| - |t| && OccursAt(s, t, i)
  }

  predicate OccursAt(s: string, t: string, i: int) {
    0 <= i <= |s| - |t| && s[i..i + |t|] == t
  }

  function Repeat(c: char, n: nat): (r: string)
    ensures |r| == n && forall i :: 0 <= i < n ==> r[i] == c
  {
    if n == 0 then [] else [c] + Repeat(c, n - 1)
  }

  /** `String.prototype.padStart(n, c)` with a one-character pad. */
  function PadStart(s: string, n: nat, c: char): (r: string)
    ensures |r| == if |s| >= n then |s| else n
    ensures r[|r| - |s|..] == s
    ensures forall i :: 0 <= i < |r| - |s| ==> r[i] == c
  {
    if |s| >= n then s else Repeat(c, n - |s|) + s
  }

  function DigitChar(d: nat): char
    requires d < 10
  {
    ('0' as int + d) as char
  }

  /** Decimal text of a natural number, without leading zeros. */
  function NatToString(n: nat): (r: string)
    ensures |r| >= 1
    ensures forall i :: 0 <= i < |r| ==> '0' <= r[i] <= '9'
    ensures n > 0 ==> r[0] != '0'
  {
    if n < 10 then [DigitChar(n)] else NatToString(n / 10) + [DigitChar(n % 10)]
  }

  /** `Number.prototype.toString()` for an integer value. */
  function IntToString(n: int): string {
    if n < 0 then "-" + NatToString(-n) else NatToString(n)
  }

  /** The two-digit zero-padded form `n.toString().padStart(2, '0')`. */
  function Pad2(n: int): string {
    PadStart(IntToString(n), 2, '0')
  }

  lemma Pad2Digits(n: int)
    requires 0 <= n < 100
    ensures Pad2(n) == [DigitChar(n / 10), DigitChar(n % 10)]
  {
    if n >= 10 {
      assert NatToString(n / 10) == [DigitChar(n / 10)];
    }
  }

  /** Different days (or months) get different two-digit strings. */
  lemma Pad2Injective(a: int, b: int)
    requires 0 <= a < 100 && 0 <= b < 100 && a != b
    ensures Pad2(a) != Pad2(b)
  {
    Pad2Digits(a);
    Pad2Digits(b);
    assert a == 10 * (a / 10) + a % 10 && b == 10 * (b / 10) + b % 10;
    if a / 10 != b / 10 {
      DigitCharInjective(a / 10, b / 10);
      assert Pad2(a)[0] != Pad2(b)[0];
    } else {
      DigitCharInjective(a % 10, b % 10);
      assert Pad2(a)[1] != Pad2(b)[1];
    }
  }

  lemma DigitCharInjective(a: nat, b: nat)
    requires a < 10 && b < 10 && a != b
    ensures DigitChar(a) != DigitChar(b)
  {
  }

  /** The value of a character as a digit in the given base (10 or 16), if it is one. */
  function DigitValue(c: char, hex: bool): Option<nat> {
    if '0' <= c <= '9' then Some(c as int - '0' as int)
    else if hex && 'a' <= c <= 'f' then Some(c as int - 'a' as int + 10)
    else if hex && 'A' <= c <= 'F' then Some(c as int - 'A' as int + 10)
    else None
  }

  /** Length of the longest prefix of `s` made of digits of the base. */
  function DigitRun(s: string, hex: bool): (k: nat)
    ensures k <= |s|
    ensures forall i :: 0 <= i < k ==> DigitValue(s[i], hex).Some?
    ensures k < |s| ==> DigitValue(s[k], hex).None?
  {
    if s != [] && DigitValue(s[0], hex).Some? then 1 + DigitRun(s[1..], hex) else 0
  }

  /** The number a run of digits denotes, most significant digit first. */
  function DigitsValue(s: string, hex: bool): nat
    requires forall i :: 0 <= i < |s| ==> DigitValue(s[i], hex).Some?
  {
    if s == [] then 0
    else DigitsValue(s[..|s| - 1], hex) * (if hex then 16 else 10) + DigitValue(s[|s| - 1], hex).value
  }

  /** `parseInt(s, 10)` when `autoRadix` is false and `parseInt(s)` when it is true
      (a "0x"/"0X" prefix then selects base 16): leading white space is skipped, one
      sign is read, and the longest run of digits that follows is the value. `None`
      is `NaN`. A result of negative zero is the integer 0 here. */
  function ParseInt(s: string, autoRadix: bool): Option<int> {
    var t := TrimStart(s);
    var negative := t != [] && t[0] == '-';
    var u := if t != [] && (t[0] == '-' || t[0] == '+') then t[1..] else t;
    match ParseUnsigned(u, autoRadix)
    case None => None
    case Some(m) => Some(if negative then -(m as int) else m)
  }

  predicate HasHexPrefix(u: string) {
    |u| >= 2 && u[0] == '0' && (u[1] == 'x' || u[1] == 'X')
  }

  function ParseUnsigned(u: string, autoRadix: bool): Option<nat> {
    if autoRadix && HasHexPrefix(u) then LeadingDigits(u[2..], true) else LeadingDigits(u, false)
  }

  /** The value of the longest run of digits at the start of `v`; `None` if there is none. */
  function LeadingDigits(v: string, hex: bool): Option<nat> {
    var k := DigitRun(v, hex);
    if k == 0 then None else Some(DigitsValue(v[..k], hex))
  }

  lemma {:induction false} DigitsOfNatToString(n: nat)
    ensures forall i :: 0 <= i < |NatToString(n)| ==> DigitValue(NatToString(n)[i], false).Some?
    ensures DigitsValue(NatToString(n), false) == n
  {
    var s := NatToString(n);
    if n >= 10 {
      DigitsOfNatToString(n / 10);
      assert s[..|s| - 1] == NatToString(n / 10);
    }
  }

  lemma {:induction false} DigitRunAll(s: string, hex: bool)
    requires forall i :: 0 <= i < |s| ==> DigitValue(s[i], hex).Some?
    ensures DigitRun(s, hex) == |s|
  {
    if s != [] {
      DigitRunAll(s[1..], hex);
    }
  }

  lemma LeadingDigitsAll(s: string, hex: bool)
    requires s != [] && forall i :: 0 <= i < |s| ==> DigitValue(s[i], hex).Some?
    ensures LeadingDigits(s, hex) == Some(DigitsValue(s, hex))
  {
    DigitRunAll(s, hex);
    assert s[..|s|] == s;
  }

  lemma TrimStartNoSpace(s: string)
    requires s == [] || !IsSpace(s[0])
    ensures TrimStart(s) == s
  {
  }

  lemma ParseUnsignedDigits(d: string, autoRadix: bool)
    requires d != [] && forall i :: 0 <= i < |d| ==> DigitValue(d[i], false).Some?
    ensures ParseUnsigned(d, autoRadix) == Some(DigitsValue(d, false))
  {
    LeadingDigitsAll(d, false);
    assert !HasHexPrefix(d) by {
      if |d| >= 2 { assert DigitValue(d[1], false).Some?; }
    }
  }

  lemma ParseIntPlain(d: string, autoRadix: bool)
    requires d != [] && '0' <= d[0] <= '9' && ParseUnsigned(d, autoRadix).Some?
    ensures ParseInt(d, autoRadix) == Some(ParseUnsigned(d, autoRadix).value as int)
  {
    assert TrimStart(d) == d && d[0] != '-' && d[0] != '+' by {
      DigitNotSpace(d[0]);
      TrimStartNoSpace(d);
    }
  }

  lemma ParseIntMinus(d: string, autoRadix: bool)
    requires ParseUnsigned(d, autoRadix).Some?
    ensures ParseInt("-" + d, autoRadix) == Some(-(ParseUnsigned(d, autoRadix).value as int))
  {
    var s := "-" + d;
    assert s[0] == '-' && s[1..] == d;
    assert TrimStart(s) == s by {
      TrimStartNoSpace(s);
    }
    ParseIntNegative(s, autoRadix);
  }

  /** A trimmed text that starts with a minus sign parses to the negated value of what follows it. */
  lemma ParseIntNegative(s: string, autoRadix: bool)
    requires TrimStart(s) == s && s != [] && s[0] == '-' && ParseUnsigned(s[1..], autoRadix).Some?
    ensures ParseInt(s, autoRadix) == Some(-(ParseUnsigned(s[1..], autoRadix).value as int))
  {
  }

  lemma TrimEndNoSpace(s: string)
    requires s == [] || !IsSpace(s[|s| - 1])
    ensures TrimEnd(s) == s
  {
  }

  /** A string with no white space at either end is its own trim. */
  lemma TrimNoSpaceEnds(s: string)
    requires s != [] && !IsSpace(s[0]) && !IsSpace(s[|s| - 1])
    ensures Trim(s) == s
  {
    TrimStartNoSpace(s);
    TrimEndNoSpace(s);
  }

  /** `parseInt` reads back what integer `toString` writes, in either mode. */
  lemma ParseIntToString(n: int, autoRadix: bool)
    ensures ParseInt(IntToString(n), autoRadix) == Some(n)
  {
    var m: nat := if n < 0 then -n else n;
    var d := NatToString(m);
    DigitsOfNatToString(m);
    ParseUnsignedDigits(d, autoRadix);
    if n < 0 {
      assert IntToString(n) == "-" + d;
      ParseIntMinus(d, autoRadix);
    } else {
      ParseIntPlain(d, autoRadix);
    }
  }

  /** `parseInt` stops at the first character after an integer's digits that is not a
      digit, so text following the number does not change what is read. */
  lemma ParseIntToStringFollowed(n: int, rest: string)
    requires rest == [] || DigitValue(rest[0], false).None?
    ensures ParseInt(IntToString(n) + rest, false) == Some(n)
  {
    var m: nat := if n < 0 then -n else n;
    var d := NatToString(m);
    DigitsOfNatToString(m);
    ParseUnsignedFollowed(d, rest);
    if n < 0 {
      assert IntToString(n) + rest == "-" + (d + rest);
      ParseIntMinus(d + rest, false);
    } else {
      ParseIntPlain(d + rest, false);
    }
  }

  /** Decimal digits followed by a non-digit read as the digits alone. */
  lemma ParseUnsignedFollowed(d: string, rest: string)
    requires d != [] && forall i :: 0 <= i < |d| ==> DigitValue(d[i], false).Some?
    requires rest == [] || DigitValue(rest[0], false).None?
    ensures ParseUnsigned(d + rest, false) == Some(DigitsValue(d, false))
  {
    DigitRunFollowed(d, rest, false);
    assert (d + rest)[..|d|] == d;
  }

  /** The digit run of digits followed by a non-digit is exactly those digits. */
  lemma {:induction false} DigitRunFollowed(d: string, rest: string, hex: bool)
    requires forall i :: 0 <= i < |d| ==> DigitValue(d[i], hex).Some?
    requires rest == [] || DigitValue(rest[0], hex).None?
    ensures DigitRun(d + rest, hex) == |d|
  {
    if d == [] {
      assert d + rest == rest;
    } else {
      DigitRunFollowed(d[1..], rest, hex);
      assert (d + rest)[1..] == d[1..] + rest;
    }
  }

  lemma DigitNotSpace(c: char)
    requires '0' <= c <= '9'
    ensures !IsSpace(c) && c != '-' && c != '+'
  {
  }

  /** `parseInt` reads a two-digit zero-padded number back, in either mode. */
  lemma ParseIntPad2(n: int, autoRadix: bool)
    requires 0 <= n < 100
    ensures ParseInt(Pad2(n), autoRadix) == Some(n)
  {
    if n >= 10 {
      ParseIntPad2TwoDigits(n, autoRadix);
    } else {
      ParseIntPad2OneDigit(n, autoRadix);
    }
  }

  lemma ParseIntPad2TwoDigits(n: int, autoRadix: bool)
    requires 10 <= n < 100
    ensures ParseInt(Pad2(n), autoRadix) == Some(n)
  {
    assert |NatToString(n)| >= 2 by {
      assert NatToString(n) == NatToString(n / 10) + [DigitChar(n % 10)];
    }
    assert Pad2(n) == IntToString(n);
    ParseIntToString(n, autoRadix);
  }

  lemma ParseIntPad2OneDigit(n: int, autoRadix: bool)
    requires 0 <= n < 10
    ensures ParseInt(Pad2(n), autoRadix) == Some(n)
  {
    var s := Pad2(n);
    assert s == ['0', DigitChar(n)];
    DigitCharFacts(n);
    var zero := ['0'];
    assert s[..1] == zero && zero[..0] == [];
    assert DigitsValue(zero, false) == 0;
    assert DigitsValue(s, false) == DigitsValue(zero, false) * 10 + n;
    assert forall i :: 0 <= i < |s| ==> DigitValue(s[i], false).Some?;
    ParseUnsignedDigits(s, autoRadix);
    ParseIntPlain(s, autoRadix);
  }

  lemma DigitCharFacts(d: nat)
    requires d < 10
    ensures !IsSpace(DigitChar(d)) && DigitChar(d) != '-' && DigitChar(d) != '+'
    ensures DigitChar(d) != 'x' && DigitChar(d) != 'X'
    ensures DigitValue(DigitChar(d), false) == Some(d) && DigitValue(DigitChar(d), true) == Some(d)
  {
  }

  /** `s.charCodeAt(0)`: the first UTF-16 code unit, `None` (NaN) for "". A character
      outside the Basic Multilingual Plane contributes its high surrogate. */
  function CharCodeAt0(s: string): Option<int> {
    if s == [] then None
    else
      var n := s[0] as int;
      Some(if n < 0x10000 then n else 0xD800 + (n - 0x10000) / 0x400)
  }
}
