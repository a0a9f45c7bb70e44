/** The route's three cell normalisers: `normalizeString`, `normalizeNumber` and
    `normalizeDate` (app/api/vehicles/route.ts), over the cell values of `Cells`. */
module Normalize {
  import opened Wrappers
  import opened JsText
  import opened Calendar
  import opened Cells

  /** `value === null || value === undefined || value === ''`. */
  predicate IsBlank(v: Value) {
    v == Undefined || v == Null || v == Str("")
  }

  /** `normalizeString`: blank values become "", anything else its trimmed `String(v)`. */
  function NormalizeString(v: Value): (r: string)
    ensures Trim(r) == r
  {
    if IsBlank(v) then "" else
      TrimIdempotent(ToText(v));
      Trim(ToText(v))
  }

  /** A string cell normalises to its trimmed text. */
  lemma NormalizeStr(s: string)
    ensures NormalizeString(Str(s)) == Trim(s)
  {
    if s == "" {
      assert TrimStart(s) == "";
    } else {
      assert !IsBlank(Str(s)) && ToText(Str(s)) == s;
    }
  }

  /** A normalised string normalises to itself. */
  lemma NormalizeStringIdempotent(v: Value)
    ensures NormalizeString(Str(NormalizeString(v))) == NormalizeString(v)
  {
    NormalizeStr(NormalizeString(v));
  }

  /** A value normalises to "" exactly when it is `undefined`, `null` or a string made
      only of white space; numbers and booleans always leave text. */
  lemma NormalizeStringEmpty(v: Value)
    ensures NormalizeString(v) == "" <==> (v.Undefined? || v.Null? || (v.Str? && AllSpace(v.s)))
  {
    match v {
      case Undefined =>
      case Null =>
      case Str(s) =>
        NormalizeStr(s);
        TrimEmptyIffAllSpace(s);
      case Num(d) =>
        NumberNotBlank(d);
      case Bool(b) =>
        BoolNotBlank(b);
    }
  }

  lemma NumberNotBlank(d: Decimal)
    ensures NormalizeString(Num(d)) != ""
  {
    NormalizeVisible(Num(d));
    NumberTextStart(d);
    DigitOrMinusVisible(NumberText(d)[0]);
    TextNotBlank(NumberText(d));
  }

  lemma BoolNotBlank(b: bool)
    ensures NormalizeString(Bool(b)) != ""
  {
    NormalizeVisible(Bool(b));
    BoolTextVisible(b);
    TextNotBlank(ToText(Bool(b)));
  }

  lemma BoolTextVisible(b: bool)
    ensures ToText(Bool(b)) != [] && !IsSpace(ToText(Bool(b))[0])
  {
    var t := ToText(Bool(b));
    if b {
      assert t == "true" && t[0] == 't';
    } else {
      assert t == "false" && t[0] == 'f';
    }
  }

  /** A value that is not blank normalises to its trimmed text. */
  lemma NormalizeVisible(v: Value)
    requires !IsBlank(v)
    ensures NormalizeString(v) == Trim(ToText(v))
  {
  }

  lemma DigitOrMinusVisible(c: char)
    requires c == '-' || '0' <= c <= '9'
    ensures !IsSpace(c)
  {
  }

  /** A text that starts with something other than white space survives trimming. */
  lemma TextNotBlank(t: string)
    requires t != [] && !IsSpace(t[0])
    ensures Trim(t) != ""
  {
    TrimEmptyIffAllSpace(t);
  }

  /** `normalizeNumber`: blank values become 0, `NaN` becomes 0, anything else is
      `Number(v)`. */
  function NormalizeNumber(v: Value): (r: JsNumber)
    ensures !r.NaN?
    ensures IsBlank(v) ==> r == Finite(Sci(0, 0))
    ensures !IsBlank(v) && !ToNumber(v).NaN? ==> r == ToNumber(v)
  {
    if IsBlank(v) then Finite(Sci(0, 0))
    else
      var n := ToNumber(v);
      if n.NaN? then Finite(Sci(0, 0)) else n
  }

  const MsPerDay: int := 86400000
  /** The largest time value a `Date` can hold, in milliseconds either side of 1970. */
  const MaxTime: int := 8640000000000000
  /** The day number of 1970-01-01, the origin of time values. */
  const UnixEpochDay: int := 719162
  /** The day number of 1900-01-01, the origin of spreadsheet serial dates. */
  const ExcelEpochDay: int := 693595
  /** The time value of 1900-01-01T00:00:00Z. */
  const UtcExcelEpochMs: int := -2208988800000

  lemma EpochDays()
    ensures DayNumber(Date(1970, 0, 1)) == UnixEpochDay
    ensures DayNumber(Date(1900, 0, 1)) == ExcelEpochDay
    ensures UtcExcelEpochMs == (ExcelEpochDay - UnixEpochDay) * MsPerDay
  {
  }

  /** Integer division rounding toward zero, as `Date` does when it clips a time value. */
  function TruncDiv(n: int, p: nat): int
    requires p >= 1
  {
    if n >= 0 then n / p else -((-n) / p)
  }

  /** The day a serial date `v` falls on: `new Date(epochMs + (v - 2) * 86400000)`, read
      in UTC, where `epochMs` is the time value of local midnight on 1900-01-01 (it
      depends on the time zone). With `v = mant / 10^scale` the time value is
      `n / 10^scale`; `None` is the invalid date, whose `toISOString` throws. */
  function SerialDay(d: Decimal, epochMs: int): Option<int> {
    var p := Pow10(d.scale);
    var n := epochMs * p + (d.mant - 2 * p) * MsPerDay;
    if n > MaxTime * p || n < -MaxTime * p then None
    else Some(UnixEpochDay + TruncDiv(n, p) / MsPerDay)
  }

  /** `normalizeDate`, applied to the cell or its `''` default: strings pass through
      unchanged, numbers are serial dates printed as `YYYY-MM-DD` (UTC), anything else is
      "". `None` is the `RangeError` an out-of-range serial raises. */
  function NormalizeDate(v: Value, epochMs: int): (r: Option<string>)
    ensures r.None? <==> v.Num? && SerialDay(v.d, epochMs).None?
    ensures v.Str? ==> r == Some(v.s)
    ensures v.Num? && SerialDay(v.d, epochMs).Some? ==>
              r == Some(IsoDate(CivilFromDays(SerialDay(v.d, epochMs).value)))
    ensures (v.Undefined? || v.Null? || v.Bool?) ==> r == Some("")
  {
    match v
    case Undefined => Some("")
    case Null => Some("")
    case Str(s) => Some(s)
    case Num(d) =>
      (match SerialDay(d, epochMs)
       case None => None
       case Some(day) => Some(IsoDate(CivilFromDays(day))))
    case Bool(_) => Some("")
  }

  /** For a whole-number serial `n`, the day is serial day 1900-01-01 + (n - 2), moved by
      the whole days in the zone offset `off` (0 for UTC, a few hours for zones west of
      UTC, which keeps the same day). */
  lemma SerialDayOfWholeNumber(n: int, off: int)
    requires var t := (n - 2 - (UnixEpochDay - ExcelEpochDay)) * MsPerDay + off;
             -MaxTime <= t <= MaxTime
    ensures SerialDay(Decimal(n, 0), UtcExcelEpochMs + off) == Some(ExcelEpochDay + n - 2 + off / MsPerDay)
  {
    var t := (n - 2 - (UnixEpochDay - ExcelEpochDay)) * MsPerDay + off;
    assert (UtcExcelEpochMs + off) * 1 + (n - 2 * 1) * MsPerDay == t;
    assert TruncDiv(t, 1) == t;
    assert t / MsPerDay == n - 2 - (UnixEpochDay - ExcelEpochDay) + off / MsPerDay;
  }

  /** Consecutive whole-number serials are consecutive days, in every time zone. */
  lemma SerialDayNext(n: int, epochMs: int)
    requires SerialDay(Decimal(n, 0), epochMs).Some? && SerialDay(Decimal(n + 1, 0), epochMs).Some?
    ensures SerialDay(Decimal(n + 1, 0), epochMs).value == SerialDay(Decimal(n, 0), epochMs).value + 1
  {
    var t := epochMs + (n - 2) * MsPerDay;
    assert epochMs * 1 + (n - 2 * 1) * MsPerDay == t;
    assert epochMs * 1 + (n + 1 - 2 * 1) * MsPerDay == t + MsPerDay;
    assert TruncDiv(t, 1) == t && TruncDiv(t + MsPerDay, 1) == t + MsPerDay;
    assert (t + MsPerDay) / MsPerDay == t / MsPerDay + 1;
  }

  /** The date text of serial `n + 1` is the day after that of serial `n`. */
  lemma NormalizeDateNext(n: int, epochMs: int)
    requires SerialDay(Decimal(n, 0), epochMs).Some? && SerialDay(Decimal(n + 1, 0), epochMs).Some?
    ensures NormalizeDate(Num(Decimal(n + 1, 0)), epochMs) ==
            Some(IsoDate(NextDay(CivilFromDays(SerialDay(Decimal(n, 0), epochMs).value))))
  {
    var day := SerialDay(Decimal(n, 0), epochMs).value;
    SerialDayNext(n, epochMs);
    SuccessorDay(day);
    NormalizeSerial(Decimal(n + 1, 0), epochMs, day + 1);
  }

  lemma NormalizeSerial(d: Decimal, epochMs: int, day: int)
    requires SerialDay(d, epochMs) == Some(day)
    ensures NormalizeDate(Num(d), epochMs) == Some(IsoDate(CivilFromDays(day)))
  {
  }
}
