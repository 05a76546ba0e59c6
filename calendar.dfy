/** The calendar value that `datetime(...)` builds, the range checks it
    applies, and its `isoformat()` rendering: the ISO 8601 complete extended
    representation YYYY-MM-DDTHH:MM:SS (section 4.3.2 of ISO 8601:2004). */
module Calendar {
  import opened Wrappers
  import opened Text

  /** A naive (timezone-free) date-time with whole seconds. */
  datatype DateTime = DateTime(year: int, month: int, day: int, hour: int, minute: int, second: int)

  /** The six fields, under the keys the completion dictionary `_dt_attrs`
      uses for them ('year', 'month', 'day', 'hour', 'min', 'sec'). */
  datatype Key = Year | Month | Day | Hour | Min | Sec {
    predicate IsDateKey() { this == Year || this == Month || this == Day }
  }

  /** Python's `datetime.MINYEAR` and `datetime.MAXYEAR`. */
  const MinYear := 1
  const MaxYear := 9999

  /** Proleptic Gregorian leap years. */
  predicate IsLeapYear(y: int) {
    y % 4 == 0 && (y % 100 != 0 || y % 400 == 0)
  }

  function DaysInMonth(y: int, m: int): (n: int)
    requires 1 <= m <= 12
    ensures 28 <= n <= 31
    ensures m == 2 ==> (n == 29 <==> IsLeapYear(y))
    ensures m != 2 ==> (n == 30 <==> m in {4, 6, 9, 11})
  {
    if m == 2 then (if IsLeapYear(y) then 29 else 28)
    else if m == 4 || m == 6 || m == 9 || m == 11 then 30
    else 31
  }

  /** The arguments `datetime(year, month, day, hour, minute, second)`
      accepts without raising ValueError. */
  predicate ValidDateTime(dt: DateTime) {
    MinYear <= dt.year <= MaxYear &&
    1 <= dt.month <= 12 &&
    1 <= dt.day <= DaysInMonth(dt.year, dt.month) &&
    0 <= dt.hour < 24 &&
    0 <= dt.minute < 60 &&
    0 <= dt.second < 60
  }

  /** February 29 passes `datetime(...)`'s checks exactly in leap years. */
  lemma LeapDayValid(y: int)
    ensures ValidDateTime(DateTime(y, 2, 29, 0, 0, 0)) <==> MinYear <= y <= MaxYear && IsLeapYear(y)
  {
  }

  /** `dt.isoformat()` for a value without microseconds or tzinfo:
      `%04d-%02d-%02dT%02d:%02d:%02d`. */
  function IsoFormat(dt: DateTime): (r: string)
    requires ValidDateTime(dt)
    ensures |r| == 19
    ensures r[4] == '-' && r[7] == '-' && r[10] == 'T' && r[13] == ':' && r[16] == ':'
  {
    Join(Decimal(dt.year, 4), Decimal(dt.month, 2), Decimal(dt.day, 2),
         Decimal(dt.hour, 2), Decimal(dt.minute, 2), Decimal(dt.second, 2))
  }

  /** The six fields with the extended-format separators between them. */
  function Join(y: string, mo: string, d: string, h: string, mi: string, s: string): string {
    y + "-" + mo + "-" + d + "T" + h + ":" + mi + ":" + s
  }

  /** A string of the extended shape is the join of its six fields. */
  lemma JoinFields(r: string)
    requires |r| == 19
    requires r[4] == '-' && r[7] == '-' && r[10] == 'T' && r[13] == ':' && r[16] == ':'
    ensures Join(r[0..4], r[5..7], r[8..10], r[11..13], r[14..16], r[17..19]) == r
  {
    var j := Join(r[0..4], r[5..7], r[8..10], r[11..13], r[14..16], r[17..19]);
    assert |j| == 19;
    forall k | 0 <= k < 19
      ensures j[k] == r[k]
    {
    }
  }

  /** Fixed-width digit fields of a 19-character extended representation. */
  predicate IsoShaped(r: string) {
    |r| == 19 &&
    r[4] == '-' && r[7] == '-' && r[10] == 'T' && r[13] == ':' && r[16] == ':' &&
    AllDigits(r[0..4]) && AllDigits(r[5..7]) && AllDigits(r[8..10]) &&
    AllDigits(r[11..13]) && AllDigits(r[14..16]) && AllDigits(r[17..19])
  }

  /** Reads the extended representation back; the reference inverse of
      IsoFormat. */
  function ParseIso(r: string): (o: Option<DateTime>)
    ensures o.Some? ==> ValidDateTime(o.value) && IsoShaped(r)
  {
    if !IsoShaped(r) then None
    else
      var dt := DateTime(DigitsValue(r[0..4]), DigitsValue(r[5..7]), DigitsValue(r[8..10]),
                         DigitsValue(r[11..13]), DigitsValue(r[14..16]), DigitsValue(r[17..19]));
      if ValidDateTime(dt) then Some(dt) else None
  }

  /** The rendering can be read back to the same instant. */
  lemma IsoRoundTrip(dt: DateTime)
    requires ValidDateTime(dt)
    ensures ParseIso(IsoFormat(dt)) == Some(dt)
  {
    var r := IsoFormat(dt);
    assert r[0..4] == Decimal(dt.year, 4);
    assert r[5..7] == Decimal(dt.month, 2);
    assert r[8..10] == Decimal(dt.day, 2);
    assert r[11..13] == Decimal(dt.hour, 2);
    assert r[14..16] == Decimal(dt.minute, 2);
    assert r[17..19] == Decimal(dt.second, 2);
    ValueOfDecimal(dt.year, 4);
    ValueOfDecimal(dt.month, 2);
    ValueOfDecimal(dt.day, 2);
    ValueOfDecimal(dt.hour, 2);
    ValueOfDecimal(dt.minute, 2);
    ValueOfDecimal(dt.second, 2);
  }

  /** Every string ParseIso accepts is exactly the rendering of what it read. */
  lemma IsoCanonical(r: string)
    requires ParseIso(r).Some?
    ensures IsoFormat(ParseIso(r).value) == r
  {
    DecimalOfValue(r[0..4]);
    DecimalOfValue(r[5..7]);
    DecimalOfValue(r[8..10]);
    DecimalOfValue(r[11..13]);
    DecimalOfValue(r[14..16]);
    DecimalOfValue(r[17..19]);
    JoinFields(r);
  }
}
