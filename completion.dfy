/** Field completion: how the fragments found by the grammar, the caller's
    keyword defaults and the current moment become the six arguments of
    `datetime(year, month, day, hour, min, sec)`. */
module FieldCompletion {
  import opened Wrappers
  import opened Text
  import opened Calendar
  import opened Errors
  import opened Grammar

  /** The named results of a parse: for each kind, the fragment pyparsing
      returns under its results name. */
  datatype Tokens = Tokens(timespec: Option<TimeSpec>, datespec: Option<DateSpec>, tzspec: Option<Zone>)

  /** A value in the completion dictionary: an integer, or the empty string
      pyparsing returns for a results name that was not matched. */
  datatype Attr = Int(n: int) | Blank

  /** `ls[k]` is a time piece and no later piece is one. */
  predicate LastTime(ls: seq<Lexeme>, k: int) {
    0 <= k < |ls| && ls[k].piece.Time? && forall m :: k < m < |ls| ==> !ls[m].piece.Time?
  }

  predicate LastDate(ls: seq<Lexeme>, k: int) {
    0 <= k < |ls| && ls[k].piece.Date? && forall m :: k < m < |ls| ==> !ls[m].piece.Date?
  }

  predicate LastTz(ls: seq<Lexeme>, k: int) {
    0 <= k < |ls| && ls[k].piece.Tz? && forall m :: k < m < |ls| ==> !ls[m].piece.Tz?
  }

  /** Stores one piece under its results name, replacing an earlier one. */
  function Record(t: Tokens, p: Piece): Tokens {
    match p
    case Time(ts) => t.(timespec := Some(ts))
    case Date(d) => t.(datespec := Some(d))
    case Tz(z) => t.(tzspec := Some(z))
    case Noise => t
  }

  /** The named results of a tokenization: each piece is stored under its
      results name, so of several fragments of one kind the last one stays. */
  function Collect(ls: seq<Lexeme>): (t: Tokens)
    ensures (forall k :: 0 <= k < |ls| ==> ls[k].piece == Noise) ==> t == Tokens(None, None, None)
    decreases |ls|
  {
    if ls == [] then Tokens(None, None, None)
    else Record(Collect(ls[..|ls| - 1]), ls[|ls| - 1].piece)
  }

  /** The time fragment collected is the last time piece, and there is none
      exactly when no piece is a time. */
  lemma {:induction false} CollectLastTime(ls: seq<Lexeme>)
    ensures Collect(ls).timespec.None? <==> forall k :: 0 <= k < |ls| ==> !ls[k].piece.Time?
    ensures Collect(ls).timespec.Some? ==>
      exists k :: LastTime(ls, k) && ls[k].piece.time == Collect(ls).timespec.value
  {
    if ls != [] {
      var n := |ls| - 1;
      CollectLastTime(ls[..n]);
      assert forall k :: 0 <= k < n ==> ls[..n][k] == ls[k];
      if !ls[n].piece.Time? && Collect(ls).timespec.Some? {
        var k :| LastTime(ls[..n], k) && ls[..n][k].piece.time == Collect(ls).timespec.value;
        assert LastTime(ls, k);
      }
      if ls[n].piece.Time? {
        assert LastTime(ls, n);
      }
    }
  }

  /** The date fragment collected is the last date piece, and there is none
      exactly when no piece is a date. */
  lemma {:induction false} CollectLastDate(ls: seq<Lexeme>)
    ensures Collect(ls).datespec.None? <==> forall k :: 0 <= k < |ls| ==> !ls[k].piece.Date?
    ensures Collect(ls).datespec.Some? ==>
      exists k :: LastDate(ls, k) && ls[k].piece.date == Collect(ls).datespec.value
  {
    if ls != [] {
      var n := |ls| - 1;
      CollectLastDate(ls[..n]);
      assert forall k :: 0 <= k < n ==> ls[..n][k] == ls[k];
      if !ls[n].piece.Date? && Collect(ls).datespec.Some? {
        var k :| LastDate(ls[..n], k) && ls[..n][k].piece.date == Collect(ls).datespec.value;
        assert LastDate(ls, k);
      }
      if ls[n].piece.Date? {
        assert LastDate(ls, n);
      }
    }
  }

  /** The timezone collected is the last timezone piece, and there is none
      exactly when no piece is a timezone. */
  lemma {:induction false} CollectLastTz(ls: seq<Lexeme>)
    ensures Collect(ls).tzspec.None? <==> forall k :: 0 <= k < |ls| ==> !ls[k].piece.Tz?
    ensures Collect(ls).tzspec.Some? ==>
      exists k :: LastTz(ls, k) && ls[k].piece.zone == Collect(ls).tzspec.value
  {
    if ls != [] {
      var n := |ls| - 1;
      CollectLastTz(ls[..n]);
      assert forall k :: 0 <= k < n ==> ls[..n][k] == ls[k];
      if !ls[n].piece.Tz? && Collect(ls).tzspec.Some? {
        var k :| LastTz(ls[..n], k) && ls[..n][k].piece.zone == Collect(ls).tzspec.value;
        assert LastTz(ls, k);
      }
      if ls[n].piece.Tz? {
        assert LastTz(ls, n);
      }
    }
  }

  /** The two-digit year correction: a year below 1000 gets 2000 added. */
  function CorrectYear(y: nat): (r: nat)
    ensures r >= 1000
    ensures y < 1000 ==> 2000 <= r < 3000 && r % 1000 == y
    ensures y >= 1000 ==> r == y
  {
    if y < 1000 then y + 2000 else y
  }

  /** The hour after the pm adjustment: `(hour + 12) % 24` for pm and an hour
      below 13; the captured hour in every other case. */
  function AdjustHour(hour: nat, ampm: Option<AmPm>): (r: nat)
    ensures ampm == Some(Pm) && 1 <= hour <= 11 ==> r == hour + 12
    ensures ampm == Some(Pm) && hour == 12 ==> r == 0
    ensures ampm == Some(Pm) && hour == 0 ==> r == 12
    ensures ampm != Some(Pm) || hour >= 13 ==> r == hour
    ensures hour < 24 ==> r < 24
  {
    if ampm == Some(Pm) && hour < 13 then (hour + 12) % 24 else hour
  }

  /** The captured value of a date field, `year` already corrected. */
  function Captured(d: DateSpec, key: Key): Option<nat>
    requires key.IsDateKey()
  {
    match key
    case Year => if d.year.Some? then Some(CorrectYear(d.year.value)) else None
    case Month => Some(d.month)
    case Day => Some(d.day)
  }

  function NowField(now: DateTime, key: Key): int
    requires key.IsDateKey()
  {
    match key
    case Year => now.year
    case Month => now.month
    case Day => now.day
  }

  /** One of year, month, day: the fragment's value when it is there and
      non-zero (Python truthiness), else the caller's keyword, else `now`. */
  function Resolve(d: DateSpec, key: Key, kwargs: map<Key, int>, now: DateTime): (r: int)
    requires key.IsDateKey()
    // a captured year is never falsy once corrected, so it always wins
    ensures key == Year && d.year.Some? ==> r == CorrectYear(d.year.value)
    ensures key == Month && d.month != 0 ==> r == d.month
    ensures key == Day && d.day != 0 ==> r == d.day
    // a missing or zero field: the keyword default, else the current moment
    ensures (key == Year && d.year.None?) || (key == Month && d.month == 0) || (key == Day && d.day == 0) ==>
      r == (if key in kwargs then kwargs[key] else NowField(now, key))
  {
    var captured := Captured(d, key);
    if captured.Some? && captured.value != 0 then captured.value
    else if key in kwargs then kwargs[key]
    else NowField(now, key)
  }

  /** What the completion branch of `parse_datetime` yields for the named
      results `t`: the datetime, or the exception that escapes. */
  function Completion(t: Tokens, kwargs: map<Key, int>, now: DateTime): (r: Result<DateTime, Failure>)
    ensures t.datespec.None? ==> r == Failure(MissingKey(Year))
    ensures t.datespec.Some? && t.timespec.None? ==> r == Failure(MissingKey(Hour))
    ensures t.datespec.Some? && t.timespec.Some? && t.timespec.value.MilTime? ==> r == Failure(HourNotInteger)
    ensures r.Success? ==> ValidDateTime(r.value)
    ensures r.Success? ==>
      var d := t.datespec.value;
      var c := t.timespec.value;
      var dt := r.value;
      c.Clock? &&
      // year: the corrected fragment year, else the keyword, else now
      (d.year.Some? ==> dt.year == CorrectYear(d.year.value)) &&
      (d.year.None? && Year in kwargs ==> dt.year == kwargs[Year]) &&
      (d.year.None? && Year !in kwargs ==> dt.year == now.year) &&
      // month and day: a non-zero fragment value, else the keyword, else now
      (d.month != 0 ==> dt.month == d.month) &&
      (d.month == 0 && Month in kwargs ==> dt.month == kwargs[Month]) &&
      (d.month == 0 && Month !in kwargs ==> dt.month == now.month) &&
      (d.day != 0 ==> dt.day == d.day) &&
      (d.day == 0 && Day in kwargs ==> dt.day == kwargs[Day]) &&
      (d.day == 0 && Day !in kwargs ==> dt.day == now.day) &&
      // time of day: adjusted hour, absent minutes and seconds read as zero
      dt.hour == AdjustHour(c.hour, c.ampm) &&
      dt.minute == c.minutes.GetOr(0) && dt.second == c.seconds.GetOr(0)
    ensures r.Failure? ==> r.error in {MissingKey(Year), MissingKey(Hour), HourNotInteger, OutOfRange}
    // with a date and a clock time, `datetime(...)` raises exactly when the
    // six values it is given are not a valid datetime
    ensures t.datespec.Some? && t.timespec.Some? && t.timespec.value.Clock? ==>
      var d := t.datespec.value;
      var c := t.timespec.value;
      var year := if d.year.Some? then CorrectYear(d.year.value) else if Year in kwargs then kwargs[Year] else now.year;
      var month := if d.month != 0 then d.month else if Month in kwargs then kwargs[Month] else now.month;
      var day := if d.day != 0 then d.day else if Day in kwargs then kwargs[Day] else now.day;
      var given := DateTime(year, month, day, AdjustHour(c.hour, c.ampm), c.minutes.GetOr(0), c.seconds.GetOr(0));
      (r.Success? <==> ValidDateTime(given)) && (r.Failure? ==> r.error == OutOfRange)
  {
    if t.datespec.None? then Failure(MissingKey(Year))
    else if t.timespec.None? then Failure(MissingKey(Hour))
    else if t.timespec.value.MilTime? then Failure(HourNotInteger)
    else
      var d := t.datespec.value;
      var c := t.timespec.value;
      var dt := DateTime(Resolve(d, Year, kwargs, now), Resolve(d, Month, kwargs, now), Resolve(d, Day, kwargs, now),
                         AdjustHour(c.hour, c.ampm), c.minutes.GetOr(0), c.seconds.GetOr(0));
      if ValidDateTime(dt) then Success(dt) else Failure(OutOfRange)
  }

  /** The completion dictionary once filled: the three date fields exactly
      when there is a date fragment, the three time fields exactly when there
      is a time fragment; the hour of a four-digit time stays blank. */
  predicate Filled(attrs: map<Key, Attr>, t: Tokens, kwargs: map<Key, int>, now: DateTime) {
    (forall k :: k in attrs <==> if k.IsDateKey() then t.datespec.Some? else t.timespec.Some?) &&
    (t.datespec.Some? ==>
       attrs[Year] == Int(Resolve(t.datespec.value, Year, kwargs, now)) &&
       attrs[Month] == Int(Resolve(t.datespec.value, Month, kwargs, now)) &&
       attrs[Day] == Int(Resolve(t.datespec.value, Day, kwargs, now))) &&
    (t.timespec.Some? ==>
       var c := t.timespec.value;
       attrs[Hour] == (if c.Clock? then Int(AdjustHour(c.hour, c.ampm)) else Blank) &&
       attrs[Min] == Int(if c.Clock? then c.minutes.GetOr(0) else 0) &&
       attrs[Sec] == Int(if c.Clock? then c.seconds.GetOr(0) else 0))
  }

  /** The `for k in ('year', 'month', 'day')` loop: corrects a two-digit
      year in the fragment, then gives each key the fragment's non-zero
      value, else the caller's keyword, else the field of `now`. */
  method FillDateFields(d: DateSpec, kwargs: map<Key, int>, now: DateTime) returns (attrs: map<Key, Attr>)
    ensures forall k :: k in attrs <==> k.IsDateKey()
    ensures Year in attrs && Month in attrs && Day in attrs
    ensures attrs[Year] == Int(Resolve(d, Year, kwargs, now))
    ensures attrs[Month] == Int(Resolve(d, Month, kwargs, now))
    ensures attrs[Day] == Int(Resolve(d, Day, kwargs, now))
  {
    attrs := map[];
    var date := d;
    if date.year.Some? && date.year.value < 1000 {
      // two-digit year
      date := date.(year := Some(date.year.value + 2000));
    }
    var keys := [Year, Month, Day];
    for i := 0 to |keys|
      invariant forall k :: k in attrs <==> k in keys[..i]
      invariant forall k :: 0 <= k < i ==> attrs[keys[k]] == Int(Resolve(d, keys[k], kwargs, now))
    {
      var k := keys[i];
      var captured: Option<nat> :=
        match k
        case Year => date.year
        case Month => Some(date.month)
        case Day => Some(date.day);
      assert captured == Captured(d, k);
      if captured.Some? && captured.value != 0 {
        attrs := attrs[k := Int(captured.value)];
      } else if k in kwargs {
        attrs := attrs[k := Int(kwargs[k])];
      } else {
        attrs := attrs[k := Int(NowField(now, k))];
      }
    }
    assert keys[..|keys|] == keys && keys[0] == Year && keys[1] == Month && keys[2] == Day;
  }

  /** Fills the completion dictionary as the source does: the date fields
      when there is a date fragment, then the hour (pm-adjusted), minutes
      and seconds when there is a time fragment. */
  method FillAttrs(t: Tokens, kwargs: map<Key, int>, now: DateTime) returns (attrs: map<Key, Attr>)
    ensures Filled(attrs, t, kwargs, now)
  {
    attrs := map[];
    if t.datespec.Some? {
      attrs := FillDateFields(t.datespec.value, kwargs, now);
    }
    ghost var dateAttrs := attrs;
    if t.timespec.Some? {
      var ts := t.timespec.value;
      var hour: Attr := if ts.Clock? then Int(ts.hour) else Blank;
      if ts.Clock? && ts.ampm.Some? {
        if ts.ampm.value == Pm && ts.hour < 13 {
          hour := Int((ts.hour + 12) % 24);
        }
      }
      assert hour == if ts.Clock? then Int(AdjustHour(ts.hour, ts.ampm)) else Blank;
      // absent (or zero) minutes and seconds become 0
      var minutes := if ts.Clock? && ts.minutes.Some? && ts.minutes.value != 0 then ts.minutes.value else 0;
      var seconds := if ts.Clock? && ts.seconds.Some? && ts.seconds.value != 0 then ts.seconds.value else 0;
      attrs := attrs[Hour := hour][Min := Int(minutes)][Sec := Int(seconds)];
    }
    assert forall k: Key :: k.IsDateKey() ==> (k in attrs <==> k in dateAttrs);
  }

  /** The completion branch as the source runs it: fill the dictionary, look
      its six entries up in order (a missing one raises KeyError), then build
      the datetime (a non-integer raises TypeError, a value out of range
      ValueError). */
  method Complete(t: Tokens, kwargs: map<Key, int>, now: DateTime) returns (r: Result<DateTime, Failure>)
    ensures r == Completion(t, kwargs, now)
  {
    var attrs := FillAttrs(t, kwargs, now);
    var names := [Year, Month, Day, Hour, Min, Sec];
    assert names[0] == Year && names[1] == Month && names[2] == Day;
    assert names[3] == Hour && names[4] == Min && names[5] == Sec;
    var args: seq<Attr> := [];
    for i := 0 to |names|
      invariant |args| == i
      invariant forall k :: 0 <= k < i ==> names[k] in attrs && args[k] == attrs[names[k]]
    {
      if names[i] !in attrs {
        assert t.datespec.Some? ==> Year in attrs && Month in attrs && Day in attrs;
        assert t.timespec.Some? ==> Hour in attrs && Min in attrs && Sec in attrs;
        assert i == 0 || i == 3;
        return Failure(MissingKey(names[i]));
      }
      args := args + [attrs[names[i]]];
    }
    if !(forall k :: 0 <= k < |args| ==> args[k].Int?) {
      return Failure(HourNotInteger);
    }
    var dt := DateTime(args[0].n, args[1].n, args[2].n, args[3].n, args[4].n, args[5].n);
    if ValidDateTime(dt) {
      r := Success(dt);
    } else {
      r := Failure(OutOfRange);
    }
  }

  /** A timezone piece, wherever it stands, changes neither the fragments
      collected for the date and the time nor the completed result. */
  lemma TimezoneIgnored(a: seq<Lexeme>, lx: Lexeme, b: seq<Lexeme>, kwargs: map<Key, int>, now: DateTime)
    requires lx.piece.Tz?
    ensures Collect(a + [lx] + b).timespec == Collect(a + b).timespec
    ensures Collect(a + [lx] + b).datespec == Collect(a + b).datespec
    ensures Completion(Collect(a + [lx] + b), kwargs, now) == Completion(Collect(a + b), kwargs, now)
  {
    CollectIgnoresTz(a, lx, b);
    CompletionReadsDateAndTime(Collect(a + [lx] + b), Collect(a + b), kwargs, now);
  }

  /** Inserting a timezone piece leaves the collected date and time alone. */
  lemma {:induction false} CollectIgnoresTz(a: seq<Lexeme>, lx: Lexeme, b: seq<Lexeme>)
    requires lx.piece.Tz?
    ensures Collect(a + [lx] + b).timespec == Collect(a + b).timespec
    ensures Collect(a + [lx] + b).datespec == Collect(a + b).datespec
    decreases |b|
  {
    if b == [] {
      assert a + [lx] + b == a + [lx] && (a + [lx])[..|a|] == a && a + b == a;
    } else {
      var n := |b| - 1;
      CollectIgnoresTz(a, lx, b[..n]);
      assert (a + [lx] + b)[..|a| + 1 + n] == a + [lx] + b[..n];
      assert (a + b)[..|a| + n] == a + b[..n];
      assert (a + [lx] + b)[|a| + 1 + n] == b[n] == (a + b)[|a| + n];
    }
  }

  /** The completion reads only the date and the time fragments. */
  lemma CompletionReadsDateAndTime(t: Tokens, u: Tokens, kwargs: map<Key, int>, now: DateTime)
    requires t.datespec == u.datespec && t.timespec == u.timespec
    ensures Completion(t, kwargs, now) == Completion(u, kwargs, now)
  {
  }
}
