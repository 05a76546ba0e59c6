/** `parse_datetime`: the order in which it tries an explicit format, a
    pattern filter, the general-purpose external parser and the grammar
    fallback, and what it returns or raises. */
module Extraction {
  import opened Wrappers
  import opened Text
  import opened Calendar
  import opened Errors
  import opened Grammar
  import opened FieldCompletion

  /** What a successful call returns: the ISO 8601 text or the datetime. */
  datatype Value = IsoText(text: string) | Structured(dt: DateTime)

  datatype Outcome = Returned(value: Value) | ReturnedNone | Raised(failure: Failure)

  /** `dt.isoformat()` when `string is True`, the datetime itself otherwise;
      both stand for the same instant. */
  function Render(dt: DateTime, asString: bool): (v: Value)
    requires ValidDateTime(dt)
    ensures asString ==> v.IsoText? && |v.text| == 19 && ParseIso(v.text) == Some(dt)
    ensures !asString ==> v == Structured(dt)
  {
    if asString then
      IsoRoundTrip(dt);
      IsoText(IsoFormat(dt))
    else Structured(dt)
  }

  /** `s` occurs in `m` at position `k`. */
  predicate OccursAt(m: string, s: string, k: int) {
    0 <= k && k + |s| <= |m| && m[k..k + |s|] == s
  }

  /** The message of the `ParsingFailed` raised at the end; it quotes the input. */
  function FailureMessage(s: string): (m: string)
    ensures exists k :: OccursAt(m, s, k)
  {
    var prefix := "Could not extract datetime from attribute: '";
    var m := prefix + s + "'";
    assert OccursAt(m, s, |prefix|);
    m
  }

  /** The grammar fallback as one function of the input: `ParsingFailed`
      when the grammar rejects it, else whatever the completion yields. */
  function Fallback(s: string, kwargs: map<Key, int>, now: DateTime): (r: Result<DateTime, Failure>)
    ensures r.Success? ==> ValidDateTime(r.value)
    ensures Tokenize(s).None? <==> r == Failure(ParsingFailed(FailureMessage(s)))
  {
    match Tokenize(s)
    case None => Failure(ParsingFailed(FailureMessage(s)))
    case Some(ls) => Completion(Collect(ls), kwargs, now)
  }

  /** `parse_datetime(s, fmt, dt_re, string, **kwargs)`.

      The foreign calls are parameters: `strptime` is the outcome of
      `datetime.strptime(s, fmt)` (None when no format is given, Some(None)
      when it raises), `regexMatch` whether `re.search(dt_re, s)` found a
      match (None when no pattern is given), `external` the result of
      `dateutil.parser.parse(s)` (None when it raises ValueError), and `now`
      the moment `datetime.now()` reads. */
  method ParseDatetime(s: string, strptime: Option<Option<DateTime>>, regexMatch: Option<bool>,
                       external: Option<DateTime>, asString: bool,
                       kwargs: map<Key, int>, now: DateTime) returns (o: Outcome)
    requires strptime.Some? && strptime.value.Some? ==> ValidDateTime(strptime.value.value)
    requires external.Some? ==> ValidDateTime(external.value)
    // an explicit format decides alone, and its result is never rendered as text
    ensures strptime == Some(None) ==> o == Raised(FormatMismatch)
    ensures strptime.Some? && strptime.value.Some? ==> o == Returned(Structured(strptime.value.value))
    // a pattern that does not match gives None without raising
    ensures strptime.None? && regexMatch == Some(false) ==> o == ReturnedNone
    // otherwise the external parser, and the grammar only when it fails
    ensures strptime.None? && regexMatch != Some(false) && external.Some? ==>
      o == Returned(Render(external.value, asString))
    ensures strptime.None? && regexMatch != Some(false) && external.None? ==>
      o == match Fallback(s, kwargs, now)
           case Success(dt) => Returned(Render(dt, asString))
           case Failure(e) => Raised(e)
    ensures o.Raised? && o.failure.ParsingFailed? ==> Tokenize(s).None? && external.None?
  {
    if strptime.Some? {
      match strptime.value
      case Some(dt) => return Returned(Structured(dt));
      case None => return Raised(FormatMismatch);
    } else if regexMatch.Some? {
      if !regexMatch.value {
        return ReturnedNone;
      }
    }
    var dt: Option<DateTime> := external;
    if dt.None? {
      var tokens := Tokenize(s);
      // a grammar failure is only logged; dt stays None
      if tokens.Some? {
        var r := Complete(Collect(tokens.value), kwargs, now);
        if r.Failure? {
          // raised inside the except handler: nothing catches it
          return Raised(r.error);
        }
        dt := Some(r.value);
      }
    }
    if dt.None? {
      return Raised(ParsingFailed(FailureMessage(s)));
    }
    o := Returned(Render(dt.value, asString));
  }

  /** Input with no digit and no character the grammar rejects, such as a
      string of plain words, tokenizes into noise and timezones only, so the
      completion finds no date and the 'year' lookup raises KeyError: the
      fallback never returns the current moment for it, and it is not
      `ParsingFailed` that escapes. */
  lemma WordsOnlyMissYear(s: string, k: nat, kwargs: map<Key, int>, now: DateTime)
    requires forall m :: 0 <= m < |s| ==> IsWhite(s[m]) || (IsNoiseChar(s[m]) && !IsDigit(s[m]))
    requires k < |s| && !IsWhite(s[k])
    ensures Fallback(s, kwargs, now) == Failure(MissingKey(Year))
  {
    NoiseOnlyTokenizes(s, k);
    var ls := Tokenize(s).value;
    TokenizeCharacterized(s, ls);
    forall m | 0 <= m < |ls| ensures !ls[m].piece.Date? {
      if ls[m].piece.Date? {
        ChosenNumericStartsWithDigit(s, ls[m]);
      }
    }
    CollectLastDate(ls);
  }

  /** A character the grammar cannot consume, such as `-`, makes the
      fallback raise `ParsingFailed` quoting the input. */
  lemma StrayCharacterRaises(s: string, k: nat, kwargs: map<Key, int>, now: DateTime)
    requires k < |s| && !Consumable(s[k])
    ensures Fallback(s, kwargs, now) == Failure(ParsingFailed(FailureMessage(s)))
  {
    StrayCharacterFails(s, k);
  }
}
