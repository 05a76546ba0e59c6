/** The fallback grammar of the datetime extractor, as a hand-written
    scanner over the input string.

    Every element first skips whitespace, as pyparsing does by default.
    At each position four alternatives are tried: a time, a date, a
    timezone and a noise word; the one that ends furthest wins, ties going
    to the one listed first. The scan repeats until only whitespace is
    left; it fails when no alternative matches at some position, and when
    there was no piece at all. */
module Grammar {
  import opened Wrappers
  import opened Text

  datatype AmPm = Am | Pm

  datatype TimeSpec =
    /** The first four digits of a digit run, split into its first and last two. */
    | MilTime(hh: nat, mm: nat)
    /** `hour[:minutes][:seconds][am|pm]`. */
    | Clock(hour: nat, minutes: Option<nat>, seconds: Option<nat>, ampm: Option<AmPm>)

  /** `month ('/'|'.') day [('/'|'.') year]`. */
  datatype DateSpec = DateSpec(month: nat, day: nat, year: Option<nat>)

  datatype Zone = PDT | PST | EDT | CDT

  datatype Piece = Time(time: TimeSpec) | Date(date: DateSpec) | Tz(zone: Zone) | Noise

  /** A piece together with the span `[start, end)` of the input it covers. */
  datatype Lexeme = Lexeme(piece: Piece, start: nat, end: nat)

  /** Characters a noise word is made of: letters, digits and `:;,()`. */
  predicate IsNoiseChar(c: char) {
    IsLetter(c) || IsDigit(c) || c == ':' || c == ';' || c == ',' || c == '(' || c == ')'
  }

  /** Characters some alternative can consume: whitespace, noise characters
      and the two date separators. */
  predicate Consumable(c: char) {
    IsWhite(c) || IsNoiseChar(c) || c == '/' || c == '.'
  }

  predicate ConsumableSpan(s: string, a: nat, b: nat)
    requires a <= b <= |s|
  {
    forall k :: a <= k < b ==> Consumable(s[k])
  }

  /** Only whitespace and noise characters: what every piece but a date is
      made of (no `/` and no `.`). */
  predicate PlainSpan(s: string, a: nat, b: nat)
    requires a <= b <= |s|
  {
    forall k :: a <= k < b ==> IsWhite(s[k]) || IsNoiseChar(s[k])
  }

  function SkipWhite(s: string, i: nat): (j: nat)
    requires i <= |s|
    ensures i <= j <= |s|
    ensures forall k :: i <= k < j ==> IsWhite(s[k])
    ensures j == |s| || !IsWhite(s[j])
    decreases |s| - i
  {
    if i < |s| && IsWhite(s[i]) then SkipWhite(s, i + 1) else i
  }

  /** End of the longest run of digits starting at `i`. */
  function DigitsEnd(s: string, i: nat): (j: nat)
    requires i <= |s|
    ensures i <= j <= |s|
    ensures AllDigits(s[i..j])
    ensures j == |s| || !IsDigit(s[j])
    decreases |s| - i
  {
    if i < |s| && IsDigit(s[i]) then DigitsEnd(s, i + 1) else i
  }

  /** End of the longest run of noise characters starting at `i`. */
  function NoiseEnd(s: string, i: nat): (j: nat)
    requires i <= |s|
    ensures i <= j <= |s|
    ensures forall k :: i <= k < j ==> IsNoiseChar(s[k])
    ensures j == |s| || !IsNoiseChar(s[j])
    decreases |s| - i
  {
    if i < |s| && IsNoiseChar(s[i]) then NoiseEnd(s, i + 1) else i
  }

  datatype Num = Num(value: nat, end: nat)

  /** `Word(nums)` with its `int` parse action: a maximal digit run after
      whitespace. */
  function Integer(s: string, i: nat): (r: Option<Num>)
    requires i <= |s|
    ensures r.Some? <==> SkipWhite(s, i) < |s| && IsDigit(s[SkipWhite(s, i)])
    ensures r.Some? ==>
      var j := SkipWhite(s, i);
      j < r.value.end <= |s| && r.value.end == DigitsEnd(s, j) &&
      r.value.value == DigitsValue(s[j..r.value.end]) && ConsumableSpan(s, i, r.value.end) &&
      PlainSpan(s, i, r.value.end)
  {
    var j := SkipWhite(s, i);
    if j < |s| && IsDigit(s[j]) then
      var e := DigitsEnd(s, j);
      Some(Num(DigitsValue(s[j..e]), e))
    else None
  }

  /** A suppressed one-character literal after whitespace; `cs` lists the
      characters accepted (`':'` for COLON, `"/."` for `SLASH | DOT`). */
  function Punct(s: string, i: nat, cs: string): (r: Option<nat>)
    requires i <= |s|
    ensures r.Some? <==> SkipWhite(s, i) < |s| && s[SkipWhite(s, i)] in cs
    ensures r.Some? ==> r.value == SkipWhite(s, i) + 1
  {
    var j := SkipWhite(s, i);
    if j < |s| && s[j] in cs then Some(j + 1) else None
  }

  /** `Optional(COLON + integer)`: the number and where the match ends. The
      `Optional` skips whitespace before trying its contents, so a failed
      attempt still ends after that whitespace. */
  function ColonInteger(s: string, i: nat): (r: (Option<nat>, nat))
    requires i <= |s|
    ensures i <= r.1 <= |s| && ConsumableSpan(s, i, r.1) && PlainSpan(s, i, r.1)
    ensures r.0.None? ==> r.1 == SkipWhite(s, i)
    ensures r.0.Some? <==>
      var j := SkipWhite(s, i);
      j < |s| && s[j] == ':' && SkipWhite(s, j + 1) < |s| && IsDigit(s[SkipWhite(s, j + 1)])
    ensures r.0.Some? ==>
      var k := SkipWhite(s, SkipWhite(s, i) + 1);
      k < r.1 == DigitsEnd(s, k) && r.0.value == DigitsValue(s[k..r.1])
  {
    match Punct(s, i, ":")
    case None => (None, SkipWhite(s, i))
    case Some(p) =>
      match Integer(s, p)
      case None => (None, SkipWhite(s, i))
      case Some(n) => (Some(n.value), n.end)
  }

  /** `Optional(CaselessLiteral("am") | CaselessLiteral("pm"))`; a failed
      attempt ends after the whitespace the `Optional` skipped. */
  function AmPmSuffix(s: string, i: nat): (r: (Option<AmPm>, nat))
    requires i <= |s|
    ensures i <= r.1 <= |s| && ConsumableSpan(s, i, r.1)
    ensures r.0.None? ==> r.1 == SkipWhite(s, i)
    ensures PlainSpan(s, i, r.1)
    ensures r.0.Some? <==>
      var j := SkipWhite(s, i);
      j + 2 <= |s| && (LowerChar(s[j]) == 'a' || LowerChar(s[j]) == 'p') && LowerChar(s[j + 1]) == 'm'
    ensures r.0.Some? ==>
      var j := SkipWhite(s, i);
      r.1 == j + 2 && LowerChar(s[j + 1]) == 'm' &&
      LowerChar(s[j]) == (if r.0.value == Am then 'a' else 'p')
  {
    var j := SkipWhite(s, i);
    if j + 2 <= |s| && LowerChar(s[j]) == 'a' && LowerChar(s[j + 1]) == 'm' then (Some(Am), j + 2)
    else if j + 2 <= |s| && LowerChar(s[j]) == 'p' && LowerChar(s[j + 1]) == 'm' then (Some(Pm), j + 2)
    else (None, j)
  }

  /** `Word(nums, exact=4)`: the first four digits after whitespace, whatever
      follows them (a fifth digit is left for the next element), split into
      two two-digit numbers. */
  function MilitaryTime(s: string, i: nat): (r: Option<Lexeme>)
    requires i <= |s|
    ensures r.Some? <==>
      var j := SkipWhite(s, i);
      j + 4 <= |s| && AllDigits(s[j..j + 4])
    ensures r.Some? ==>
      var j := SkipWhite(s, i);
      r.value.start == j && r.value.end == j + 4 &&
      r.value.piece == Time(SplitFour(s, j)) &&
      ConsumableSpan(s, i, j + 4) && PlainSpan(s, i, j + 4)
  {
    var j := SkipWhite(s, i);
    if j + 4 <= |s| && AllDigits(s[j..j + 4]) then
      FourDigits(s, j);
      SpanJoin(s, i, j, j + 4);
      Some(Lexeme(Time(SplitFour(s, j)), j, j + 4))
    else None
  }

  /** The parse action of the four-digit form: `int` of the first two and of
      the last two digits. */
  function SplitFour(s: string, j: nat): (t: TimeSpec)
    requires j + 4 <= |s| && AllDigits(s[j..j + 4])
    ensures t.MilTime? && t.hh < 100 && t.mm < 100
  {
    FourDigits(s, j);
    TwoDigitsBound(s[j..j + 2]);
    TwoDigitsBound(s[j + 2..j + 4]);
    MilTime(DigitsValue(s[j..j + 2]), DigitsValue(s[j + 2..j + 4]))
  }

  lemma TwoDigitsBound(ds: string)
    requires |ds| == 2 && AllDigits(ds)
    ensures DigitsValue(ds) < 100
  {
    var head := ds[..1];
    assert head[..0] == [] && head[0] == ds[0];
    assert DigitsValue(head) == DigitValue(ds[0]);
    assert DigitsValue(ds) == 10 * DigitsValue(head) + DigitValue(ds[1]);
  }

  /** Both halves of a four-digit run are digit strings, and the run is
      consumable. */
  lemma FourDigits(s: string, j: nat)
    requires j + 4 <= |s| && AllDigits(s[j..j + 4])
    ensures AllDigits(s[j..j + 2]) && AllDigits(s[j + 2..j + 4])
    ensures ConsumableSpan(s, j, j + 4) && PlainSpan(s, j, j + 4)
  {
    forall k | j <= k < j + 4 ensures IsDigit(s[k]) {
      assert s[j..j + 4][k - j] == s[k];
    }
  }

  /** `integer("hour") + Optional(COLON + integer("minutes"))
      + Optional(COLON + integer("seconds")) + Optional((am | pm)("ampm"))`.
      Without a marker the match ends after the whitespace that follows. */
  function ClockTime(s: string, i: nat): (r: Option<Lexeme>)
    requires i <= |s|
    ensures r.Some? <==> Integer(s, i).Some?
    ensures r.Some? ==>
      r.value.piece.Time? && r.value.piece.time.Clock? &&
      r.value.start == SkipWhite(s, i) &&
      r.value.piece.time.hour == Integer(s, i).value.value &&
      Integer(s, i).value.end <= r.value.end <= |s| && ConsumableSpan(s, i, r.value.end) &&
      PlainSpan(s, i, r.value.end)
    ensures r.Some? ==>
      var minutes := ColonInteger(s, Integer(s, i).value.end);
      var seconds := ColonInteger(s, minutes.1);
      var ampm := AmPmSuffix(s, seconds.1);
      r.value.piece.time.minutes == minutes.0 && r.value.piece.time.seconds == seconds.0 &&
      r.value.piece.time.ampm == ampm.0 && r.value.end == ampm.1
  {
    match Integer(s, i)
    case None => None
    case Some(h) =>
      var (minutes, e1) := ColonInteger(s, h.end);
      var (seconds, e2) := ColonInteger(s, e1);
      var (ampm, e3) := AmPmSuffix(s, e2);
      Some(Lexeme(Time(Clock(h.value, minutes, seconds, ampm)), SkipWhite(s, i), e3))
  }

  /** The time alternative: the four-digit form if it matches, the clock form
      otherwise (pyparsing's first-match `|`, not the longest-match `^`). */
  function TimeAlt(s: string, i: nat): (r: Option<Lexeme>)
    requires i <= |s|
    ensures r.Some? <==> Integer(s, i).Some?
    ensures r.Some? ==> r.value.piece.Time?
    ensures r.Some? && r.value.piece.time.MilTime? <==> MilitaryTime(s, i).Some?
    ensures MilitaryTime(s, i).Some? ==> r == MilitaryTime(s, i)
    ensures MilitaryTime(s, i).None? ==> r == ClockTime(s, i)
  {
    if MilitaryTime(s, i).Some? then MilitaryTime(s, i) else ClockTime(s, i)
  }

  /** `integer("month") + (SLASH | DOT) + integer("day")
      + Optional((SLASH | DOT) + integer("year"))`. Without a year the match
      ends after the whitespace the failed `Optional` skipped. */
  function DateAlt(s: string, i: nat): (r: Option<Lexeme>)
    requires i <= |s|
    ensures r.Some? <==>
      Integer(s, i).Some? && Punct(s, Integer(s, i).value.end, "/.").Some? &&
      Integer(s, Punct(s, Integer(s, i).value.end, "/.").value).Some?
    ensures r.Some? ==>
      r.value.piece.Date? && r.value.start == SkipWhite(s, i) &&
      r.value.start < r.value.end <= |s| && ConsumableSpan(s, i, r.value.end)
    ensures r.Some? ==>
      var month := Integer(s, i).value;
      var day := Integer(s, Punct(s, month.end, "/.").value).value;
      var sep := Punct(s, day.end, "/.");
      var year := if sep.Some? then Integer(s, sep.value) else None;
      r.value.piece.date == DateSpec(month.value, day.value, if year.Some? then Some(year.value.value) else None) &&
      r.value.end == (if year.Some? then year.value.end else SkipWhite(s, day.end))
  {
    match Integer(s, i)
    case None => None
    case Some(m) =>
      match Punct(s, m.end, "/.")
      case None => None
      case Some(p) =>
        match Integer(s, p)
        case None => None
        case Some(d) =>
          SeparatorSpan(s, m.end);
          SpanJoin(s, i, m.end, p);
          SpanJoin(s, i, p, d.end);
          var noYear := Lexeme(Date(DateSpec(m.value, d.value, None)), SkipWhite(s, i), SkipWhite(s, d.end));
          match Punct(s, d.end, "/.")
          case None => Some(noYear)
          case Some(q) =>
            match Integer(s, q)
            case None => Some(noYear)
            case Some(y) =>
              SeparatorSpan(s, d.end);
              SpanJoin(s, i, d.end, q);
              SpanJoin(s, i, q, y.end);
              Some(Lexeme(Date(DateSpec(m.value, d.value, Some(y.value))), SkipWhite(s, i), y.end))
  }

  lemma SpanJoin(s: string, a: nat, b: nat, c: nat)
    requires a <= b <= c <= |s| && ConsumableSpan(s, a, b) && ConsumableSpan(s, b, c)
    ensures ConsumableSpan(s, a, c)
  {
  }

  /** A date separator and the whitespace before it are consumable. */
  lemma SeparatorSpan(s: string, i: nat)
    requires i <= |s| && Punct(s, i, "/.").Some?
    ensures ConsumableSpan(s, i, Punct(s, i, "/.").value)
  {
  }

  /** `oneOf(['PDT', 'PST', 'EDT', 'CDT'])`: case-sensitive, three letters. */
  function TzAlt(s: string, i: nat): (r: Option<Lexeme>)
    requires i <= |s|
    ensures r.Some? <==>
      var j := SkipWhite(s, i);
      j + 3 <= |s| && s[j..j + 3] in ["PDT", "PST", "EDT", "CDT"]
    ensures r.Some? ==>
      var j := SkipWhite(s, i);
      r.value.start == j && r.value.end == j + 3 && r.value.piece.Tz? &&
      s[j..j + 3] == ZoneName(r.value.piece.zone)
  {
    var j := SkipWhite(s, i);
    if j + 3 <= |s| then
      var w := s[j..j + 3];
      if w == "PDT" then Some(Lexeme(Tz(PDT), j, j + 3))
      else if w == "PST" then Some(Lexeme(Tz(PST), j, j + 3))
      else if w == "EDT" then Some(Lexeme(Tz(EDT), j, j + 3))
      else if w == "CDT" then Some(Lexeme(Tz(CDT), j, j + 3))
      else None
    else None
  }

  function ZoneName(z: Zone): string {
    match z
    case PDT => "PDT"
    case PST => "PST"
    case EDT => "EDT"
    case CDT => "CDT"
  }

  /** `Suppress(Word(alphas + nums + ":;,()"))`: a maximal noise run. */
  function NoiseAlt(s: string, i: nat): (r: Option<Lexeme>)
    requires i <= |s|
    ensures r.Some? <==> SkipWhite(s, i) < |s| && IsNoiseChar(s[SkipWhite(s, i)])
    ensures r.Some? ==>
      r.value.piece == Noise && r.value.start == SkipWhite(s, i) &&
      r.value.end == NoiseEnd(s, r.value.start)
  {
    var j := SkipWhite(s, i);
    if j < |s| && IsNoiseChar(s[j]) then Some(Lexeme(Noise, j, NoiseEnd(s, j))) else None
  }

  /** The alternatives of `timespec ^ datespec ^ tzspec ^ ignoreWord`, in order. */
  function Alternatives(s: string, i: nat): (alts: seq<Option<Lexeme>>)
    requires i <= |s|
    ensures |alts| == 4
    // each alternative yields the piece its results name stands for
    ensures alts[0].Some? ==> alts[0].value.piece.Time?
    ensures alts[1].Some? ==> alts[1].value.piece.Date?
    ensures alts[2].Some? ==> alts[2].value.piece.Tz?
    ensures alts[3].Some? ==> alts[3].value.piece == Noise
  {
    [TimeAlt(s, i), DateAlt(s, i), TzAlt(s, i), NoiseAlt(s, i)]
  }

  /** Keeps `best` unless `cand` ends strictly further. */
  function Longer(best: Option<Lexeme>, cand: Option<Lexeme>): Option<Lexeme> {
    if cand.Some? && (best.None? || cand.value.end > best.value.end) then cand else best
  }

  /** pyparsing's `Or`: the alternative that ends furthest; among those that
      end equally far, the first one listed. */
  function Longest(alts: seq<Option<Lexeme>>): (r: Option<Lexeme>)
    ensures r.None? <==> forall k :: 0 <= k < |alts| ==> alts[k].None?
    ensures r.Some? ==> exists k :: 0 <= k < |alts| && alts[k] == r && FirstLongest(alts, k)
  {
    if alts == [] then None
    else
      var n := |alts| - 1;
      var best := Longest(alts[..n]);
      var r := Longer(best, alts[n]);
      if r.None? then r
      else if alts[n].Some? && (best.None? || alts[n].value.end > best.value.end) then
        var k :| best.Some? ==> 0 <= k < n && alts[..n][k] == best && FirstLongest(alts[..n], k);
        LastIsFirstLongest(alts, k);
        r
      else
        var k :| 0 <= k < n && alts[..n][k] == best && FirstLongest(alts[..n], k);
        EarlierStaysFirstLongest(alts, k);
        r
  }

  /** A last alternative that ends strictly after the best of the others is
      the first longest. */
  lemma LastIsFirstLongest(alts: seq<Option<Lexeme>>, k: int)
    requires alts != [] && alts[|alts| - 1].Some?
    requires (forall m :: 0 <= m < |alts| - 1 ==> alts[m].None?) ||
      (0 <= k < |alts| - 1 && FirstLongest(alts[..|alts| - 1], k) &&
       alts[k].value.end < alts[|alts| - 1].value.end)
    ensures FirstLongest(alts, |alts| - 1)
  {
    var n := |alts| - 1;
    if !(forall m :: 0 <= m < n ==> alts[m].None?) {
      forall m | 0 <= m < n && alts[m].Some? ensures alts[m].value.end < alts[n].value.end {
        assert alts[..n][m] == alts[m] && alts[..n][k] == alts[k];
      }
    }
  }

  /** The first longest of the others stays so when the last alternative
      does not end further. */
  lemma EarlierStaysFirstLongest(alts: seq<Option<Lexeme>>, k: int)
    requires alts != [] && 0 <= k < |alts| - 1 && FirstLongest(alts[..|alts| - 1], k)
    requires alts[|alts| - 1].None? || alts[|alts| - 1].value.end <= alts[k].value.end
    ensures FirstLongest(alts, k)
  {
    var n := |alts| - 1;
    forall m | 0 <= m < n ensures alts[..n][m] == alts[m] {}
  }

  /** Alternative `k` matches, no alternative ends further, and every earlier
      alternative that matches ends strictly before it. */
  predicate FirstLongest(alts: seq<Option<Lexeme>>, k: nat)
    requires k < |alts|
  {
    alts[k].Some? &&
    (forall m :: 0 <= m < |alts| && alts[m].Some? ==> alts[m].value.end <= alts[k].value.end) &&
    (forall m :: 0 <= m < k && alts[m].Some? ==> alts[m].value.end < alts[k].value.end)
  }

  /** The piece chosen at position `i`: it starts after the whitespace and
      consumes at least one character, all of them consumable. */
  function Choose(s: string, i: nat): (r: Option<Lexeme>)
    requires i <= |s|
    ensures r.Some? ==>
      r.value.start == SkipWhite(s, i) < r.value.end <= |s| && ConsumableSpan(s, i, r.value.end)
  {
    var alts := Alternatives(s, i);
    AlternativesAdvance(s, i);
    Longest(alts)
  }

  /** The choice fails exactly when no alternative matches; otherwise it is
      the first of the alternatives that end furthest. */
  lemma ChooseLongest(s: string, i: nat)
    requires i <= |s|
    ensures Choose(s, i).None? <==> forall k :: 0 <= k < 4 ==> Alternatives(s, i)[k].None?
    ensures Choose(s, i).Some? ==>
      exists k :: 0 <= k < 4 && Alternatives(s, i)[k] == Choose(s, i) && FirstLongest(Alternatives(s, i), k)
  {
    assert Choose(s, i) == Longest(Alternatives(s, i));
  }

  /** Every alternative that matches starts after the skipped whitespace,
      consumes at least one character and consumes only consumable ones. */
  lemma AlternativesAdvance(s: string, i: nat)
    requires i <= |s|
    ensures forall k :: 0 <= k < 4 && Alternatives(s, i)[k].Some? ==>
      var lx := Alternatives(s, i)[k].value;
      lx.start == SkipWhite(s, i) < lx.end <= |s| && ConsumableSpan(s, i, lx.end)
  {
    TimeAdvance(s, i);
    ZoneAdvance(s, i);
    var alts := Alternatives(s, i);
    assert alts[0] == TimeAlt(s, i) && alts[1] == DateAlt(s, i);
    assert alts[2] == TzAlt(s, i) && alts[3] == NoiseAlt(s, i);
  }

  lemma TimeAdvance(s: string, i: nat)
    requires i <= |s|
    ensures TimeAlt(s, i).Some? ==>
      var lx := TimeAlt(s, i).value;
      lx.start == SkipWhite(s, i) < lx.end <= |s| && ConsumableSpan(s, i, lx.end)
  {
  }

  /** A timezone match is three letters after the whitespace. */
  lemma ZoneAdvance(s: string, i: nat)
    requires i <= |s|
    ensures TzAlt(s, i).Some? ==>
      var lx := TzAlt(s, i).value;
      lx.start == SkipWhite(s, i) < lx.end <= |s| && ConsumableSpan(s, i, lx.end) &&
      lx.end == lx.start + 3 && forall k :: lx.start <= k < lx.end ==> IsLetter(s[k])
  {
    var j := SkipWhite(s, i);
    if TzAlt(s, i).Some? {
      var name := ZoneName(TzAlt(s, i).value.piece.zone);
      ZoneNameLetters(TzAlt(s, i).value.piece.zone);
      assert s[j..j + 3] == name;
      forall k | j <= k < j + 3 ensures IsLetter(s[k]) {
        assert s[k] == name[k - j];
      }
    }
  }

  lemma ZoneNameLetters(z: Zone)
    ensures |ZoneName(z)| == 3 && forall k :: 0 <= k < 3 ==> IsLetter(ZoneName(z)[k])
  {
  }


  /** `OneOrMore(...)` followed by `stringEnd`, from position `i`: the pieces
      chosen one after the other until only whitespace is left. */
  function Scan(s: string, i: nat): (r: Option<seq<Lexeme>>)
    requires i <= |s|
    ensures r == Some([]) <==> SkipWhite(s, i) == |s|
    ensures r.Some? && r.value != [] ==>
      r.value[0].start == SkipWhite(s, i) && Choose(s, SkipWhite(s, i)) == Some(r.value[0])
    decreases |s| - i
  {
    var j := SkipWhite(s, i);
    if j == |s| then Some([])
    else
      match Choose(s, j)
      case None => None
      case Some(lx) =>
        match Scan(s, lx.end)
        case None => None
        case Some(rest) => Some([lx] + rest)
  }

  /** `datetime_grammar().parseString(s)`: at least one piece, and the whole
      input consumed. */
  function Tokenize(s: string): (r: Option<seq<Lexeme>>)
    ensures r.None? <==> Scan(s, 0).None? || SkipWhite(s, 0) == |s|
    ensures r.Some? ==> r.value != [] && r.value[0].start == SkipWhite(s, 0)
  {
    match Scan(s, 0)
    case None => None
    case Some(ls) => if ls == [] then None else Some(ls)
  }

  // ---------------------------------------------------------------------
  // What a successful tokenization is

  /** The pieces lie in order in `s[i..]`, each non-empty, with only
      whitespace before, between and after them. */
  predicate Tiles(s: string, i: nat, ls: seq<Lexeme>)
    requires i <= |s|
    decreases |ls|
  {
    if ls == [] then AllWhite(s[i..])
    else
      i <= ls[0].start < ls[0].end <= |s| && AllWhite(s[i..ls[0].start]) &&
      Tiles(s, ls[0].end, ls[1..])
  }

  /** `lx` is what the longest-match choice yields at its own start. */
  predicate Chosen(s: string, lx: Lexeme) {
    lx.start <= |s| && Choose(s, lx.start) == Some(lx)
  }

  predicate AllChosen(s: string, ls: seq<Lexeme>) {
    forall k :: 0 <= k < |ls| ==> Chosen(s, ls[k])
  }

  lemma {:induction false} SkipWhiteTo(s: string, i: nat, j: nat)
    requires i <= j <= |s| && AllWhite(s[i..j]) && (j == |s| || !IsWhite(s[j]))
    ensures SkipWhite(s, i) == j
    decreases j - i
  {
    if i < j {
      assert IsWhite(s[i..j][0]);
      assert s[i + 1..j] == s[i..j][1..];
      SkipWhiteTo(s, i + 1, j);
    }
  }

  /** Soundness and completeness of the scanner: it succeeds from `i` with
      `ls` exactly when `ls` tiles the rest of the input and every piece is
      the longest-match choice at its start. */
  lemma ScanCharacterized(s: string, i: nat, ls: seq<Lexeme>)
    requires i <= |s|
    ensures Scan(s, i) == Some(ls) <==> Tiles(s, i, ls) && AllChosen(s, ls)
  {
    if Scan(s, i) == Some(ls) {
      ScanSound(s, i, ls);
    }
    if Tiles(s, i, ls) && AllChosen(s, ls) {
      ScanComplete(s, i, ls);
    }
  }

  lemma {:induction false} ScanSound(s: string, i: nat, ls: seq<Lexeme>)
    requires i <= |s| && Scan(s, i) == Some(ls)
    ensures Tiles(s, i, ls) && AllChosen(s, ls)
    decreases |s| - i
  {
    var j := SkipWhite(s, i);
    assert AllWhite(s[i..j]);
    if j == |s| {
      assert ls == [];
    } else {
      var lx := Choose(s, j).value;
      var rest := Scan(s, lx.end).value;
      assert ls == [lx] + rest && ls[1..] == rest;
      ScanSound(s, lx.end, rest);
      assert lx.start == j;
      assert Chosen(s, lx);
    }
  }

  /** One step of the scan: the piece chosen after the whitespace, then the
      rest. */
  lemma ScanStep(s: string, i: nat, lx: Lexeme, rest: seq<Lexeme>)
    requires i <= |s| && SkipWhite(s, i) < |s|
    requires Choose(s, SkipWhite(s, i)) == Some(lx)
    requires lx.end <= |s| && Scan(s, lx.end) == Some(rest)
    ensures Scan(s, i) == Some([lx] + rest)
  {
  }

  lemma ChosenStart(s: string, lx: Lexeme, ls: seq<Lexeme>)
    requires ls != [] && lx == ls[0] && AllChosen(s, ls)
    ensures Choose(s, lx.start) == Some(lx)
    ensures lx.start < |s| && !IsWhite(s[lx.start])
  {
    assert Chosen(s, ls[0]);
  }

  lemma AllChosenTail(s: string, ls: seq<Lexeme>)
    requires ls != [] && AllChosen(s, ls)
    ensures AllChosen(s, ls[1..])
  {
    forall k | 0 <= k < |ls[1..]| ensures Chosen(s, ls[1..][k]) {
      assert ls[1..][k] == ls[k + 1];
    }
  }

  lemma {:induction false} ScanComplete(s: string, i: nat, ls: seq<Lexeme>)
    requires i <= |s| && Tiles(s, i, ls) && AllChosen(s, ls)
    ensures Scan(s, i) == Some(ls)
    decreases |ls|
  {
    if ls == [] {
      ScanEnd(s, i);
    } else {
      ChosenStart(s, ls[0], ls);
      AllChosenTail(s, ls);
      ScanComplete(s, ls[0].end, ls[1..]);
      ScanCons(s, i, ls);
    }
  }

  /** A tiling whose first piece is chosen and whose rest the scan returns
      is what the scan returns. */
  lemma ScanCons(s: string, i: nat, ls: seq<Lexeme>)
    requires i <= |s| && ls != [] && Tiles(s, i, ls)
    requires Choose(s, ls[0].start) == Some(ls[0]) && ls[0].start < |s| && !IsWhite(s[ls[0].start])
    requires Scan(s, ls[0].end) == Some(ls[1..])
    ensures Scan(s, i) == Some(ls)
  {
    var lx := ls[0];
    SkipWhiteTo(s, i, lx.start);
    ScanStep(s, i, lx, ls[1..]);
    assert ls == [lx] + ls[1..];
  }

  /** Only whitespace left: the scan stops with no further piece. */
  lemma ScanEnd(s: string, i: nat)
    requires i <= |s| && AllWhite(s[i..])
    ensures Scan(s, i) == Some([])
  {
    SkipWhiteTo(s, i, |s|);
  }


  /** A tokenization is a non-empty tiling of the whole input by longest-match
      choices, and there is exactly one such tiling when tokenization succeeds. */
  lemma TokenizeCharacterized(s: string, ls: seq<Lexeme>)
    ensures Tokenize(s) == Some(ls) <==> ls != [] && Tiles(s, 0, ls) && AllChosen(s, ls)
  {
    ScanCharacterized(s, 0, ls);
  }

  /** Each piece of a tokenization ends at least as far as every alternative
      tried at its start, and strictly further than every alternative listed
      before it. */
  lemma TokenizeLongestMatch(s: string, ls: seq<Lexeme>, k: nat)
    requires Tokenize(s) == Some(ls) && k < |ls|
    ensures ls[k].start < |s|
    ensures exists a :: 0 <= a < 4 && Alternatives(s, ls[k].start)[a] == Some(ls[k]) &&
                        FirstLongest(Alternatives(s, ls[k].start), a)
  {
    assert AllChosen(s, ls) by {
      TokenizeCharacterized(s, ls);
    }
    ChosenIsFirstLongest(s, ls[k]);
  }

  lemma ChosenIsFirstLongest(s: string, lx: Lexeme)
    requires Chosen(s, lx)
    ensures exists a :: 0 <= a < 4 && Alternatives(s, lx.start)[a] == Some(lx) &&
                        FirstLongest(Alternatives(s, lx.start), a)
  {
    ChooseLongest(s, lx.start);
  }

  /** A date or time piece starts with a digit. */
  lemma ChosenNumericStartsWithDigit(s: string, lx: Lexeme)
    requires Chosen(s, lx) && (lx.piece.Date? || lx.piece.Time?)
    ensures lx.start < |s| && IsDigit(s[lx.start])
  {
    ChosenIsFirstLongest(s, lx);
    var a :| 0 <= a < 4 && Alternatives(s, lx.start)[a] == Some(lx);
    assert a == 0 || a == 1;
    assert Integer(s, lx.start).Some?;
    assert SkipWhite(s, lx.start) == lx.start;
  }

  lemma {:induction false} TilesConsumable(s: string, i: nat, ls: seq<Lexeme>)
    requires i <= |s| && Tiles(s, i, ls) && AllChosen(s, ls)
    ensures ConsumableSpan(s, i, |s|)
    decreases |ls|
  {
    if ls != [] {
      var lx := ls[0];
      assert Chosen(s, lx);
      assert ConsumableSpan(s, lx.start, lx.end);
      assert AllWhite(s[i..lx.start]);
      assert forall k :: i <= k < lx.start ==> IsWhite(s[k]) by {
        forall k | i <= k < lx.start ensures IsWhite(s[k]) {
          assert s[i..lx.start][k - i] == s[k];
        }
      }
      assert AllChosen(s, ls[1..]) by {
        forall k | 0 <= k < |ls[1..]| ensures Chosen(s, ls[1..][k]) {
          assert ls[1..][k] == ls[k + 1];
        }
      }
      TilesConsumable(s, lx.end, ls[1..]);
    } else {
      assert forall k :: i <= k < |s| ==> IsWhite(s[k]) by {
        forall k | i <= k < |s| ensures IsWhite(s[k]) {
          assert s[i..][k - i] == s[k];
        }
      }
    }
  }

  /** A character no alternative can consume (anything but whitespace,
      letters, digits, `:;,()`, `/` and `.`, such as `-`) makes the whole
      tokenization fail. */
  lemma StrayCharacterFails(s: string, k: nat)
    requires k < |s| && !Consumable(s[k])
    ensures Tokenize(s) == None
  {
    if Tokenize(s).Some? {
      var ls := Tokenize(s).value;
      TokenizeCharacterized(s, ls);
      TilesConsumable(s, 0, ls);
    }
  }

  /** Every alternative but the date covers only whitespace and noise
      characters. */
  lemma PlainAlternatives(s: string, i: nat)
    requires i <= |s|
    ensures TimeAlt(s, i).Some? ==> PlainSpan(s, i, TimeAlt(s, i).value.end)
    ensures TzAlt(s, i).Some? ==> PlainSpan(s, i, TzAlt(s, i).value.end)
    ensures NoiseAlt(s, i).Some? ==> PlainSpan(s, i, NoiseAlt(s, i).value.end)
  {
    var j := SkipWhite(s, i);
    if TzAlt(s, i).Some? {
      ZoneAdvance(s, i);
      ZoneNameLetters(TzAlt(s, i).value.piece.zone);
    }
  }

  /** A chosen piece other than a date contains no date separator. */
  lemma ChosenPlain(s: string, lx: Lexeme)
    requires Chosen(s, lx) && !lx.piece.Date?
    ensures PlainSpan(s, lx.start, lx.end)
  {
    ChosenIsFirstLongest(s, lx);
    var a :| 0 <= a < 4 && Alternatives(s, lx.start)[a] == Some(lx);
    PlainAlternatives(s, lx.start);
  }

  /** Every piece but a date covers only whitespace and noise characters. */
  predicate PlainOutsideDates(s: string, ls: seq<Lexeme>) {
    forall p :: 0 <= p < |ls| && !ls[p].piece.Date? ==>
      ls[p].start <= ls[p].end <= |s| && PlainSpan(s, ls[p].start, ls[p].end)
  }

  lemma {:induction false} TilesSeparator(s: string, i: nat, ls: seq<Lexeme>, k: nat)
    requires i <= k < |s| && (s[k] == '/' || s[k] == '.')
    requires Tiles(s, i, ls) && PlainOutsideDates(s, ls)
    ensures exists p :: 0 <= p < |ls| && ls[p].piece.Date? && ls[p].start <= k < ls[p].end
    decreases |ls|
  {
    if ls == [] {
      assert false;
    } else {
      var lx := ls[0];
      if k < lx.start {
        assert false;
      } else if k < lx.end {
        if !lx.piece.Date? {
          assert false;
        }
      } else {
        assert PlainOutsideDates(s, ls[1..]) by {
          forall p | 0 <= p < |ls[1..]| ensures ls[1..][p] == ls[p + 1] {}
        }
        TilesSeparator(s, lx.end, ls[1..], k);
        var p :| 0 <= p < |ls[1..]| && ls[1..][p].piece.Date? && ls[1..][p].start <= k < ls[1..][p].end;
        assert ls[p + 1] == ls[1..][p];
      }
    }
  }

  /** In any input the grammar accepts, every `/` and every `.` lies inside
      a date piece: elsewhere, as in `"Show . 8pm"` or `"a/b"`, they make the
      tokenization fail. */
  lemma SeparatorInsideDate(s: string, ls: seq<Lexeme>, k: nat)
    requires Tokenize(s) == Some(ls) && k < |s| && (s[k] == '/' || s[k] == '.')
    ensures exists p :: 0 <= p < |ls| && ls[p].piece.Date? && ls[p].start <= k < ls[p].end
  {
    TokenizeCharacterized(s, ls);
    forall p | 0 <= p < |ls| && !ls[p].piece.Date?
      ensures ls[p].start <= ls[p].end <= |s| && PlainSpan(s, ls[p].start, ls[p].end)
    {
      ChosenPlain(s, ls[p]);
    }
    TilesSeparator(s, 0, ls, k);
  }

  lemma {:induction false} ScanNoiseTotal(s: string, i: nat)
    requires i <= |s|
    requires forall k :: 0 <= k < |s| ==> IsWhite(s[k]) || IsNoiseChar(s[k])
    ensures Scan(s, i).Some?
    decreases |s| - i
  {
    var j := SkipWhite(s, i);
    if j < |s| {
      assert NoiseAlt(s, j).Some?;
      assert Alternatives(s, j)[3].Some?;
      ChooseLongest(s, j);
      var lx := Choose(s, j).value;
      ScanNoiseTotal(s, lx.end);
    }
  }

  /** Input made only of whitespace and noise characters, with at least one
      of the latter, always tokenizes. */
  lemma NoiseOnlyTokenizes(s: string, k: nat)
    requires forall m :: 0 <= m < |s| ==> IsWhite(s[m]) || IsNoiseChar(s[m])
    requires k < |s| && !IsWhite(s[k])
    ensures Tokenize(s).Some?
  {
    ScanNoiseTotal(s, 0);
  }
}
