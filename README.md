# wind datetime extraction, modelled in Dafny

This project models the datetime extractor of the `wind.parsing` package:
`parse_datetime` together with the grammar it falls back on
(`datetime_grammar`), and the small schema rules `notempty`, `notequal`,
`const`, `lower` and `upper`.

`parse_datetime(s, fmt, dt_re, string, **kwargs)` works in this order:

1. With an explicit format, it returns whatever `strptime` gives.
2. With a pattern that does not match, it returns `None`.
3. Otherwise it asks an external natural-language parser.
4. Only when that parser raises does it run the fallback:
   - the pyparsing grammar splits the input into pieces: times, dates,
     timezones and noise words;
   - the completion step turns the last piece of each kind into the six
     fields of a `datetime`, taking missing date fields from keyword
     defaults or from the current moment.

When the grammar rejects the input it raises `ParsingFailed`. With `string=True` the result
is rendered as `YYYY-MM-DDTHH:MM:SS`, the complete extended representation of
section 4.3.2 of ISO 8601:2004.

Modules:

- `Wrappers`, `Text`, `Calendar`, `Errors`: option and result types, ASCII
  character classes and decimal strings, the calendar value with its range
  checks and ISO rendering, and the exceptions a call can raise.
- `Grammar`: the grammar as a hand-written scanner over the input string.
  - Every element skips leading whitespace.
  - At each position four alternatives are tried: time, date, timezone and
    noise. The one that ends furthest wins; a tie goes to the one listed
    first (pyparsing's `^`).
  - Inside the time alternative, the four-digit form is tried before the
    clock form (pyparsing's `|`).
  - The whole input must be consumed by at least one piece.
- `FieldCompletion`: the completion branch, as imperative methods over the
  completion dictionary (`FillDateFields`, `FillAttrs`, `Complete`). Each
  method is proved equal to, or consistent with, a pure specification
  (`Resolve`, `Filled`, `Completion`).
- `Extraction`: the orchestration of `parse_datetime`, as a method whose
  foreign calls are parameters.
- `SchemaRules`: the five schema rules.
- `Scenarios`: inputs from the repository's tests, evaluated through the
  model.

Behaviour of the code that the model keeps:

- Of several pieces of one kind, the LAST one is what the completion reads.
  A pyparsing results name returns its most recent match.
- The four-digit form of a time takes the first four digits after the
  whitespace, whatever follows them. In a longer run such as `94110` it ends
  one digit before the noise word, which then wins.
- A failed `Optional` still ends after the whitespace it skipped, so a time
  without a marker, or a date without a year, ends after the whitespace that
  follows it (the date in `10.21 Show` ends at 6, before `Show`).
- Ambiguity is not an error: of the alternatives that match, the one that
  ends furthest is taken, ties going to the one listed first.
- A time given only as four digits (`2130`) is captured under `miltime`, but
  the completion reads `hour`. That is pyparsing's empty string, so
  `datetime(...)` raises `TypeError` (`HourNotInteger`).
- With no date piece, the `'year'` lookup raises `KeyError`. With a date but
  no time piece, the `'hour'` lookup does.
- `12pm` becomes hour 0, because the code computes `(12 + 12) % 24`.
- A month or day of 0 is falsy. It is replaced by the keyword default, or
  else by the current moment.
- Keyword defaults are consulted only for year, month and day.
- A range error from `datetime(...)` escapes uncaught as `ValueError`. The
  call happens inside the `except` handler.
- Input that tokenizes without a date piece raises `KeyError`, not
  `ParsingFailed` (`Extraction.WordsOnlyMissYear`).
- A pattern that matches does not decide the result: the call goes on to the
  external parser and, if that fails, to the grammar.
- A `/` or `.` outside a date piece makes the grammar reject the input.

## Model

| member | source | states |
|---|---|---|
| Text.ValueOfDecimal | wind/parsing/_parsing.py:187 | reading back a zero-padded `%0Nd` field gives the number whenever it fits in N digits |
| Text.DecimalOfValue | wind/parsing/_parsing.py:187 | rendering the value of an N-digit string at width N gives the string back |
| Calendar.DaysInMonth | wind/parsing/_parsing.py:174-179 | every month has 28 to 31 days; February has 29 exactly in leap years; April, June, September and November have 30 |
| Calendar.ValidDateTime | wind/parsing/_parsing.py:174-179 | the range checks `datetime(...)` applies: year 1 to 9999, month 1 to 12, day within the month, hour below 24, minute and second below 60 |
| Calendar.LeapDayValid | wind/parsing/_parsing.py:174-179 | February 29 passes those checks exactly in leap years within the year range |
| Calendar.IsoFormat | wind/parsing/_parsing.py:187 | `isoformat()` of a valid datetime is 19 characters with `-`, `-`, `T`, `:`, `:` at positions 4, 7, 10, 13, 16 |
| Calendar.JoinFields | wind/parsing/_parsing.py:187 | a 19-character string with the extended separators is the join of its six digit fields |
| Calendar.IsoRoundTrip | wind/parsing/_parsing.py:186-188 | parsing the rendering of a valid datetime gives that datetime back |
| Calendar.IsoCanonical | wind/parsing/_parsing.py:186-188 | every string the reader accepts is exactly the rendering of what it read: the format is canonical |
| Grammar.SkipWhite | wind/parsing/_parsing.py:59-62 | the skipped prefix is all whitespace and stops at the end or at a non-white character |
| Grammar.Integer | wind/parsing/_parsing.py:38 | `integer` matches exactly when a digit follows the whitespace, and yields the value of the maximal digit run |
| Grammar.Punct | wind/parsing/_parsing.py:28-30 | a suppressed one-character literal matches exactly when the next non-white character is one of those accepted, and ends right after it |
| Grammar.ColonInteger | wind/parsing/_parsing.py:50-51 | `Optional(COLON + integer)` matches exactly when a `:` and then a digit follow the whitespace; it then captures the value of that digit run and ends after it; otherwise it captures nothing and ends after the whitespace the `Optional` skipped |
| Grammar.AmPmSuffix | wind/parsing/_parsing.py:33-34 | the caseless `am`/`pm` literal matches exactly when the next two characters, in any case, spell `am` or `pm`; it reports which and ends after them; otherwise it captures nothing and ends after the skipped whitespace |
| Grammar.MilitaryTime | wind/parsing/_parsing.py:43-44 | matches exactly when four digits follow the whitespace, whatever follows them, and splits those four into their first two and last two digits |
| Grammar.FourDigits | wind/parsing/_parsing.py:43-44 | both halves of a four-digit run are digit strings |
| Grammar.SplitFour | wind/parsing/_parsing.py:43-44 | the parse action of the four-digit form gives two numbers below 100 |
| Grammar.ClockTime | wind/parsing/_parsing.py:49-52 | `hour[:minutes][:seconds][am|pm]` matches exactly when an integer does; the hour is that integer, and minutes, seconds and marker are what the optional parts capture one after the other; the match ends where the last `Optional` ends, after trailing whitespace when the marker is absent |
| Grammar.TimeAlt | wind/parsing/_parsing.py:48-53 | matches exactly when an integer does; the four-digit form is taken whenever it matches (first-match `|`), the clock form otherwise |
| Grammar.DateAlt | wind/parsing/_parsing.py:54-55 | matches exactly when an integer, a `/` or `.` and an integer follow; month and day are those integers; the year is present exactly when a further separator and integer follow, and is that integer; the match ends after the year, or without one after the whitespace that follows the day |
| Grammar.TzAlt | wind/parsing/_parsing.py:46 | matches exactly when the next three characters are one of `PDT`, `PST`, `EDT`, `CDT` (case-sensitive) |
| Grammar.NoiseAlt | wind/parsing/_parsing.py:36 | matches exactly at a letter, digit or one of `:;,()`, and runs to the end of those characters |
| Grammar.Alternatives | wind/parsing/_parsing.py:59-61 | the four operands of `^` in order, each yielding the piece its results name stands for: time, date, timezone, suppressed noise |
| Grammar.Longest | wind/parsing/_parsing.py:59-61 | the `^` choice: no result exactly when no alternative matches, else an alternative that ends furthest and is the first to do so |
| Grammar.LastIsFirstLongest | wind/parsing/_parsing.py:59-61 | a last alternative ending strictly after all others is the first longest |
| Grammar.EarlierStaysFirstLongest | wind/parsing/_parsing.py:59-61 | adding an alternative that does not end further keeps the earlier winner |
| Grammar.Choose | wind/parsing/_parsing.py:59-62 | the piece chosen at a position starts after the whitespace, is non-empty and consumes only consumable characters |
| Grammar.ChooseLongest | wind/parsing/_parsing.py:59-61 | the choice fails exactly when all four alternatives fail; otherwise it is the first of the alternatives that end furthest |
| Grammar.AlternativesAdvance | wind/parsing/_parsing.py:36-57 | every alternative that matches starts after the whitespace, is non-empty and consumes only consumable characters |
| Grammar.ZoneAdvance | wind/parsing/_parsing.py:46 | a timezone match starts after the whitespace and is exactly three letters |
| Grammar.Scan | wind/parsing/_parsing.py:59-62 | `OneOrMore(...) + stringEnd` from a position: no piece exactly when only whitespace is left; otherwise the first piece starts after the whitespace and is the choice there |
| Grammar.Tokenize | wind/parsing/_parsing.py:130 | `parseString` fails exactly when the scan fails or the input is all whitespace; a result is non-empty and starts after the leading whitespace |
| Grammar.ScanSound | wind/parsing/_parsing.py:59-62 | what the scanner returns tiles the rest of the input and every piece is the choice at its start |
| Grammar.ScanComplete | wind/parsing/_parsing.py:59-62 | every such tiling is what the scanner returns |
| Grammar.ScanCons | wind/parsing/_parsing.py:59-62 | a tiling whose first piece is chosen and whose rest the scan returns is what the scan returns |
| Grammar.ScanCharacterized | wind/parsing/_parsing.py:59-62 | the scanner succeeds with a list exactly when the list tiles the input and every piece is chosen at its start |
| Grammar.TokenizeCharacterized | wind/parsing/_parsing.py:59-62 | `parseString` succeeds with a list exactly when the list is non-empty, tiles the input with only whitespace between pieces, and each piece is the longest-match choice |
| Grammar.TokenizeLongestMatch | wind/parsing/_parsing.py:59-61 | each piece of a tokenization is an alternative at its start that ends at least as far as all and strictly further than every earlier-listed one |
| Grammar.ChosenIsFirstLongest | wind/parsing/_parsing.py:59-61 | a chosen piece is the first longest alternative at its start |
| Grammar.ChosenNumericStartsWithDigit | wind/parsing/_parsing.py:48-55 | a time or date piece starts with a digit |
| Grammar.TilesConsumable | wind/parsing/_parsing.py:36-62 | an accepted input consists only of whitespace, letters, digits, `:;,()`, `/` and `.` |
| Grammar.StrayCharacterFails | wind/parsing/_parsing.py:59-62 | any other character, such as `-`, makes tokenization fail |
| Grammar.PlainAlternatives | wind/parsing/_parsing.py:36-53 | time, timezone and noise matches cover only whitespace, letters, digits and `:;,()` |
| Grammar.ChosenPlain | wind/parsing/_parsing.py:36-61 | a chosen piece that is not a date contains no `/` and no `.` |
| Grammar.TilesSeparator | wind/parsing/_parsing.py:54-62 | in a tiling by such pieces, every `/` and `.` lies inside a date piece |
| Grammar.SeparatorInsideDate | wind/parsing/_parsing.py:54-62 | in any input the grammar accepts, every `/` and `.` lies inside a date piece |
| Grammar.ScanNoiseTotal | wind/parsing/_parsing.py:36 | input of whitespace and noise characters always scans |
| Grammar.NoiseOnlyTokenizes | wind/parsing/_parsing.py:36-62 | such input with at least one non-white character always tokenizes |
| FieldCompletion.CollectLastTime | wind/parsing/_parsing.py:59 | the `timespec` result is absent exactly when no piece is a time, and otherwise is the last time piece |
| FieldCompletion.CollectLastDate | wind/parsing/_parsing.py:60 | the `datespec` result is absent exactly when no piece is a date, and otherwise is the last date piece |
| FieldCompletion.CollectLastTz | wind/parsing/_parsing.py:61 | the `tzspec` result is absent exactly when no piece is a timezone, and otherwise is the last one |
| FieldCompletion.Collect | wind/parsing/_parsing.py:57-62 | the named results of a tokenization; suppressed noise words leave every name empty |
| FieldCompletion.CorrectYear | wind/parsing/_parsing.py:138-143 | a year below 1000 gets 2000 added (10 becomes 2010, 99 becomes 2099); a year of 1000 or more is kept; the result is at least 1000 |
| FieldCompletion.AdjustHour | wind/parsing/_parsing.py:155-161 | pm adds 12 to hours 1 to 11, turns 12 into 0 and 0 into 12; am, no marker or an hour of 13 or more leave it unchanged |
| FieldCompletion.Resolve | wind/parsing/_parsing.py:144-152 | a captured year (never falsy once corrected) and a non-zero month or day are kept; a missing or zero field takes the keyword default, else the field of `now` |
| FieldCompletion.Completion | wind/parsing/_parsing.py:134-179 | no date raises KeyError 'year'; a date without a time raises KeyError 'hour'; a four-digit time raises TypeError; with a date and a clock time it succeeds exactly when the six values are a valid datetime (else ValueError): year, month, day from the fragment (non-zero), else the keyword, else now; the hour pm-adjusted; minutes and seconds defaulting to 0 |
| FieldCompletion.FillDateFields | wind/parsing/_parsing.py:137-152 | the year/month/day loop fills exactly the three date keys, each with the fragment's non-zero value, else the keyword, else now |
| FieldCompletion.FillAttrs | wind/parsing/_parsing.py:136-171 | the dictionary holds the date keys exactly when there is a date fragment and the time keys exactly when there is a time fragment; a four-digit time leaves the hour blank |
| FieldCompletion.Complete | wind/parsing/_parsing.py:134-179 | looking up the six keys in order and building the datetime gives exactly `Completion` |
| FieldCompletion.TimezoneIgnored | wind/parsing/_parsing.py:57-61 | inserting a timezone piece anywhere changes neither the collected date and time nor the completed result |
| FieldCompletion.CollectIgnoresTz | wind/parsing/_parsing.py:57-61 | inserting a timezone piece leaves the collected date and time unchanged |
| FieldCompletion.CompletionReadsDateAndTime | wind/parsing/_parsing.py:134-179 | the completion depends only on the date and time fragments |
| Extraction.Render | wind/parsing/_parsing.py:186-188 | `string=True` gives a 19-character ISO text that reads back to the same datetime; otherwise the datetime itself |
| Extraction.FailureMessage | wind/parsing/_parsing.py:183-184 | the `ParsingFailed` message contains the input |
| Extraction.Fallback | wind/parsing/_parsing.py:128-184 | the fallback raises `ParsingFailed` exactly when the grammar rejects the input; any result is a valid datetime |
| Extraction.ParseDatetime | wind/parsing/_parsing.py:114-188 | a format decides alone (result never rendered, mismatch raises); a pattern that does not match gives None; else the external parser's result, or when it fails the fallback's result or exception; `ParsingFailed` only when both the external parser and the grammar fail |
| Extraction.WordsOnlyMissYear | wind/parsing/_parsing.py:137-174 | input of whitespace and non-digit noise characters with at least one non-white character raises KeyError 'year', not `ParsingFailed` |
| Extraction.StrayCharacterRaises | wind/parsing/_parsing.py:129-184 | input with a rejected character raises `ParsingFailed` quoting it |
| SchemaRules.NotEmpty | wind/parsing/_parsing.py:66-69 | the value unchanged exactly when it is non-empty, else ValueError with the rule's message |
| SchemaRules.NotEqual | wind/parsing/_parsing.py:71-76 | the value unchanged exactly when it differs from the prohibited one, else ValueError naming it |
| SchemaRules.Const | wind/parsing/_parsing.py:78-80 | the literal value itself |
| SchemaRules.Lower | wind/parsing/_parsing.py:82-84 | same length and no upper-case letter left |
| SchemaRules.Upper | wind/parsing/_parsing.py:86-88 | same length and no lower-case letter left |
| SchemaRules.LowerAt | wind/parsing/_parsing.py:82-84 | each character becomes its own lower-case form; non-letters are unchanged; an upper-case letter can be recovered |
| SchemaRules.UpperAt | wind/parsing/_parsing.py:86-88 | each character becomes its own upper-case form; non-letters are unchanged; a lower-case letter can be recovered |
| SchemaRules.LowerIdempotent | wind/parsing/_parsing.py:82-84 | lower-casing twice is lower-casing once |
| SchemaRules.UpperIdempotent | wind/parsing/_parsing.py:86-88 | upper-casing twice is upper-casing once |
| SchemaRules.CaseForgotten | wind/parsing/_parsing.py:82-88 | lower after upper is lower, and upper after lower is upper |
| Scenarios.DateWins | wind/parsing/_parsing.py:59-61 | a date ending after the time and no earlier than the noise word is chosen |
| Scenarios.TimeWins | wind/parsing/_parsing.py:59-61 | the time alternative, listed first, wins whenever nothing ends further, ties included |
| Scenarios.NoiseWins | wind/parsing/_parsing.py:59-61 | the noise word is chosen when it ends strictly after every other alternative |
| Scenarios.ShowAt11Tokens | wind/parsing/test/test_parsing.py:32 | '10.21 Show 11:00 PM' tokenizes as the date 10/21, the noise word `Show` and the time 11:00 pm |
| Scenarios.ShowAt11Resolves | wind/parsing/test/test_parsing.py:56 | through the fallback it gives October 21 of the current year at 23:00:00 |
| Scenarios.EightPmTime | wind/parsing/test/test_parsing.py:33 | in '8pm' the time and the noise word both end at 3, and the time is chosen |
| Scenarios.EightPmTokens | wind/parsing/test/test_parsing.py:33 | '8pm' tokenizes as the single time 8 pm |
| Scenarios.EightPmMissesYear | wind/parsing/test/test_parsing.py:57 | the fallback alone raises KeyError 'year' for '8pm'; the expected result comes from the external parser |
| Scenarios.DoorsAtNoise | wind/parsing/test/test_parsing.py:35 | '09:30,' is one noise word, longer than the time 09:30 |
| Scenarios.ZipNoise | wind/parsing/_parsing.py:43-61 | in `94110` the four-digit time 94:11 ends at 4 and the noise word at 5, so the noise word is chosen |
| Scenarios.ThursdayTokens | wind/parsing/test/test_parsing.py:37 | 'Thu, 12/02/10 8:00 PM' tokenizes as the noise word `Thu,`, the date 12/02/10 and the time 8:00 pm |
| Scenarios.ThursdayResolves | wind/parsing/test/test_parsing.py:64 | through the fallback it gives 2010-12-02 20:00:00 whatever the keyword defaults and the current moment |
| Scenarios.DoorsNoteNoise | wind/parsing/test/test_parsing.py:66 | in '(7:00 PM DOORS)' the parenthesised time is one noise word |

## Left out

- `datetime.strptime`, `re.search` and `dateutil.parser.parse` are foreign calls. The model takes their outcomes as parameters of `Extraction.ParseDatetime`: the strptime result or mismatch, whether the pattern matched, and the external result or failure.
- `datetime.now()` is a clock read; the current moment is a parameter.
- `logging.exception` is I/O and is not modelled. The unused `pytz` and `time` imports are not modelled either.
- `parse_time`, `parse_date`, `parse_address` and `parse_price` have no behaviour: they have empty bodies or `pass`.
- Results from the external parser and from `strptime` are modelled without microseconds or `tzinfo`. Their `isoformat()` would then carry extra suffixes.
- pyparsing itself is not modelled, only this grammar's behaviour: whitespace skipping, the longest-match `^`, first-match `|`, `Optional`, `OneOrMore` and `stringEnd`. Python 2's `ParseResults` truthiness of an empty group is not modelled because every group here is non-empty.
- SchemaRules.Lower: ASCII case mapping only; Python's Unicode case mapping is not modelled.
- SchemaRules.Upper: ASCII case mapping only; Python's Unicode case mapping is not modelled.
- SchemaRules.NotEmpty: takes strings only, while the source accepts any value and rejects every falsy one (`None`, `0`, `[]`).
- FieldCompletion.Completion: Python 2's `datetime(...)` converts its arguments to C `int`s, in order, before any range check, so a field of 2^31 or more raises `OverflowError`. The model reports `OutOfRange` (`ValueError`) there, and `HourNotInteger` where an earlier oversized field would raise `OverflowError` first. Integers are unbounded in the model.
- Keyword defaults are typed as integers. A non-integer default that reaches `datetime(...)` raises `TypeError` in the source and is not modelled.
- Extraction.ParseDatetime: the external parser is modelled as either succeeding or raising `ValueError`. Any other exception it raises escapes `parse_datetime` and is not modelled.
- SchemaRules.NotEqual: compares strings only, while the source accepts any value with `==`.
- The test file's memory cases (`testParseDateTimeMemory`) assert nothing and are not modelled.
