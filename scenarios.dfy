/** Inputs from the repository's tests that reach the grammar fallback,
    evaluated through the model. */
module Scenarios {
  import opened Wrappers
  import opened Text
  import opened Calendar
  import opened Errors
  import opened Grammar
  import opened FieldCompletion
  import opened Extraction

  lemma LongestOfFour(a: Option<Lexeme>, b: Option<Lexeme>, c: Option<Lexeme>, d: Option<Lexeme>)
    ensures Longest([a, b, c, d]) == Longer(Longer(Longer(Longer(None, a), b), c), d)
  {
    var alts := [a, b, c, d];
    assert alts[..3][..2][..1][..0] == [];
    assert alts[..3][..2][..1] == [a];
    assert alts[..3][..2] == [a, b];
    assert alts[..3] == [a, b, c];
    assert Longest([a]) == Longer(None, a);
    assert Longest([a, b]) == Longer(Longest([a]), b);
    assert Longest([a, b, c]) == Longer(Longest([a, b]), c);
    assert Longest(alts) == Longer(Longest([a, b, c]), d);
  }

  /** The choice at a position, spelled out as the fold over the four
      alternatives. */
  lemma ChooseUnfolded(s: string, i: nat)
    requires i <= |s|
    ensures Choose(s, i) ==
      Longer(Longer(Longer(Longer(None, TimeAlt(s, i)), DateAlt(s, i)), TzAlt(s, i)), NoiseAlt(s, i))
  {
    LongestOfFour(TimeAlt(s, i), DateAlt(s, i), TzAlt(s, i), NoiseAlt(s, i));
  }

  /** At a non-digit noise character that does not start a timezone, only
      the noise alternative matches. */
  lemma WordAt(s: string, i: nat)
    requires i <= |s|
    requires SkipWhite(s, i) < |s| && IsNoiseChar(s[SkipWhite(s, i)]) && !IsDigit(s[SkipWhite(s, i)])
    requires TzAlt(s, i).None?
    ensures Choose(s, i) == Some(Lexeme(Noise, SkipWhite(s, i), NoiseEnd(s, SkipWhite(s, i))))
  {
    assert TimeAlt(s, i).None? && DateAlt(s, i).None?;
    ChooseUnfolded(s, i);
  }

  /** At a digit no timezone matches and the noise word runs as far as the
      noise characters go. */
  lemma DigitAt(s: string, i: nat)
    requires i <= |s|
    requires SkipWhite(s, i) < |s| && IsDigit(s[SkipWhite(s, i)])
    ensures TzAlt(s, i) == None
    ensures NoiseAlt(s, i) == Some(Lexeme(Noise, SkipWhite(s, i), NoiseEnd(s, SkipWhite(s, i))))
  {
    var j := SkipWhite(s, i);
    if j + 3 <= |s| {
      assert s[j] == s[j..j + 3][0];
    }
  }

  /** The date alternative is chosen when it ends strictly after the time
      alternative and no later than the noise word, and no timezone matches. */
  lemma DateWins(s: string, i: nat)
    requires i <= |s|
    requires DateAlt(s, i).Some? && TzAlt(s, i).None?
    requires TimeAlt(s, i).None? || TimeAlt(s, i).value.end < DateAlt(s, i).value.end
    requires NoiseAlt(s, i).None? || NoiseAlt(s, i).value.end <= DateAlt(s, i).value.end
    ensures Choose(s, i) == DateAlt(s, i)
  {
    ChooseUnfolded(s, i);
  }

  /** The time alternative, listed first, is chosen when no other one ends
      further. */
  lemma TimeWins(s: string, i: nat)
    requires i <= |s|
    requires TimeAlt(s, i).Some?
    requires DateAlt(s, i).None? || DateAlt(s, i).value.end <= TimeAlt(s, i).value.end
    requires TzAlt(s, i).None? || TzAlt(s, i).value.end <= TimeAlt(s, i).value.end
    requires NoiseAlt(s, i).None? || NoiseAlt(s, i).value.end <= TimeAlt(s, i).value.end
    ensures Choose(s, i) == TimeAlt(s, i)
  {
    ChooseUnfolded(s, i);
  }

  /** The noise word is chosen when it ends strictly after every other
      alternative. */
  lemma NoiseWins(s: string, i: nat)
    requires i <= |s|
    requires NoiseAlt(s, i).Some?
    requires TimeAlt(s, i).None? || TimeAlt(s, i).value.end < NoiseAlt(s, i).value.end
    requires DateAlt(s, i).None? || DateAlt(s, i).value.end < NoiseAlt(s, i).value.end
    requires TzAlt(s, i).None? || TzAlt(s, i).value.end < NoiseAlt(s, i).value.end
    ensures Choose(s, i) == NoiseAlt(s, i)
  {
    ChooseUnfolded(s, i);
  }

  /** A single piece that spans the input, the choice at its start, is what
      the grammar yields. */
  lemma OnePiece(s: string, a: Lexeme)
    requires Tiles(s, 0, [a]) && Chosen(s, a)
    ensures Tokenize(s) == Some([a])
  {
    assert AllChosen(s, [a]);
    TokenizeCharacterized(s, [a]);
  }

  /** Three pieces that tile the input, each the choice at its own start,
      are what the grammar yields. */
  lemma ThreePieces(s: string, a: Lexeme, b: Lexeme, c: Lexeme)
    requires Tiles(s, 0, [a, b, c]) && Chosen(s, a) && Chosen(s, b) && Chosen(s, c)
    ensures Tokenize(s) == Some([a, b, c])
  {
    assert AllChosen(s, [a, b, c]);
    TokenizeCharacterized(s, [a, b, c]);
  }

  // -------------------------------------------------------------------
  // "10.21 Show 11:00 PM": no year, so the current year is used

  const ShowAt11 := "10.21 Show 11:00 PM"

  lemma ShowAt11Month()
    ensures Integer(ShowAt11, 0) == Some(Num(10, 2))
  {
    assert SkipWhite(ShowAt11, 0) == 0;
    assert DigitsEnd(ShowAt11, 2) == 2;
    assert ShowAt11[0..2] == "10" && DigitsValue("1") == 1;
  }

  lemma ShowAt11Day()
    ensures Integer(ShowAt11, 3) == Some(Num(21, 5))
  {
    assert SkipWhite(ShowAt11, 3) == 3;
    assert DigitsEnd(ShowAt11, 5) == 5;
    assert ShowAt11[3..5] == "21" && DigitsValue("2") == 2;
  }

  lemma ShowAt11Dot()
    ensures Punct(ShowAt11, 2, "/.") == Some(3) && Punct(ShowAt11, 5, "/.") == None
  {
    assert SkipWhite(ShowAt11, 2) == 2;
    assert SkipWhite(ShowAt11, 6) == 6 && SkipWhite(ShowAt11, 5) == 6;
  }

  lemma ShowAt11DateAlt()
    ensures DateAlt(ShowAt11, 0) == Some(Lexeme(Date(DateSpec(10, 21, None)), 0, 6))
  {
    ShowAt11Month();
    ShowAt11Day();
    ShowAt11Dot();
    assert SkipWhite(ShowAt11, 0) == 0;
  }

  lemma ShowAt11TimeAlt0()
    ensures TimeAlt(ShowAt11, 0) == Some(Lexeme(Time(Clock(10, None, None, None)), 0, 2))
  {
    ShowAt11Month();
    assert SkipWhite(ShowAt11, 0) == 0;
    assert MilitaryTime(ShowAt11, 0) == None;
    assert SkipWhite(ShowAt11, 2) == 2 && Punct(ShowAt11, 2, ":") == None;
    assert ColonInteger(ShowAt11, 2) == (None, 2);
    assert AmPmSuffix(ShowAt11, 2) == (None, 2);
  }

  lemma ShowAt11Number0()
    ensures NoiseEnd(ShowAt11, 0) == 2
  {
    assert NoiseEnd(ShowAt11, 2) == 2;
  }

  lemma ShowAt11Rest0()
    ensures TzAlt(ShowAt11, 0) == None && NoiseAlt(ShowAt11, 0) == Some(Lexeme(Noise, 0, 2))
  {
    assert SkipWhite(ShowAt11, 0) == 0;
    DigitAt(ShowAt11, 0);
    ShowAt11Number0();
  }

  lemma ShowAt11Date()
    ensures Choose(ShowAt11, 0) == Some(Lexeme(Date(DateSpec(10, 21, None)), 0, 6))
  {
    ShowAt11DateAlt();
    ShowAt11TimeAlt0();
    ShowAt11Rest0();
    DateWins(ShowAt11, 0);
  }

  lemma ShowAt11NotZone()
    ensures TzAlt(ShowAt11, 6) == None
  {
    assert SkipWhite(ShowAt11, 6) == 6;
    assert ShowAt11[6..9] == "Sho";
  }

  lemma ShowAt11WordEnd()
    ensures NoiseEnd(ShowAt11, 6) == 10
  {
    assert NoiseEnd(ShowAt11, 10) == 10;
    assert NoiseEnd(ShowAt11, 8) == 10;
  }

  lemma ShowAt11Word()
    ensures Choose(ShowAt11, 6) == Some(Lexeme(Noise, 6, 10))
  {
    assert SkipWhite(ShowAt11, 6) == 6;
    ShowAt11NotZone();
    ShowAt11WordEnd();
    WordAt(ShowAt11, 6);
  }

  lemma ShowAt11Hour()
    ensures Integer(ShowAt11, 10) == Some(Num(11, 13))
  {
    assert SkipWhite(ShowAt11, 11) == 11 && SkipWhite(ShowAt11, 10) == 11;
    assert DigitsEnd(ShowAt11, 13) == 13;
    assert ShowAt11[11..13] == "11" && DigitsValue("1") == 1;
  }

  lemma ShowAt11Minutes()
    ensures ColonInteger(ShowAt11, 13) == (Some(0), 16)
  {
    assert SkipWhite(ShowAt11, 13) == 13 && Punct(ShowAt11, 13, ":") == Some(14);
    assert SkipWhite(ShowAt11, 14) == 14;
    assert DigitsEnd(ShowAt11, 16) == 16;
    assert ShowAt11[14..16] == "00" && DigitsValue("0") == 0;
  }

  lemma ShowAt11Suffix()
    ensures ColonInteger(ShowAt11, 16) == (None, 17)
    ensures AmPmSuffix(ShowAt11, 17) == (Some(Pm), 19)
  {
    assert SkipWhite(ShowAt11, 17) == 17 && SkipWhite(ShowAt11, 16) == 17;
    assert Punct(ShowAt11, 16, ":") == None;
  }

  lemma ShowAt11TimeAlt()
    ensures TimeAlt(ShowAt11, 10) == Some(Lexeme(Time(Clock(11, Some(0), None, Some(Pm))), 11, 19))
  {
    ShowAt11Hour();
    ShowAt11Minutes();
    ShowAt11Suffix();
    assert SkipWhite(ShowAt11, 11) == 11 && SkipWhite(ShowAt11, 10) == 11;
    assert MilitaryTime(ShowAt11, 10) == None;
  }

  lemma ShowAt11NoDate11()
    ensures DateAlt(ShowAt11, 11) == None
  {
    ShowAt11Hour();
    assert SkipWhite(ShowAt11, 11) == 11 && SkipWhite(ShowAt11, 10) == 11;
    assert Integer(ShowAt11, 11) == Integer(ShowAt11, 10);
    assert SkipWhite(ShowAt11, 13) == 13 && Punct(ShowAt11, 13, "/.") == None;
  }

  lemma ShowAt11Number11()
    ensures NoiseEnd(ShowAt11, 11) == 16
  {
    assert NoiseEnd(ShowAt11, 16) == 16;
    assert NoiseEnd(ShowAt11, 14) == 16;
  }

  lemma ShowAt11Rest11()
    ensures DateAlt(ShowAt11, 11) == None
    ensures TzAlt(ShowAt11, 11) == None && NoiseAlt(ShowAt11, 11) == Some(Lexeme(Noise, 11, 16))
  {
    ShowAt11NoDate11();
    assert SkipWhite(ShowAt11, 11) == 11;
    DigitAt(ShowAt11, 11);
    ShowAt11Number11();
  }

  lemma ShowAt11Time()
    ensures Choose(ShowAt11, 11) == Some(Lexeme(Time(Clock(11, Some(0), None, Some(Pm))), 11, 19))
  {
    ShowAt11TimeAlt();
    assert SkipWhite(ShowAt11, 11) == 11 && SkipWhite(ShowAt11, 10) == 11;
    assert TimeAlt(ShowAt11, 11) == TimeAlt(ShowAt11, 10);
    ShowAt11Rest11();
    TimeWins(ShowAt11, 11);
  }

  lemma ShowAt11Tiles()
    ensures Tiles(ShowAt11, 0, [
      Lexeme(Date(DateSpec(10, 21, None)), 0, 6),
      Lexeme(Noise, 6, 10),
      Lexeme(Time(Clock(11, Some(0), None, Some(Pm))), 11, 19)])
  {
  }

  /** test_parsing.py: the grammar accepts '10.21 Show 11:00 PM' as a date,
      a noise word and a time. */
  lemma ShowAt11Tokens()
    ensures Tokenize(ShowAt11) == Some([
      Lexeme(Date(DateSpec(10, 21, None)), 0, 6),
      Lexeme(Noise, 6, 10),
      Lexeme(Time(Clock(11, Some(0), None, Some(Pm))), 11, 19)])
  {
    ShowAt11Tiles();
    ShowAt11Date();
    ShowAt11Word();
    ShowAt11Time();
    ThreePieces(ShowAt11, Lexeme(Date(DateSpec(10, 21, None)), 0, 6), Lexeme(Noise, 6, 10),
      Lexeme(Time(Clock(11, Some(0), None, Some(Pm))), 11, 19));
  }

  lemma ShowAt11Collected()
    ensures Collect([
      Lexeme(Date(DateSpec(10, 21, None)), 0, 6),
      Lexeme(Noise, 6, 10),
      Lexeme(Time(Clock(11, Some(0), None, Some(Pm))), 11, 19)]) ==
      Tokens(Some(Clock(11, Some(0), None, Some(Pm))), Some(DateSpec(10, 21, None)), None)
  {
    var d := Lexeme(Date(DateSpec(10, 21, None)), 0, 6);
    var w := Lexeme(Noise, 6, 10);
    var t := Lexeme(Time(Clock(11, Some(0), None, Some(Pm))), 11, 19);
    assert [d, w, t][..2] == [d, w] && [d, w][..1] == [d] && [d][..0] == [];
    assert Collect([d]) == Tokens(None, Some(d.piece.date), None);
    assert Collect([d, w]) == Collect([d]);
  }

  lemma ShowAt11Completion(now: DateTime)
    requires ValidDateTime(now)
    ensures Completion(Tokens(Some(Clock(11, Some(0), None, Some(Pm))), Some(DateSpec(10, 21, None)), None), map[], now) ==
      Success(DateTime(now.year, 10, 21, 23, 0, 0))
  {
    var d := DateSpec(10, 21, None);
    assert Resolve(d, Year, map[], now) == now.year;
    assert Resolve(d, Month, map[], now) == 10 && Resolve(d, Day, map[], now) == 21;
    assert AdjustHour(11, Some(Pm)) == 23;
    assert DaysInMonth(now.year, 10) == 31;
    assert ValidDateTime(DateTime(now.year, 10, 21, 23, 0, 0));
  }

  /** test_parsing.py: '10.21 Show 11:00 PM' gives 23:00 on October 21 of the
      current year. */
  lemma ShowAt11Resolves(now: DateTime)
    requires ValidDateTime(now)
    ensures Fallback(ShowAt11, map[], now) == Success(DateTime(now.year, 10, 21, 23, 0, 0))
  {
    ShowAt11Tokens();
    ShowAt11Collected();
    ShowAt11Completion(now);
  }

  // -------------------------------------------------------------------
  // "8pm": the time alternative and the noise word both end at 3, and
  // the time, listed first, is kept

  const EightPm := "8pm"

  lemma EightPmTimeAlt()
    ensures TimeAlt(EightPm, 0) == Some(Lexeme(Time(Clock(8, None, None, Some(Pm))), 0, 3))
  {
    assert SkipWhite(EightPm, 0) == 0 && DigitsEnd(EightPm, 1) == 1;
    assert EightPm[0..1] == "8";
    assert Integer(EightPm, 0) == Some(Num(8, 1));
    assert MilitaryTime(EightPm, 0) == None;
    assert SkipWhite(EightPm, 1) == 1 && Punct(EightPm, 1, ":") == None;
    assert ColonInteger(EightPm, 1) == (None, 1);
    assert AmPmSuffix(EightPm, 1) == (Some(Pm), 3);
  }

  lemma EightPmRest()
    ensures DateAlt(EightPm, 0) == None && TzAlt(EightPm, 0) == None
    ensures NoiseAlt(EightPm, 0) == Some(Lexeme(Noise, 0, 3))
  {
    assert SkipWhite(EightPm, 0) == 0 && DigitsEnd(EightPm, 1) == 1;
    assert SkipWhite(EightPm, 1) == 1 && Punct(EightPm, 1, "/.") == None;
    DigitAt(EightPm, 0);
    assert NoiseEnd(EightPm, 3) == 3;
  }

  lemma EightPmTiles()
    ensures Tiles(EightPm, 0, [Lexeme(Time(Clock(8, None, None, Some(Pm))), 0, 3)])
  {
  }

  lemma EightPmTime()
    ensures Choose(EightPm, 0) == Some(Lexeme(Time(Clock(8, None, None, Some(Pm))), 0, 3))
  {
    EightPmTimeAlt();
    EightPmRest();
    TimeWins(EightPm, 0);
  }

  /** test_parsing.py: '8pm' is accepted by the grammar, as one time piece. */
  lemma EightPmTokens()
    ensures Tokenize(EightPm) == Some([Lexeme(Time(Clock(8, None, None, Some(Pm))), 0, 3)])
  {
    var lx := Lexeme(Time(Clock(8, None, None, Some(Pm))), 0, 3);
    EightPmTime();
    EightPmTiles();
    OnePiece(EightPm, lx);
  }

  /** '8pm' has no date piece, so the fallback on its own raises the missing
      `year` key; the expected 20:00 of the current day comes from the
      external parser. */
  lemma EightPmMissesYear(kwargs: map<Key, int>, now: DateTime)
    ensures Fallback(EightPm, kwargs, now) == Failure(MissingKey(Year))
  {
    EightPmTokens();
    assert Collect([Lexeme(Time(Clock(8, None, None, Some(Pm))), 0, 3)]).datespec == None by {
      assert [Lexeme(Time(Clock(8, None, None, Some(Pm))), 0, 3)][..0] == [];
    }
  }

  // -------------------------------------------------------------------
  // "Thu, 12/02/10 8:00 PM": two-digit year, pm hour

  const Thursday := "Thu, 12/02/10 8:00 PM"

  lemma ThursdayNotZone()
    ensures TzAlt(Thursday, 0) == None
  {
    assert SkipWhite(Thursday, 0) == 0;
    assert Thursday[0..3] == "Thu";
  }

  lemma ThursdayWordEnd()
    ensures NoiseEnd(Thursday, 0) == 4
  {
    assert NoiseEnd(Thursday, 4) == 4;
    assert NoiseEnd(Thursday, 2) == 4;
  }

  lemma ThursdayWord()
    ensures Choose(Thursday, 0) == Some(Lexeme(Noise, 0, 4))
  {
    assert SkipWhite(Thursday, 0) == 0;
    ThursdayNotZone();
    ThursdayWordEnd();
    WordAt(Thursday, 0);
  }

  lemma ThursdayMonth()
    ensures Integer(Thursday, 5) == Some(Num(12, 7))
  {
    assert SkipWhite(Thursday, 5) == 5;
    assert DigitsEnd(Thursday, 7) == 7;
    assert Thursday[5..7] == "12" && DigitsValue("1") == 1;
  }

  lemma ThursdayDay()
    ensures Integer(Thursday, 8) == Some(Num(2, 10))
  {
    assert SkipWhite(Thursday, 8) == 8;
    assert DigitsEnd(Thursday, 10) == 10;
    assert Thursday[8..10] == "02" && DigitsValue("0") == 0;
  }

  lemma ThursdayYear()
    ensures Integer(Thursday, 11) == Some(Num(10, 13))
  {
    assert SkipWhite(Thursday, 11) == 11;
    assert DigitsEnd(Thursday, 13) == 13;
    assert Thursday[11..13] == "10" && DigitsValue("1") == 1;
  }

  lemma ThursdaySlashes()
    ensures Punct(Thursday, 7, "/.") == Some(8) && Punct(Thursday, 10, "/.") == Some(11)
  {
    assert SkipWhite(Thursday, 7) == 7 && SkipWhite(Thursday, 10) == 10;
  }

  lemma ThursdayDateAlt()
    ensures DateAlt(Thursday, 5) == Some(Lexeme(Date(DateSpec(12, 2, Some(10))), 5, 13))
  {
    ThursdayMonth();
    ThursdayDay();
    ThursdayYear();
    ThursdaySlashes();
    assert SkipWhite(Thursday, 5) == 5;
  }

  lemma ThursdayTimeAlt5()
    ensures TimeAlt(Thursday, 5) == Some(Lexeme(Time(Clock(12, None, None, None)), 5, 7))
  {
    ThursdayMonth();
    assert SkipWhite(Thursday, 5) == 5;
    assert MilitaryTime(Thursday, 5) == None;
    assert SkipWhite(Thursday, 7) == 7 && Punct(Thursday, 7, ":") == None;
    assert ColonInteger(Thursday, 7) == (None, 7);
    assert AmPmSuffix(Thursday, 7) == (None, 7);
  }

  lemma ThursdayNumber5()
    ensures NoiseEnd(Thursday, 5) == 7
  {
    assert NoiseEnd(Thursday, 7) == 7;
  }

  lemma ThursdayRest5()
    ensures TzAlt(Thursday, 5) == None && NoiseAlt(Thursday, 5) == Some(Lexeme(Noise, 5, 7))
  {
    assert SkipWhite(Thursday, 5) == 5;
    DigitAt(Thursday, 5);
    ThursdayNumber5();
  }

  lemma ThursdayDate()
    ensures Choose(Thursday, 5) == Some(Lexeme(Date(DateSpec(12, 2, Some(10))), 5, 13))
  {
    ThursdayDateAlt();
    ThursdayTimeAlt5();
    ThursdayRest5();
    DateWins(Thursday, 5);
  }

  lemma ThursdayHour()
    ensures Integer(Thursday, 14) == Some(Num(8, 15))
  {
    assert SkipWhite(Thursday, 14) == 14;
    assert DigitsEnd(Thursday, 15) == 15;
    assert Thursday[14..15] == "8";
  }

  lemma ThursdayMinutes()
    ensures ColonInteger(Thursday, 15) == (Some(0), 18)
  {
    assert SkipWhite(Thursday, 15) == 15 && Punct(Thursday, 15, ":") == Some(16);
    assert SkipWhite(Thursday, 16) == 16;
    assert DigitsEnd(Thursday, 18) == 18;
    assert Thursday[16..18] == "00" && DigitsValue("0") == 0;
  }

  lemma ThursdaySuffix()
    ensures ColonInteger(Thursday, 18) == (None, 19)
    ensures AmPmSuffix(Thursday, 19) == (Some(Pm), 21)
  {
    assert SkipWhite(Thursday, 19) == 19 && SkipWhite(Thursday, 18) == 19;
    assert Punct(Thursday, 18, ":") == None;
  }

  lemma ThursdayTimeAlt()
    ensures TimeAlt(Thursday, 14) == Some(Lexeme(Time(Clock(8, Some(0), None, Some(Pm))), 14, 21))
  {
    ThursdayHour();
    ThursdayMinutes();
    ThursdaySuffix();
    assert SkipWhite(Thursday, 14) == 14;
    assert MilitaryTime(Thursday, 14) == None;
  }

  lemma ThursdayNoDate14()
    ensures DateAlt(Thursday, 14) == None
  {
    ThursdayHour();
    assert SkipWhite(Thursday, 15) == 15 && Punct(Thursday, 15, "/.") == None;
  }

  lemma ThursdayNumber14()
    ensures NoiseEnd(Thursday, 14) == 18
  {
    assert NoiseEnd(Thursday, 18) == 18;
    assert NoiseEnd(Thursday, 16) == 18;
  }

  lemma ThursdayRest14()
    ensures DateAlt(Thursday, 14) == None
    ensures TzAlt(Thursday, 14) == None && NoiseAlt(Thursday, 14) == Some(Lexeme(Noise, 14, 18))
  {
    ThursdayNoDate14();
    assert SkipWhite(Thursday, 14) == 14;
    DigitAt(Thursday, 14);
    ThursdayNumber14();
  }

  lemma ThursdayTime()
    ensures Choose(Thursday, 14) == Some(Lexeme(Time(Clock(8, Some(0), None, Some(Pm))), 14, 21))
  {
    ThursdayTimeAlt();
    ThursdayRest14();
    TimeWins(Thursday, 14);
  }

  lemma ThursdayTiles()
    ensures Tiles(Thursday, 0, [
      Lexeme(Noise, 0, 4),
      Lexeme(Date(DateSpec(12, 2, Some(10))), 5, 13),
      Lexeme(Time(Clock(8, Some(0), None, Some(Pm))), 14, 21)])
  {
  }

  /** test_parsing.py: the grammar accepts 'Thu, 12/02/10 8:00 PM' as a noise
      word, a date with a year and a time. */
  lemma ThursdayTokens()
    ensures Tokenize(Thursday) == Some([
      Lexeme(Noise, 0, 4),
      Lexeme(Date(DateSpec(12, 2, Some(10))), 5, 13),
      Lexeme(Time(Clock(8, Some(0), None, Some(Pm))), 14, 21)])
  {
    ThursdayTiles();
    ThursdayWord();
    ThursdayDate();
    ThursdayTime();
    ThreePieces(Thursday, Lexeme(Noise, 0, 4), Lexeme(Date(DateSpec(12, 2, Some(10))), 5, 13),
      Lexeme(Time(Clock(8, Some(0), None, Some(Pm))), 14, 21));
  }

  lemma ThursdayCollected()
    ensures Collect([
      Lexeme(Noise, 0, 4),
      Lexeme(Date(DateSpec(12, 2, Some(10))), 5, 13),
      Lexeme(Time(Clock(8, Some(0), None, Some(Pm))), 14, 21)]) ==
      Tokens(Some(Clock(8, Some(0), None, Some(Pm))), Some(DateSpec(12, 2, Some(10))), None)
  {
    var w := Lexeme(Noise, 0, 4);
    var d := Lexeme(Date(DateSpec(12, 2, Some(10))), 5, 13);
    var t := Lexeme(Time(Clock(8, Some(0), None, Some(Pm))), 14, 21);
    assert [w, d, t][..2] == [w, d] && [w, d][..1] == [w] && [w][..0] == [];
    assert Collect([w]) == Tokens(None, None, None);
    assert Collect([w, d]) == Tokens(None, Some(d.piece.date), None);
  }

  lemma ThursdayCompletion(kwargs: map<Key, int>, now: DateTime)
    ensures Completion(Tokens(Some(Clock(8, Some(0), None, Some(Pm))), Some(DateSpec(12, 2, Some(10))), None), kwargs, now) ==
      Success(DateTime(2010, 12, 2, 20, 0, 0))
  {
    var d := DateSpec(12, 2, Some(10));
    assert Resolve(d, Year, kwargs, now) == 2010;
    assert Resolve(d, Month, kwargs, now) == 12 && Resolve(d, Day, kwargs, now) == 2;
    assert AdjustHour(8, Some(Pm)) == 20;
    assert DaysInMonth(2010, 12) == 31;
    assert ValidDateTime(DateTime(2010, 12, 2, 20, 0, 0));
  }

  /** test_parsing.py: 'Thu, 12/02/10 8:00 PM' gives 2010-12-02 20:00 whatever
      the keyword defaults and the current moment: every field is captured. */
  lemma ThursdayResolves(kwargs: map<Key, int>, now: DateTime)
    ensures Fallback(Thursday, kwargs, now) == Success(DateTime(2010, 12, 2, 20, 0, 0))
  {
    ThursdayTokens();
    ThursdayCollected();
    ThursdayCompletion(kwargs, now);
  }

  // -------------------------------------------------------------------
  // "09:30,": the trailing comma makes the noise word one character longer
  // than the time, so the time is swallowed as noise

  const DoorsAt := "09:30,"

  lemma DoorsAtHour()
    ensures Integer(DoorsAt, 0) == Some(Num(9, 2))
  {
    assert SkipWhite(DoorsAt, 0) == 0 && DigitsEnd(DoorsAt, 2) == 2;
    assert DoorsAt[0..2] == "09" && DigitsValue("0") == 0;
  }

  lemma DoorsAtMinutes()
    ensures ColonInteger(DoorsAt, 2) == (Some(30), 5)
  {
    assert SkipWhite(DoorsAt, 2) == 2 && Punct(DoorsAt, 2, ":") == Some(3);
    assert SkipWhite(DoorsAt, 3) == 3 && DigitsEnd(DoorsAt, 5) == 5;
    assert DoorsAt[3..5] == "30" && DigitsValue("3") == 3;
  }

  lemma DoorsAtTimeAlt()
    ensures TimeAlt(DoorsAt, 0) == Some(Lexeme(Time(Clock(9, Some(30), None, None)), 0, 5))
  {
    DoorsAtHour();
    DoorsAtMinutes();
    assert SkipWhite(DoorsAt, 0) == 0;
    assert MilitaryTime(DoorsAt, 0) == None;
    assert SkipWhite(DoorsAt, 5) == 5 && Punct(DoorsAt, 5, ":") == None;
    assert ColonInteger(DoorsAt, 5) == (None, 5);
    assert AmPmSuffix(DoorsAt, 5) == (None, 5);
  }

  lemma DoorsAtRest()
    ensures DateAlt(DoorsAt, 0) == None && TzAlt(DoorsAt, 0) == None
    ensures NoiseAlt(DoorsAt, 0) == Some(Lexeme(Noise, 0, 6))
  {
    DoorsAtHour();
    assert SkipWhite(DoorsAt, 2) == 2 && Punct(DoorsAt, 2, "/.") == None;
    assert SkipWhite(DoorsAt, 0) == 0;
    DigitAt(DoorsAt, 0);
    assert NoiseEnd(DoorsAt, 6) == 6 && NoiseEnd(DoorsAt, 4) == 6;
  }

  /** test_parsing.py: in 'Doors Open 09:30, Show Starts 11pm' the '09:30,'
      is read as one noise word, not as a time. */
  lemma DoorsAtNoise()
    ensures Choose(DoorsAt, 0) == Some(Lexeme(Noise, 0, 6))
  {
    DoorsAtTimeAlt();
    DoorsAtRest();
    NoiseWins(DoorsAt, 0);
  }

  // -------------------------------------------------------------------
  // "94110": the four-digit form takes the first four digits of a longer
  // run, and the noise word, one digit longer, wins

  const Zip := "94110"

  lemma ZipSplit()
    ensures Zip[0..4] == "9411" && AllDigits(Zip[0..4])
    ensures SplitFour(Zip, 0) == MilTime(94, 11)
  {
    assert Zip[0..4] == "9411";
    assert Zip[0..2] == "94" && DigitsValue("9") == 9;
    assert Zip[2..4] == "11" && DigitsValue("1") == 1;
  }

  lemma ZipTimeAlt()
    ensures TimeAlt(Zip, 0) == Some(Lexeme(Time(MilTime(94, 11)), 0, 4))
  {
    assert SkipWhite(Zip, 0) == 0;
    ZipSplit();
  }

  lemma ZipRun()
    ensures Integer(Zip, 0).Some? && Integer(Zip, 0).value.end == 5
  {
    assert SkipWhite(Zip, 0) == 0 && DigitsEnd(Zip, 5) == 5;
  }

  lemma ZipNotDate()
    ensures DateAlt(Zip, 0) == None
  {
    ZipRun();
    assert SkipWhite(Zip, 5) == 5 && Punct(Zip, 5, "/.") == None;
  }

  lemma ZipRest()
    ensures DateAlt(Zip, 0) == None && TzAlt(Zip, 0) == None
    ensures NoiseAlt(Zip, 0) == Some(Lexeme(Noise, 0, 5))
  {
    ZipNotDate();
    assert SkipWhite(Zip, 0) == 0;
    DigitAt(Zip, 0);
    assert NoiseEnd(Zip, 5) == 5;
  }

  /** A five-digit run such as a postal code is one noise word: the
      four-digit time it starts with ends one character earlier. */
  lemma ZipNoise()
    ensures Choose(Zip, 0) == Some(Lexeme(Noise, 0, 5))
  {
    ZipTimeAlt();
    ZipRest();
    NoiseWins(Zip, 0);
  }

  // -------------------------------------------------------------------
  // "(7:00 PM DOORS)": a time behind an opening parenthesis is noise

  const DoorsNote := "(7:00 PM DOORS)"

  /** test_parsing.py: in 'Thu, 12/02/10 8:00 PM PST (7:00 PM DOORS)' the
      parenthesised door time is one noise word, so it never competes with
      the show time. */
  lemma DoorsNoteNoise()
    ensures Choose(DoorsNote, 0) == Some(Lexeme(Noise, 0, 5))
  {
    assert SkipWhite(DoorsNote, 0) == 0;
    DoorsNoteNotZone();
    DoorsNoteEnd();
    WordAt(DoorsNote, 0);
  }

  lemma DoorsNoteNotZone()
    ensures TzAlt(DoorsNote, 0) == None
  {
    assert SkipWhite(DoorsNote, 0) == 0;
    assert DoorsNote[0..3] == "(7:";
  }

  lemma DoorsNoteEnd()
    ensures NoiseEnd(DoorsNote, 0) == 5
  {
    assert NoiseEnd(DoorsNote, 5) == 5;
    assert NoiseEnd(DoorsNote, 3) == 5;
  }
}
