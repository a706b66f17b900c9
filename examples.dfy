/**
 * Worked inputs: what the parser makes of particular lines and texts. Each example is
 * split into the shape of the line (its dialect and pieces), the numbers read from the
 * pieces, and their combination.
 */
module CalculatorExamples {
  import opened Wrappers
  import opened JsNumber
  import opened JsText
  import opened TimeValue
  import opened Calculator
  import opened CalculatorProperties

  // ---------------------------------------------------------------------------
  // parseInt

  /** The value of a one-digit numeral. */
  lemma DigitsValueSingle(c: char)
    requires IsDigit(c, 10)
    ensures DigitsValue([c], 10) == DigitValue(c, 10)
  {
    assert [c][..0] == [];
  }

  /** The value of a two-digit numeral. */
  lemma DigitsValuePair(c: char, d: char)
    requires IsDigit(c, 10) && IsDigit(d, 10)
    ensures DigitsValue([c, d], 10) == 10 * DigitValue(c, 10) + DigitValue(d, 10)
  {
    assert [c, d][..1] == [c];
    DigitsValueSingle(c);
  }

  lemma ParseIntOneString() ensures ParseInt("1") == Int(1) {
    DigitsValueSingle('1');
    ParseIntDigits("1");
  }

  lemma ParseIntTwoString() ensures ParseInt("2") == Int(2) {
    DigitsValueSingle('2');
    ParseIntDigits("2");
  }

  lemma ParseIntDoubleZeroString() ensures ParseInt("00") == Int(0) {
    DigitsValuePair('0', '0');
    assert DigitsValue("00", 10) == 0;
    ParseIntDigits("00");
  }

  lemma ParseIntFifteenString() ensures ParseInt("15") == Int(15) {
    DigitsValuePair('1', '5');
    ParseIntDigits("15");
  }

  lemma ParseIntThirtyString() ensures ParseInt("30") == Int(30) {
    DigitsValuePair('3', '0');
    ParseIntDigits("30");
  }

  lemma ParseIntFortyFiveString() ensures ParseInt("45") == Int(45) {
    DigitsValuePair('4', '5');
    ParseIntDigits("45");
  }

  lemma ParseIntNinetyString() ensures ParseInt("90") == Int(90) {
    DigitsValuePair('9', '0');
    ParseIntDigits("90");
  }

  /** `parseInt` of the numerals that the worked inputs below contain. */
  lemma ParseIntExamples()
    ensures ParseInt("0") == Int(0) && ParseInt("1") == Int(1) && ParseInt("2") == Int(2)
    ensures ParseInt("00") == Int(0) && ParseInt("15") == Int(15) && ParseInt("30") == Int(30)
    ensures ParseInt("45") == Int(45) && ParseInt("90") == Int(90)
  {
    ParseIntZero();
    ParseIntOneString();
    ParseIntTwoString();
    ParseIntDoubleZeroString();
    ParseIntFifteenString();
    ParseIntThirtyString();
    ParseIntFortyFiveString();
    ParseIntNinetyString();
  }

  /** `parseInt` stops at the first character that cannot continue the numeral. */
  lemma ParseIntStopsAtDot()
    ensures ParseInt("1.5") == Int(1)
  {
    var s := "1.5";
    assert UnsignedIntPrefix(s) == Some(1) by {
      assert !HexPrefixed(s);
      assert LeadingDigits(s[1..], 10) == [] by { assert s[1..][0] == '.'; }
      assert LeadingDigits(s, 10) == "1";
      DigitsValueSingle('1');
    }
    assert StripSign(s) == (false, s);
    TrimStartNoSpace(s);
    ParseIntPrefixSteps(s, s, false, s, 1);
  }

  /** `parseInt` skips leading white space and reads a sign. */
  lemma ParseIntSpaceAndSign()
    ensures ParseInt(" -7") == Int(-7)
  {
    var s, t := " -7", "-7";
    assert TrimStart(s) == t by {
      assert IsWhiteSpace(s[0]) && s[1..] == t;
      TrimStartNoSpace(t);
    }
    assert UnsignedIntPrefix("7") == Some(7) by {
      DigitsValueSingle('7');
      UnsignedIntDigits("7");
    }
    assert StripSign(t) == (true, "7");
    ParseIntPrefixSteps(s, t, true, "7", 7);
  }

  /** `parseInt` with no radix reads hexadecimal after `0x`. */
  lemma ParseIntHexadecimal()
    ensures ParseInt("0x1F") == Int(31)
  {
    var s := "0x1F";
    assert UnsignedIntPrefix(s) == Some(31) by {
      assert HexPrefixed(s) && s[2..] == "1F";
      assert LeadingDigits("F", 16) == "F" by { assert "F"[1..] == []; }
      assert LeadingDigits("1F", 16) == "1F" by { assert "1F"[1..] == "F"; }
      assert DigitsValue("1F", 16) == 31 by { assert "1F"[..1] == "1"; assert "1"[..0] == []; }
    }
    assert StripSign(s) == (false, s);
    TrimStartNoSpace(s);
    ParseIntPrefixSteps(s, s, false, s, 31);
  }

  /** `parseInt` gives NaN when no digit starts the text. */
  lemma ParseIntNoDigits()
    ensures ParseInt("abc") == NaN
  {
    var s := "abc";
    assert UnsignedIntPrefix(s) == None by {
      assert !HexPrefixed(s);
      assert LeadingDigits(s, 10) == [];
    }
    assert StripSign(s) == (false, s);
    TrimStartNoSpace(s);
    ParseIntPrefixNoDigits(s, s, false, s);
  }

  /** A line of three non-empty digit runs joined by colons adds what `parseInt` reads from each. */
  lemma DigitsColonLine(line: string, x: string, y: string, z: string)
    requires x != [] && y != [] && z != []
    requires forall c :: c in x + y + z ==> '0' <= c <= '9'
    requires line == x + ":" + y + ":" + z
    ensures LineAmount(line) == Hms(ParseInt(x), ParseInt(y), ParseInt(z))
  {
    ColonLine(x, y, z);
  }

  /** A colon-form line: "2:15:30" adds 2 hours, 15 minutes and 30 seconds. */
  lemma ColonExample()
    ensures LineAmount("2:15:30") == Hms(Int(2), Int(15), Int(30))
  {
    DigitsColonLine("2:15:30", "2", "15", "30");
    ParseIntExamples();
  }

  lemma ParseLinesThree(a: string, b: string, c: string)
    ensures ParseLines([a, b, c]) == Step(Step(Step(Zero, a), b), c)
  {
    var lines := [a, b, c];
    assert lines[..2] == [a, b];
    assert ParseLines(lines) == Step(ParseLines([a, b]), c);
    assert [a, b][..1] == [a];
    assert ParseLines([a, b]) == Step(ParseLines([a]), b);
    assert [a][..0] == [];
    assert ParseLines([a]) == Step(Zero, a);
  }

  /** Three lines without a line feed of their own are read one after the other. */
  lemma ParseThreeLines(a: string, b: string, c: string)
    requires '\n' !in a && '\n' !in b && '\n' !in c
    ensures Parse(a + "\n" + b + "\n" + c) == Step(Step(Step(Zero, a), b), c)
  {
    assert Split(a + "\n" + b + "\n" + c, '\n') == [a, b, c] by {
      SplitNoSeparator(c, '\n');
      SplitAfterPiece(b, c, '\n');
      assert a + "\n" + b + "\n" + c == a + ['\n'] + (b + ['\n'] + c);
      SplitAfterPiece(a, b + ['\n'] + c, '\n');
    }
    ParseLinesThree(a, b, c);
  }

  lemma FirstLineAmount()
    ensures LineAmount("1:00:00") == Hms(Int(1), Int(0), Int(0))
  {
    DigitsColonLine("1:00:00", "1", "00", "00");
    ParseIntExamples();
  }

  lemma SecondLineAmount()
    ensures LineAmount("0:45:00") == Hms(Int(0), Int(45), Int(0))
  {
    DigitsColonLine("0:45:00", "0", "45", "00");
    ParseIntExamples();
  }

  lemma ThirdLineAmount()
    ensures LineAmount("0:00:90") == Hms(Int(0), Int(0), Int(90))
  {
    DigitsColonLine("0:00:90", "0", "00", "90");
    ParseIntExamples();
  }

  lemma FirstStep()
    ensures Step(Zero, "1:00:00") == Hms(Int(1), Int(0), Int(0))
  {
    var u := Hms(Int(1), Int(0), Int(0));
    FirstLineAmount();
    AddHmsZero(u);
    StepSetTime(Zero, "1:00:00", u);
    SetTimeArranged(Zero, u);
  }

  lemma SecondStep()
    ensures Step(Hms(Int(1), Int(0), Int(0)), "0:45:00") == Hms(Int(1), Int(45), Int(0))
  {
    var t, u := Hms(Int(1), Int(0), Int(0)), Hms(Int(1), Int(45), Int(0));
    SecondLineAmount();
    AddHmsInts(1, 0, 0, 0, 45, 0);
    StepSetTime(t, "0:45:00", u);
    SetTimeArranged(t, u);
  }

  /** The 90 seconds carry: (1, 45, 90) is arranged into (1, 46, 30). */
  lemma ThirdStep()
    ensures Step(Hms(Int(1), Int(45), Int(0)), "0:00:90") == Hms(Int(1), Int(46), Int(30))
  {
    ThirdLineAmount();
  }

  /**
   * Three lines in colon form: each is added and arranged in turn, and the 90 seconds
   * of the last carry one minute.
   */
  lemma MultiLineExample()
    ensures Parse("1:00:00\n0:45:00\n0:00:90") == Hms(Int(1), Int(46), Int(30))
  {
    var a, b, c := "1:00:00", "0:45:00", "0:00:90";
    assert a + "\n" + b + "\n" + c == "1:00:00\n0:45:00\n0:00:90";
    ParseThreeLines(a, b, c);
    FirstStep();
    SecondStep();
    ThirdStep();
  }

  // ---------------------------------------------------------------------------
  // Decimal hours

  lemma DecimalClassified()
    ensures Classify("1.5") == DecimalHours && Classify("1,5") == DecimalHours
  {
    assert Classify("1.5") == DecimalHours by {
      NotContains("1.5", "hour");
      NotContains("1.5", "minute");
      NotContains("1.5", "second");
      ContainsAt("1.5", ".", 1);
    }
    assert Classify("1,5") == DecimalHours by {
      NotContains("1,5", "hour");
      NotContains("1,5", "minute");
      NotContains("1,5", "second");
      ContainsAt("1,5", ",", 1);
    }
  }

  /** The first comma becomes a dot; a line without a comma is left as it is. */
  lemma FirstCommaBecomesDot()
    ensures ReplaceFirst("1,5", ',', '.') == "1.5"
    ensures ReplaceFirst("1.5", ',', '.') == "1.5"
    ensures ReplaceFirst("1,5,5", ',', '.') == "1.5,5"
  {
    assert IndexOf("1,5", ',') == 1;
    assert IndexOf("1,5,5", ',') == 1;
  }

  /** `parseFloat("1.5")` reads the numeral 15 / 10. */
  lemma ParseFloatExample()
    ensures ParseFloatPrefix("1.5") == Some(Decimal(15, 1))
  {
    var s := "1.5";
    assert TrimStart(s) == s by { assert !IsWhiteSpace(s[0]); }
    assert StripSign(s) == (false, s);
    assert LeadingDigits(s[1..], 10) == [] by { assert s[1..][0] == '.'; }
    assert LeadingDigits(s, 10) == "1";
    assert s[1..] == ".5" && ".5"[1..] == "5";
    assert LeadingDigits("5", 10) == "5";
    assert "1" + "5" == "15";
    assert DigitsValue("15", 10) == 15 by { assert "15"[..1] == "1"; assert "1"[..0] == []; }
  }

  /** `Math.round(1.5 * 60)` is 90. */
  lemma RoundExample()
    ensures RoundTimes60(Decimal(15, 1)) == 90
  {
  }

  /** A decimal-hours line adds the minutes its numeral, comma turned into a dot, rounds to. */
  lemma DecimalLine(line: string, dotted: string, x: Decimal)
    requires Classify(line) == DecimalHours
    requires ReplaceFirst(line, ',', '.') == dotted && ParseFloatPrefix(dotted) == Some(x)
    ensures LineAmount(line) == Hms(Int(0), Int(RoundTimes60(x)), Int(0))
  {
  }

  /** A decimal-hours line: "1.5" (or "1,5") is 90 minutes. */
  lemma DecimalExample()
    ensures LineAmount("1.5") == Hms(Int(0), Int(90), Int(0))
    ensures LineAmount("1,5") == Hms(Int(0), Int(90), Int(0))
  {
    DecimalClassified();
    FirstCommaBecomesDot();
    ParseFloatExample();
    RoundExample();
    DecimalLine("1.5", "1.5", Decimal(15, 1));
    DecimalLine("1,5", "1.5", Decimal(15, 1));
  }

  lemma DecimalStep()
    ensures Step(Zero, "1.5") == Hms(Int(1), Int(30), Int(0))
  {
    var u := Hms(Int(0), Int(90), Int(0));
    DecimalExample();
    AddHmsZero(u);
    StepSetTime(Zero, "1.5", u);
    assert SetTimeResult(Zero, u.hours, u.minutes, u.seconds) == Hms(Int(1), Int(30), Int(0));
  }

  /** The 90 minutes are arranged into 1 hour 30 minutes. */
  lemma DecimalParseExample()
    ensures Parse("1.5") == Hms(Int(1), Int(30), Int(0))
  {
    ParseOneLine("1.5");
    DecimalStep();
  }

  // ---------------------------------------------------------------------------
  // Unit words

  /** Four words joined by single spaces split back into those words. */
  lemma SplitFourWords(line: string, a: string, b: string, c: string, d: string)
    requires ' ' !in a && ' ' !in b && ' ' !in c && ' ' !in d
    requires line == a + [' '] + (b + [' '] + (c + [' '] + d))
    ensures Split(line, ' ') == [a, b, c, d]
  {
    SplitNoSeparator(d, ' ');
    SplitAfterPiece(c, d, ' ');
    SplitAfterPiece(b, c + [' '] + d, ' ');
    SplitAfterPiece(a, b + [' '] + (c + [' '] + d), ' ');
  }

  /** The sums of pair amounts that the unit-words examples below add up. */
  lemma AddHmsExamples()
    ensures AddHms(AddHms(Zero, Hms(Int(2), Int(0), Int(0))), Hms(Int(0), Int(30), Int(0))) == Hms(Int(2), Int(30), Int(0))
    ensures AddHms(AddHms(Zero, Hms(Int(0), Int(30), Int(0))), Hms(Int(1), Int(0), Int(0))) == Hms(Int(1), Int(30), Int(0))
    ensures AddHms(AddHms(Zero, Zero), Hms(Int(1), Int(0), Int(0))) == Hms(Int(1), Int(0), Int(0))
    ensures AddHms(Zero, Hms(Int(1), Int(0), Int(0))) == Hms(Int(1), Int(0), Int(0))
  {
    AddHmsInts(0, 0, 0, 2, 0, 0);
    AddHmsInts(2, 0, 0, 0, 30, 0);
    AddHmsInts(0, 0, 0, 0, 30, 0);
    AddHmsInts(0, 30, 0, 1, 0, 0);
    AddHmsInts(0, 0, 0, 0, 0, 0);
    AddHmsInts(0, 0, 0, 1, 0, 0);
  }

  lemma AddHmsInts(h1: int, m1: int, s1: int, h2: int, m2: int, s2: int)
    ensures AddHms(Hms(Int(h1), Int(m1), Int(s1)), Hms(Int(h2), Int(m2), Int(s2)))
         == Hms(Int(h1 + h2), Int(m1 + m2), Int(s1 + s2))
  {
  }

  lemma PairsAmountOne(parts: seq<string>)
    requires |parts| == 2
    ensures PairsAmount(parts, 1) == AddHms(Zero, PairAmount(parts[0], parts[1]))
  {
  }

  lemma PairsAmountTwo(parts: seq<string>)
    requires |parts| == 4
    ensures PairsAmount(parts, 2) == AddHms(AddHms(Zero, PairAmount(parts[0], parts[1])), PairAmount(parts[2], parts[3]))
  {
    assert PairsAmount(parts, 1) == AddHms(Zero, PairAmount(parts[0], parts[1]));
  }

  /** A unit-words line of two pairs adds what the two pairs add, in order. */
  lemma TwoPairsLine(line: string, n1: string, u1: string, n2: string, u2: string,
                     first: Hms, second: Hms, total: Hms)
    requires Classify(line) == UnitWords && HasDigit(line)
    requires Split(line, ' ') == [n1, u1, n2, u2]
    requires PairAmount(n1, u1) == first && PairAmount(n2, u2) == second
    requires AddHms(AddHms(Zero, first), second) == total
    ensures LineAmount(line) == total
  {
    var parts := [n1, u1, n2, u2];
    UnitWordsLine(line);
    UnitWordsTwoPairs(line, parts);
    PairsAmountTwo(parts);
  }

  lemma UnitWordsLine(line: string)
    requires Classify(line) == UnitWords
    ensures LineAmount(line) == UnitWordsAmount(line)
  {
  }

  lemma UnitWordsOnePair(line: string, parts: seq<string>)
    requires HasDigit(line) && Split(line, ' ') == parts && |parts| == 2
    ensures UnitWordsAmount(line) == PairsAmount(parts, 1)
  {
  }

  lemma UnitWordsTwoPairs(line: string, parts: seq<string>)
    requires HasDigit(line) && Split(line, ' ') == parts && |parts| == 4
    ensures UnitWordsAmount(line) == PairsAmount(parts, 2)
  {
  }

  /** A pair whose unit word reads "hour" or "hours" in lower case adds hours. */
  lemma HoursUnit(number: string, unit: string)
    requires ToLower(unit) == "hour" || ToLower(unit) == "hours"
    ensures PairAmount(number, unit) == Hms(ParseInt(number), Int(0), Int(0))
  {
  }

  /** A pair whose unit word reads "minutes" in lower case adds minutes. */
  lemma MinutesUnit(number: string, unit: string)
    requires ToLower(unit) == "minutes"
    ensures PairAmount(number, unit) == Hms(Int(0), ParseInt(number), Int(0))
  {
  }

  /** A pair whose unit word, lower-cased, is none of the six adds nothing. */
  lemma OtherUnit(number: string, unit: string)
    requires ToLower(unit) !in {"hour", "hours", "minute", "minutes", "second", "seconds"}
    ensures PairAmount(number, unit) == Zero
  {
  }

  lemma HoursPair()
    ensures PairAmount("2", "hours") == Hms(Int(2), Int(0), Int(0))
  {
    ToLowerOfLower("hours");
    HoursUnit("2", "hours");
    ParseIntTwoString();
  }

  lemma HourPair()
    ensures PairAmount("1", "hour") == Hms(Int(1), Int(0), Int(0))
  {
    ToLowerOfLower("hour");
    HoursUnit("1", "hour");
    ParseIntOneString();
  }

  lemma MinutesPair()
    ensures PairAmount("30", "minutes") == Hms(Int(0), Int(30), Int(0))
    ensures PairAmount("30", "Minutes") == Hms(Int(0), Int(30), Int(0))
  {
    ToLowerOfLower("minutes");
    MinutesUnit("30", "minutes");
    assert ToLower("Minutes") == "minutes" by {
      ToLowerChars("Minutes");
    }
    MinutesUnit("30", "Minutes");
    ParseIntThirtyString();
  }

  /** A unit word that is not one of the six adds nothing. */
  lemma UnknownPair()
    ensures PairAmount("2", "fortnights") == Zero
  {
    ToLowerOfLower("fortnights");
    OtherUnit("2", "fortnights");
  }

  /** A line that starts with a digit and holds "hour" is read as unit words. */
  lemma HourAt(line: string, i: nat)
    requires line != [] && '0' <= line[0] <= '9'
    requires i + 4 <= |line| && line[i..i + 4] == "hour"
    ensures Classify(line) == UnitWords && HasDigit(line)
  {
    ContainsAt(line, "hour", i);
  }

  lemma UnitWordsClassified()
    ensures Classify("2 hours 30 minutes") == UnitWords && HasDigit("2 hours 30 minutes")
  {
    var line := "2 hours 30 minutes";
    assert line[2..6] == "hour";
    HourAt(line, 2);
  }

  lemma UnitWordsSplit()
    ensures Split("2 hours 30 minutes", ' ') == ["2", "hours", "30", "minutes"]
  {
    SplitFourWords("2 hours 30 minutes", "2", "hours", "30", "minutes");
  }

  lemma UnitWordsShape()
    ensures Classify("2 hours 30 minutes") == UnitWords && HasDigit("2 hours 30 minutes")
    ensures Split("2 hours 30 minutes", ' ') == ["2", "hours", "30", "minutes"]
  {
    UnitWordsClassified();
    UnitWordsSplit();
  }

  /** Unit words: "2 hours 30 minutes". */
  lemma UnitWordsExample()
    ensures LineAmount("2 hours 30 minutes") == Hms(Int(2), Int(30), Int(0))
  {
    UnitWordsShape();
    HoursPair();
    MinutesPair();
    AddHmsExamples();
    TwoPairsLine("2 hours 30 minutes", "2", "hours", "30", "minutes",
      Hms(Int(2), Int(0), Int(0)), Hms(Int(0), Int(30), Int(0)), Hms(Int(2), Int(30), Int(0)));
  }

  lemma UpperCaseUnitShape()
    ensures Classify("30 Minutes 1 hour") == UnitWords && HasDigit("30 Minutes 1 hour")
    ensures Split("30 Minutes 1 hour", ' ') == ["30", "Minutes", "1", "hour"]
  {
    UpperCaseUnitClassified();
    UpperCaseUnitSplit();
  }

  lemma UpperCaseUnitClassified()
    ensures Classify("30 Minutes 1 hour") == UnitWords && HasDigit("30 Minutes 1 hour")
  {
    var line := "30 Minutes 1 hour";
    assert line[13..17] == "hour";
    HourAt(line, 13);
  }

  lemma UpperCaseUnitSplit()
    ensures Split("30 Minutes 1 hour", ' ') == ["30", "Minutes", "1", "hour"]
  {
    SplitFourWords("30 Minutes 1 hour", "30", "Minutes", "1", "hour");
  }

  /**
   * The unit words are lower-cased before they are compared, but only a line that names
   * a unit in lower case is read as unit words at all.
   */
  lemma UpperCaseUnitExample()
    ensures LineAmount("30 Minutes 1 hour") == Hms(Int(1), Int(30), Int(0))
  {
    UpperCaseUnitShape();
    MinutesPair();
    HourPair();
    AddHmsExamples();
    TwoPairsLine("30 Minutes 1 hour", "30", "Minutes", "1", "hour",
      Hms(Int(0), Int(30), Int(0)), Hms(Int(1), Int(0), Int(0)), Hms(Int(1), Int(30), Int(0)));
  }

  lemma UnknownUnitShape()
    ensures Classify("2 fortnights 1 hour") == UnitWords && HasDigit("2 fortnights 1 hour")
    ensures Split("2 fortnights 1 hour", ' ') == ["2", "fortnights", "1", "hour"]
  {
    UnknownUnitClassified();
    UnknownUnitSplit();
  }

  lemma UnknownUnitClassified()
    ensures Classify("2 fortnights 1 hour") == UnitWords && HasDigit("2 fortnights 1 hour")
  {
    var line := "2 fortnights 1 hour";
    assert line[15..19] == "hour";
    HourAt(line, 15);
  }

  lemma UnknownUnitSplit()
    ensures Split("2 fortnights 1 hour", ' ') == ["2", "fortnights", "1", "hour"]
  {
    SplitFourWords("2 fortnights 1 hour", "2", "fortnights", "1", "hour");
  }

  /** An unknown unit adds nothing, and the pair after it is still read. */
  lemma UnknownUnitExample()
    ensures LineAmount("2 fortnights 1 hour") == Hms(Int(1), Int(0), Int(0))
  {
    UnknownUnitShape();
    UnknownPair();
    HourPair();
    AddHmsExamples();
    TwoPairsLine("2 fortnights 1 hour", "2", "fortnights", "1", "hour",
      Zero, Hms(Int(1), Int(0), Int(0)), Hms(Int(1), Int(0), Int(0)));
  }

  lemma PrecedenceShape()
    ensures Classify("1.5 hours") == UnitWords && HasDigit("1.5 hours")
    ensures Split("1.5 hours", ' ') == ["1.5", "hours"]
  {
    PrecedenceClassified();
    PrecedenceSplit();
  }

  lemma PrecedenceClassified()
    ensures Classify("1.5 hours") == UnitWords && HasDigit("1.5 hours")
  {
    var line := "1.5 hours";
    assert line[4..8] == "hour";
    HourAt(line, 4);
  }

  lemma PrecedenceSplit()
    ensures Split("1.5 hours", ' ') == ["1.5", "hours"]
  {
    SplitNoSeparator("hours", ' ');
    SplitAfterPiece("1.5", "hours", ' ');
    assert "1.5 hours" == "1.5" + [' '] + "hours";
  }

  /**
   * Unit words come before decimal hours: "1.5 hours" is read as unit words, and
   * `parseInt("1.5")` is 1.
   */
  lemma PrecedenceExample()
    ensures Classify("1.5 hours") == UnitWords
    ensures LineAmount("1.5 hours") == Hms(Int(1), Int(0), Int(0))
  {
    PrecedenceShape();
    PrecedencePair();
    AddHmsExamples();
    OnePairLine("1.5 hours", "1.5", "hours", Hms(Int(1), Int(0), Int(0)), Hms(Int(1), Int(0), Int(0)));
  }

  lemma PrecedencePair()
    ensures PairAmount("1.5", "hours") == Hms(Int(1), Int(0), Int(0))
  {
    assert ToLower("hours") == "hours";
    ParseIntStopsAtDot();
  }

  /** A unit-words line of one pair adds what that pair adds. */
  lemma OnePairLine(line: string, n1: string, u1: string, first: Hms, total: Hms)
    requires Classify(line) == UnitWords && HasDigit(line)
    requires Split(line, ' ') == [n1, u1]
    requires PairAmount(n1, u1) == first && AddHms(Zero, first) == total
    ensures LineAmount(line) == total
  {
    var parts := [n1, u1];
    UnitWordsLine(line);
    UnitWordsOnePair(line, parts);
    PairsAmountOne(parts);
  }

  // ---------------------------------------------------------------------------
  // Lines that fall through to colon form

  lemma DozenParseInt()
    ensures ParseInt("2 dozen") == Int(2)
  {
    var line := "2 dozen";
    assert TrimStart(line) == line by { assert !IsWhiteSpace(line[0]); }
    assert StripSign(line) == (false, line);
    assert LeadingDigits(line[1..], 10) == [] by { assert line[1..][0] == ' '; }
    assert LeadingDigits(line, 10) == "2";
    assert DigitsValue("2", 10) == 2 by { assert "2"[..0] == []; }
  }

  lemma DozenPlain()
    ensures Classify("2 dozen") == Colon
    ensures LineAmount("2 dozen") == Hms(ParseInt("2 dozen"), Int(0), Int(0))
  {
    PlainLine("2 dozen");
  }

  /**
   * A number with a unit the parser does not know, and no unit word it does, is read
   * in colon form: "2 dozen" adds 2 hours.
   */
  lemma UnknownUnitAloneExample()
    ensures LineAmount("2 dozen") == Hms(Int(2), Int(0), Int(0))
  {
    DozenParseInt();
    DozenPlain();
  }

  lemma UnknownParseInt()
    ensures ParseInt("unknown") == NaN
  {
    var line := "unknown";
    assert TrimStart(line) == line by { assert !IsWhiteSpace(line[0]); }
    assert StripSign(line) == (false, line);
    assert LeadingDigits(line, 10) == [];
  }

  /** A line without a number is read in colon form, and `parseInt` makes the hours NaN. */
  lemma NoNumberExample()
    ensures LineAmount("unknown") == Hms(NaN, Int(0), Int(0))
  {
    UnknownParseInt();
    PlainLine("unknown");
  }

  /** NaN hours stay NaN in the total, whatever follows. */
  lemma NoNumberParseExample(rest: string)
    ensures Parse("unknown" + "\n" + rest).hours.NaN?
  {
    NoNumberExample();
    assert '\n' !in "unknown";
    FirstLineNaN("unknown", rest);
  }

  /** An empty text is one empty line, which adds nothing. */
  lemma EmptyExample()
    ensures LineAmount("") == Zero
    ensures Parse("") == Zero
  {
    assert LineAmount("") == Zero by {
      assert Classify("") == Colon;
      SplitNoSeparator("", ':');
      assert LineAmount("") == ColonAmount("");
    }
    ParseOneLine("");
    AddHmsZero(Zero);
    StepSetTime(Zero, "", Zero);
    SetTimeArranged(Zero, Zero);
  }
}
