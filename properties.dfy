/** What the parser promises about the running total, the dialects and the formatted result. */
module CalculatorProperties {
  import opened Wrappers
  import opened JsNumber
  import opened JsText
  import opened TimeValue
  import opened Calculator

  // ---------------------------------------------------------------------------
  // The running total

  /** The seconds the lines add, in total, when none of them reads NaN. */
  function AmountsTotal(lines: seq<string>): int
    requires forall i :: 0 <= i < |lines| ==> IsWhole(LineAmount(lines[i]))
  {
    if lines == [] then 0
    else AmountsTotal(lines[..|lines| - 1]) + TotalSeconds(LineAmount(lines[|lines| - 1]))
  }

  /** After every line, minutes and seconds are in range. */
  lemma ParseLinesArranged(lines: seq<string>)
    ensures Arranged(ParseLines(lines))
  {
    if lines != [] {
      var t := ParseLines(lines[..|lines| - 1]);
      var u := AddHms(t, LineAmount(lines[|lines| - 1]));
      ArrangeArranged(Arrange(Hms(u.hours, u.minutes, t.seconds)).(seconds := u.seconds));
    }
  }

  /**
   * One line on an arranged whole-number total: the new total is arranged and worth
   * the old total plus what the line adds.
   */
  lemma StepTotal(t: Hms, line: string)
    requires IsWhole(t) && Arranged(t) && IsWhole(LineAmount(line))
    ensures IsWhole(Step(t, line)) && Arranged(Step(t, line))
    ensures TotalSeconds(Step(t, line)) == TotalSeconds(t) + TotalSeconds(LineAmount(line))
  {
    var u := AddHms(t, LineAmount(line));
    SetTimeTotal(t, u.hours.value, u.minutes.value, u.seconds.value);
  }

  /**
   * When no line reads NaN, the total is a whole-number arranged triple whose value in
   * seconds is the sum of what the lines add, in whatever order they carry.
   */
  lemma {:induction false} ParseLinesTotal(lines: seq<string>)
    requires forall i :: 0 <= i < |lines| ==> IsWhole(LineAmount(lines[i]))
    ensures IsWhole(ParseLines(lines)) && Arranged(ParseLines(lines))
    ensures TotalSeconds(ParseLines(lines)) == AmountsTotal(lines)
  {
    if lines != [] {
      var init := lines[..|lines| - 1];
      assert forall i :: 0 <= i < |init| ==> init[i] == lines[i];
      ParseLinesTotal(init);
      StepTotal(ParseLines(init), lines[|lines| - 1]);
    }
  }

  /** A NaN field of the running total stays NaN through every later line. */
  lemma StepKeepsNaN(t: Hms, line: string)
    ensures t.hours.NaN? ==> Step(t, line).hours.NaN?
    ensures t.minutes.NaN? ==> Step(t, line).minutes.NaN?
    ensures t.seconds.NaN? ==> Step(t, line).seconds.NaN?
  {
    var u := AddHms(t, LineAmount(line));
    var afterMinutes := Arrange(Hms(u.hours, u.minutes, t.seconds));
    ArrangeKeepsNaN(Hms(u.hours, u.minutes, t.seconds));
    ArrangeKeepsNaN(afterMinutes.(seconds := u.seconds));
  }

  /** Once a field of the running total is NaN, it is NaN in the final total. */
  lemma {:induction false} ParseLinesKeepsNaN(lines: seq<string>, k: nat)
    requires k <= |lines|
    ensures ParseLines(lines[..k]).hours.NaN? ==> ParseLines(lines).hours.NaN?
    ensures ParseLines(lines[..k]).minutes.NaN? ==> ParseLines(lines).minutes.NaN?
    ensures ParseLines(lines[..k]).seconds.NaN? ==> ParseLines(lines).seconds.NaN?
  {
    if k == |lines| {
      assert lines[..k] == lines;
    } else {
      var init := lines[..|lines| - 1];
      assert init[..k] == lines[..k];
      ParseLinesKeepsNaN(init, k);
      StepKeepsNaN(ParseLines(init), lines[|lines| - 1]);
    }
  }

  /** A first line whose hours read NaN makes the hours of the total NaN, whatever follows. */
  lemma FirstLineNaN(line: string, rest: string)
    requires '\n' !in line && LineAmount(line).hours.NaN?
    ensures Parse(line + "\n" + rest).hours.NaN?
  {
    var input := line + "\n" + rest;
    assert input == line + ['\n'] + rest;
    SplitAfterPiece(line, rest, '\n');
    var lines := Split(input, '\n');
    assert lines[..1] == [line] && [line][..0] == [];
    assert ParseLines(lines[..1]) == Step(Zero, line);
    StepKeepsNaN(Zero, line);
    var u := AddHms(Zero, LineAmount(line));
    ArrangeKeepsNaN(Hms(u.hours, u.minutes, Zero.seconds));
    ParseLinesKeepsNaN(lines, 1);
  }

  // ---------------------------------------------------------------------------
  // The dialects

  /** A decimal-hours line adds minutes only. */
  lemma DecimalHoursAddsMinutes(line: string)
    requires Classify(line) == DecimalHours
    ensures LineAmount(line).hours == Int(0) && LineAmount(line).seconds == Int(0)
  {
  }

  /** The characters of a numeral `w` sep `f`: digits and the separator. */
  lemma NumeralChars(w: string, sep: char, f: string)
    requires forall i :: 0 <= i < |w| ==> IsDigit(w[i], 10)
    requires forall i :: 0 <= i < |f| ==> IsDigit(f[i], 10)
    ensures forall i :: 0 <= i < |w + ([sep] + f)| ==>
              IsDigit((w + ([sep] + f))[i], 10) || (w + ([sep] + f))[i] == sep
  {
    var line := w + ([sep] + f);
    forall i | 0 <= i < |line|
      ensures IsDigit(line[i], 10) || line[i] == sep
    {
      if i < |w| {
        assert line[i] == w[i];
      } else if i > |w| {
        assert line[i] == f[i - |w| - 1];
      }
    }
  }

  /** `replace(",", ".")` turns the separator of a numeral `w` sep `f` into a dot. */
  lemma NumeralReplace(w: string, sep: char, f: string)
    requires sep == ',' || sep == '.'
    requires forall i :: 0 <= i < |w| ==> IsDigit(w[i], 10)
    requires forall i :: 0 <= i < |f| ==> IsDigit(f[i], 10)
    ensures ReplaceFirst(w + ([sep] + f), ',', '.') == w + ("." + f)
  {
    var line := w + ([sep] + f);
    NumeralChars(w, sep, f);
    ReplaceFirstChars(line, ',', '.');
    if sep == ',' {
      var i := IndexOf(line, ',');
      assert line[|w|] == ',';
      assert i == |w|;
      assert ReplaceFirst(line, ',', '.') == w + ("." + f);
    } else {
      assert ',' !in line;
      assert line == w + ("." + f);
    }
  }

  /**
   * A decimal line of digits w and f around a comma or a dot adds, as minutes,
   * `Math.round` of 60 times the hours the numeral `w.f` denotes.
   */
  lemma DecimalNumeralLine(w: string, sep: char, f: string)
    requires sep == ',' || sep == '.'
    requires forall i :: 0 <= i < |w| ==> IsDigit(w[i], 10)
    requires forall i :: 0 <= i < |f| ==> IsDigit(f[i], 10)
    requires w + f != []
    ensures Classify(w + ([sep] + f)) == DecimalHours
    ensures LineAmount(w + ([sep] + f))
         == Hms(Int(0), Int(RoundTimes60(Decimal(DigitsValue(w + f, 10), |f|))), Int(0))
  {
    var line := w + ([sep] + f);
    NumeralChars(w, sep, f);
    assert forall c :: c in line ==> c !in "hms" by {
      forall c | c in line
        ensures c !in "hms"
      {
        var k :| 0 <= k < |line| && line[k] == c;
        assert IsDigit(line[k], 10) || line[k] == sep;
      }
    }
    NotContains(line, "hour");
    NotContains(line, "minute");
    NotContains(line, "second");
    assert line[|w|..|w| + 1] == [sep];
    ContainsAt(line, [sep], |w|);
    NumeralReplace(w, sep, f);
    assert f + [] == f;
    ParseFloatFraction(w, f, []);
  }

  /** A unit-words line without a digit adds nothing. */
  lemma UnitWordsWithoutDigit(line: string)
    requires Classify(line) == UnitWords && !HasDigit(line)
    ensures LineAmount(line) == Zero
  {
  }

  /** Text without a line feed is one line. */
  lemma ParseOneLine(line: string)
    requires '\n' !in line
    ensures Parse(line) == Step(Zero, line)
  {
    SplitNoSeparator(line, '\n');
    assert [line][..0] == [];
  }

  /** A line with none of the letters h, m, s and no comma or dot is in colon form. */
  lemma ColonClassified(line: string)
    requires forall c :: c in line ==> c !in ",.hms"
    ensures Classify(line) == Colon
  {
    NotContains(line, "hour");
    NotContains(line, "minute");
    NotContains(line, "second");
    NotContains(line, ",");
    NotContains(line, ".");
  }

  /**
   * A line without a colon, a comma, a dot or the letters h, m and s is one segment
   * in colon form: it adds what `parseInt` reads from the whole line, as hours.
   */
  lemma PlainLine(line: string)
    requires line != [] && forall c :: c in line ==> c !in ":,.hms"
    ensures Classify(line) == Colon
    ensures LineAmount(line) == Hms(ParseInt(line), Int(0), Int(0))
  {
    ColonClassified(line);
    SplitNoSeparator(line, ':');
  }

  /** `x:y:z` splits at its colons into x, y and z when they hold no colon. */
  lemma SplitThree(x: string, y: string, z: string)
    requires ':' !in x && ':' !in y && ':' !in z
    ensures Split(x + ":" + y + ":" + z, ':') == [x, y, z]
  {
    SplitNoSeparator(z, ':');
    SplitAfterPiece(y, z, ':');
    assert x + ":" + y + ":" + z == x + [':'] + (y + [':'] + z);
    SplitAfterPiece(x, y + [':'] + z, ':');
  }

  /**
   * A line `x:y:z` made of pieces without a colon, a comma, a dot or the letters h, m
   * and s, none of them empty, is in colon form and adds (parseInt(x), parseInt(y),
   * parseInt(z)).
   */
  lemma ColonLine(x: string, y: string, z: string)
    requires x != [] && y != [] && z != []
    requires forall c :: c in x + y + z ==> c !in ":,.hms"
    ensures Classify(x + ":" + y + ":" + z) == Colon
    ensures LineAmount(x + ":" + y + ":" + z) == Hms(ParseInt(x), ParseInt(y), ParseInt(z))
  {
    var line := x + ":" + y + ":" + z;
    assert forall c :: c in line ==> c !in ",.hms" by {
      forall c | c in line
        ensures c !in ",.hms"
      {
        assert c in x + y + z || c == ':';
      }
    }
    ColonClassified(line);
    assert ':' !in x && ':' !in y && ':' !in z by {
      assert forall c :: c in x ==> c in x + y + z;
      assert forall c :: c in y ==> c in x + y + z;
      assert forall c :: c in z ==> c in x + y + z;
    }
    SplitThree(x, y, z);
    ThreeSegments(line, x, y, z);
  }

  /** A colon-form line of three non-empty segments adds what `parseInt` reads from each. */
  lemma ThreeSegments(line: string, x: string, y: string, z: string)
    requires Classify(line) == Colon && Split(line, ':') == [x, y, z]
    requires x != [] && y != [] && z != []
    ensures LineAmount(line) == Hms(ParseInt(x), ParseInt(y), ParseInt(z))
  {
    assert LineAmount(line) == ColonAmount(line);
  }

  // ---------------------------------------------------------------------------
  // The formatted total

  lemma NumberStringChars(x: Number)
    ensures NumberString(x) != []
    ensures forall c :: c in NumberString(x) ==> c !in ":,.hms\n"
  {
    match x
    case NaN =>
    case Int(n) =>
      var digits := NatString(if n < 0 then -n else n);
      assert forall c :: c in digits ==> IsDigit(c, 10);
  }

  /** Read back as a single line, the formatted total gives each field back. */
  lemma FormatLineAmount(t: Hms)
    ensures Classify(Format(t)) == Colon
    ensures LineAmount(Format(t)) == t
  {
    NumberStringChars(t.hours);
    NumberStringChars(t.minutes);
    NumberStringChars(t.seconds);
    var x, y, z := NumberString(t.hours), NumberString(t.minutes), NumberString(t.seconds);
    assert forall c :: c in x + y + z ==> c in x || c in y || c in z;
    ColonLine(x, y, z);
    ParseIntNumberString(t.hours);
    ParseIntNumberString(t.minutes);
    ParseIntNumberString(t.seconds);
  }

  lemma FormatNoLineFeed(t: Hms)
    ensures '\n' !in Format(t)
  {
    NumberStringChars(t.hours);
    NumberStringChars(t.minutes);
    NumberStringChars(t.seconds);
  }

  /** Parsing the formatted form of an arranged total gives that total back. */
  lemma FormatParse(t: Hms)
    requires Arranged(t)
    ensures Parse(Format(t)) == t
  {
    FormatNoLineFeed(t);
    ParseOneLine(Format(t));
    FormatLineAmount(t);
    AddHmsZero(t);
    StepSetTime(Zero, Format(t), t);
    SetTimeArranged(Zero, t);
  }

  /** Formatting a parse result and parsing it again changes nothing. */
  lemma ParseFormatParse(input: string)
    ensures Parse(Format(Parse(input))) == Parse(input)
  {
    ParseLinesArranged(Split(input, '\n'));
    FormatParse(Parse(input));
  }
}
