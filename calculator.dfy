/**
 * The line parser and accumulator of timecalc.js (`TimeCalculator.prototype.parseInput`)
 * and the formatted result of `update`. The text is a parameter here; in the plugin it
 * is read from the input element.
 */
module Calculator {
  import opened Wrappers
  import opened JsNumber
  import opened JsText
  import opened TimeValue

  /** The three forms a line may take, tried in this order. */
  datatype Dialect = UnitWords | DecimalHours | Colon

  /**
   * A line naming a unit ("hour", "minute" or "second", case-sensitively, anywhere in
   * the line) is read as unit words; otherwise a line with a comma or a dot as decimal
   * hours; every other line in colon form.
   */
  function Classify(line: string): Dialect {
    if Contains(line, "hour") || Contains(line, "minute") || Contains(line, "second") then UnitWords
    else if Contains(line, ",") || Contains(line, ".") then DecimalHours
    else Colon
  }

  // ---------------------------------------------------------------------------
  // What one line adds

  /** What one (number, unit) pair adds: the unit, lower-cased, picks the field. */
  function PairAmount(number: string, unit: string): Hms {
    var u := ToLower(unit);
    if u == "hour" || u == "hours" then Hms(ParseInt(number), Int(0), Int(0))
    else if u == "minute" || u == "minutes" then Hms(Int(0), ParseInt(number), Int(0))
    else if u == "second" || u == "seconds" then Hms(Int(0), Int(0), ParseInt(number))
    else Zero
  }

  /** What the first k pairs (parts[0], parts[1]), (parts[2], parts[3]), ... add. */
  function PairsAmount(parts: seq<string>, k: nat): Hms
    requires 2 * k <= |parts|
  {
    if k == 0 then Zero
    else AddHms(PairsAmount(parts, k - 1), PairAmount(parts[2 * k - 2], parts[2 * k - 1]))
  }

  /**
   * A unit-words line: the words between single spaces, read as (number, unit) pairs
   * from the start while a whole pair remains. A line without any digit adds nothing.
   */
  function UnitWordsAmount(line: string): Hms {
    var parts := Split(line, ' ');
    if HasDigit(line) then PairsAmount(parts, |parts| / 2) else Zero
  }

  /** `Math.round(parseFloat(...) * 60)`, NaN when no number was read. */
  function MinutesOf(hours: Option<Decimal>): Number {
    match hours
    case None => NaN
    case Some(x) => Int(RoundTimes60(x))
  }

  /** A decimal-hours line: its first comma becomes a dot, and the hours it reads are added as minutes. */
  function DecimalHoursAmount(line: string): Hms {
    Hms(Int(0), MinutesOf(ParseFloatPrefix(ReplaceFirst(line, ',', '.'))), Int(0))
  }

  /** Segment i of a colon-form line, read as a whole number; a missing or empty segment is 0. */
  function Segment(segments: seq<string>, i: nat): Number {
    if i < |segments| && segments[i] != "" then ParseInt(segments[i]) else Int(0)
  }

  /** A colon-form line: segments 0, 1 and 2 add hours, minutes and seconds. */
  function ColonAmount(line: string): Hms {
    var segments := Split(line, ':');
    Hms(Segment(segments, 0), Segment(segments, 1), Segment(segments, 2))
  }

  /** What a line adds to the running total, by its dialect. */
  function LineAmount(line: string): Hms {
    match Classify(line)
    case UnitWords => UnitWordsAmount(line)
    case DecimalHours => DecimalHoursAmount(line)
    case Colon => ColonAmount(line)
  }

  // ---------------------------------------------------------------------------
  // The running total

  /** The running total after one more line: the line's amounts added field by field, then `setTime`. */
  function Step(t: Hms, line: string): Hms {
    var u := AddHms(t, LineAmount(line));
    SetTimeResult(t, u.hours, u.minutes, u.seconds)
  }

  /** The running total after the given lines, starting from 0:0:0. */
  function ParseLines(lines: seq<string>): Hms {
    if lines == [] then Zero else Step(ParseLines(lines[..|lines| - 1]), lines[|lines| - 1])
  }

  /** The total of a text: its lines are the pieces between line feeds. */
  function Parse(input: string): Hms {
    ParseLines(Split(input, '\n'))
  }

  /** The formatted total `hours:minutes:seconds`, without padding. */
  function Format(t: Hms): string {
    NumberString(t.hours) + ":" + NumberString(t.minutes) + ":" + NumberString(t.seconds)
  }

  // ---------------------------------------------------------------------------
  // The imperative parser

  /**
   * The body of the loop over lines: the line's amounts added into hours, mins and
   * secs, which hold the running total when the line is reached.
   */
  method ReadLine(line: string, hours0: Number, mins0: Number, secs0: Number)
    returns (hours: Number, mins: Number, secs: Number)
    ensures Hms(hours, mins, secs) == AddHms(Hms(hours0, mins0, secs0), LineAmount(line))
  {
    if Contains(line, "hour") || Contains(line, "minute") || Contains(line, "second") {
      hours, mins, secs := ReadUnitWords(line, hours0, mins0, secs0);
    } else if Contains(line, ",") || Contains(line, ".") {
      hours, mins, secs := ReadDecimalHours(line, hours0, mins0, secs0);
    } else {
      hours, mins, secs := ReadColon(line, hours0, mins0, secs0);
    }
  }

  /** The unit-words branch: a do-while loop over (number, unit) pairs. */
  method ReadUnitWords(line: string, hours0: Number, mins0: Number, secs0: Number)
    returns (hours: Number, mins: Number, secs: Number)
    ensures Hms(hours, mins, secs) == AddHms(Hms(hours0, mins0, secs0), UnitWordsAmount(line))
  {
    hours, mins, secs := hours0, mins0, secs0;
    var tmpLine := line;
    var partIdx := 0;
    var stringHasRightFormat := true;
    ghost var words := Split(line, ' ');
    ghost var pairs := 0;
    AddHmsZero(Hms(hours0, mins0, secs0));
    // a do-while loop: the body runs at least once
    while stringHasRightFormat
      invariant partIdx == 2 * pairs && partIdx <= |words|
      invariant Hms(hours, mins, secs) == AddHms(Hms(hours0, mins0, secs0), PairsAmount(words, pairs))
      invariant !HasDigit(line) ==> pairs == 0
      invariant !stringHasRightFormat ==> !HasDigit(line) || |words| <= partIdx + 1
      decreases |words| - partIdx, stringHasRightFormat
    {
      var hasNumber := HasDigit(tmpLine);
      var parts := Split(tmpLine, ' ');
      assert parts == words && hasNumber == HasDigit(line);
      stringHasRightFormat := hasNumber && partIdx + 1 < |parts|;
      if stringHasRightFormat {
        var currentNumber := parts[partIdx];
        var currentTimeUnit := parts[partIdx + 1];
        hours, mins, secs := AddPair(currentNumber, currentTimeUnit, hours, mins, secs);
        assert Hms(hours, mins, secs) == AddHms(Hms(hours0, mins0, secs0), PairsAmount(words, pairs + 1)) by {
          PairsAmountNext(words, pairs);
          assert words[2 * pairs] == currentNumber && words[2 * pairs + 1] == currentTimeUnit;
          AddHmsAssociative(Hms(hours0, mins0, secs0), PairsAmount(words, pairs), PairAmount(currentNumber, currentTimeUnit));
        }
        partIdx := partIdx + 2;
        pairs := pairs + 1;
      }
    }
    assert UnitWordsAmount(line) == PairsAmount(words, pairs) by {
      if HasDigit(line) {
        assert pairs == |words| / 2;
      }
    }
  }

  /** The `switch` on the lower-cased unit word of one pair. */
  method AddPair(currentNumber: string, unit: string, hours0: Number, mins0: Number, secs0: Number)
    returns (hours: Number, mins: Number, secs: Number)
    ensures Hms(hours, mins, secs) == AddHms(Hms(hours0, mins0, secs0), PairAmount(currentNumber, unit))
  {
    hours, mins, secs := hours0, mins0, secs0;
    var currentTimeUnit := ToLower(unit);
    var amount := ParseInt(currentNumber);
    AddZero(hours0);
    AddZero(mins0);
    AddZero(secs0);
    AddCommutative(amount, hours0);
    AddCommutative(amount, mins0);
    AddCommutative(amount, secs0);
    if currentTimeUnit == "hour" || currentTimeUnit == "hours" {
      hours := Add(amount, hours);
      assert PairAmount(currentNumber, unit) == Hms(amount, Int(0), Int(0));
    } else if currentTimeUnit == "minute" || currentTimeUnit == "minutes" {
      mins := Add(amount, mins);
      assert PairAmount(currentNumber, unit) == Hms(Int(0), amount, Int(0));
    } else if currentTimeUnit == "second" || currentTimeUnit == "seconds" {
      secs := Add(amount, secs);
      assert PairAmount(currentNumber, unit) == Hms(Int(0), Int(0), amount);
    } else {
      assert PairAmount(currentNumber, unit) == Zero;
    }
  }

  /** The decimal-hours branch. */
  method ReadDecimalHours(line: string, hours0: Number, mins0: Number, secs0: Number)
    returns (hours: Number, mins: Number, secs: Number)
    ensures Hms(hours, mins, secs) == AddHms(Hms(hours0, mins0, secs0), DecimalHoursAmount(line))
  {
    hours, mins, secs := hours0, mins0, secs0;
    var inputNumber := ParseFloatPrefix(ReplaceFirst(line, ',', '.'));
    mins := Add(MinutesOf(inputNumber), mins);
    AddZero(hours0);
    AddZero(secs0);
    AddCommutative(MinutesOf(inputNumber), mins0);
  }

  /** The colon-form branch. */
  method ReadColon(line: string, hours0: Number, mins0: Number, secs0: Number)
    returns (hours: Number, mins: Number, secs: Number)
    ensures Hms(hours, mins, secs) == AddHms(Hms(hours0, mins0, secs0), ColonAmount(line))
  {
    var tmpTime := Split(line, ':');
    hours := Add(ParseInt(if 0 < |tmpTime| && tmpTime[0] != "" then tmpTime[0] else "0"), hours0);
    mins := Add(ParseInt(if 1 < |tmpTime| && tmpTime[1] != "" then tmpTime[1] else "0"), mins0);
    secs := Add(ParseInt(if 2 < |tmpTime| && tmpTime[2] != "" then tmpTime[2] else "0"), secs0);
    SegmentDefault(tmpTime, 0);
    SegmentDefault(tmpTime, 1);
    SegmentDefault(tmpTime, 2);
    AddCommutative(Segment(tmpTime, 0), hours0);
    AddCommutative(Segment(tmpTime, 1), mins0);
    AddCommutative(Segment(tmpTime, 2), secs0);
  }

  /** `tmpTime[i] ? tmpTime[i] : 0` read by `parseInt` is the segment's value. */
  lemma SegmentDefault(segments: seq<string>, i: nat)
    ensures ParseInt(if i < |segments| && segments[i] != "" then segments[i] else "0") == Segment(segments, i)
  {
    ParseIntZero();
  }

  /** The plugin's state that the parser touches: the running total. */
  class TimeCalculator {
    var total: Time

    constructor ()
      ensures fresh(total) && total.Value() == Zero
    {
      total := new Time();
    }

    /**
     * Parses the text into a fresh total: every line, in order, adds its amounts to
     * the running fields, which `setTime` stores and arranges. The result depends on
     * the text alone, not on the total held before.
     */
    method ParseInput(input: string)
      modifies this
      ensures fresh(total)
      ensures total.Value() == Parse(input)
    {
      var lines := Split(input, '\n');
      total := new Time();
      var t := total;
      for i := 0 to |lines|
        invariant fresh(t) && total == t
        invariant t.Value() == ParseLines(lines[..i])
      {
        var hours := t.GetHours();
        var mins := t.GetMinutes();
        var secs := t.GetSeconds();
        ghost var before := t.Value();
        hours, mins, secs := ReadLine(lines[i], hours, mins, secs);
        t.SetTime(hours, mins, secs);
        ParseLinesNext(lines, i);
        StepSetTime(before, lines[i], Hms(hours, mins, secs));
      }
      assert lines[..|lines|] == lines;
    }

    /** The formatted total that `update` writes out. */
    method FormattedTime() returns (formatted: string)
      ensures formatted == Format(total.Value())
    {
      formatted := NumberString(total.GetHours()) + ":" + NumberString(total.GetMinutes())
                   + ":" + NumberString(total.GetSeconds());
    }
  }

  // ---------------------------------------------------------------------------
  // Helpers

  lemma AddHmsAssociative(a: Hms, b: Hms, c: Hms)
    ensures AddHms(AddHms(a, b), c) == AddHms(a, AddHms(b, c))
  {
    AddAssociative(a.hours, b.hours, c.hours);
    AddAssociative(a.minutes, b.minutes, c.minutes);
    AddAssociative(a.seconds, b.seconds, c.seconds);
  }

  lemma PairsAmountNext(parts: seq<string>, k: nat)
    requires 2 * k + 2 <= |parts|
    ensures PairsAmount(parts, k + 1) == AddHms(PairsAmount(parts, k), PairAmount(parts[2 * k], parts[2 * k + 1]))
  {
  }

  lemma ParseLinesNext(lines: seq<string>, i: nat)
    requires i < |lines|
    ensures ParseLines(lines[..i + 1]) == Step(ParseLines(lines[..i]), lines[i])
  {
    assert lines[..i + 1][..i] == lines[..i];
  }

  lemma StepSetTime(t: Hms, line: string, u: Hms)
    requires u == AddHms(t, LineAmount(line))
    ensures Step(t, line) == SetTimeResult(t, u.hours, u.minutes, u.seconds)
  {
  }

  lemma AddHmsZero(a: Hms)
    ensures AddHms(a, Zero) == a && AddHms(Zero, a) == a
  {
    AddZero(a.hours);
    AddZero(a.minutes);
    AddZero(a.seconds);
  }

  lemma ParseIntZero()
    ensures ParseInt("0") == Int(0)
  {
    assert TrimStart("0") == "0" by {
      assert !IsWhiteSpace('0');
    }
    assert StripSign("0") == (false, "0");
    assert LeadingDigits("0", 10) == "0" by {
      assert LeadingDigits([], 10) == [];
    }
    assert DigitsValue("0", 10) == 0 by {
      assert "0"[..0] == [];
    }
  }
}
