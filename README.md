# timecalc in Dafny

A model of the core of the timecalc jQuery plugin (`timecalc.js`). The plugin reads
free-form lines of text, one duration per line, and adds them up into a total of
hours, minutes and seconds. The model covers two parts of the plugin:

- the `Time` object and its arithmetic;
- the line parser `TimeCalculator.prototype.parseInput`, with the formatted total
  that `update` writes out.

The modules are:

- `JsNumber` (`js_number.dfy`): the JavaScript numbers the plugin handles. A number
  is a whole number or `NaN`. `+` absorbs `NaN`, and every comparison with `NaN` is
  false.
- `JsText` (`js_text.dfy`): the string built-ins the parser calls. These are `split`
  on one character, `indexOf(w) !== -1`, the `/[0-9]/` match, `toLowerCase`, the
  first-match `replace`, `parseInt`, `parseFloat`, `Math.round(x * 60)` and
  `String(x)`.
- `TimeValue` (`time.dfy`): the `Time` object.
  - It is a class with three number fields, and its setters update them in place.
  - `arrangeTime` keeps its four `while` loops. It is proved against the closed form
    `Arrange`, which carries and borrows units of 60.
  - `setTime` is proved against `SetTimeResult`.
- `Calculator` (`calculator.dfy`): the parser.
  - `TimeCalculator.ParseInput` is the `for` loop over lines. Its body is `ReadLine`,
    which dispatches to the three dialects of a line:
    - `ReadUnitWords` is the `do … while` loop over (number, unit) pairs, with
      `AddPair` for the `switch`;
    - `ReadDecimalHours` reads a decimal number of hours;
    - `ReadColon` reads the `h:m:s` form.
  - Each of these methods is proved against a function of the line (`LineAmount`,
    `UnitWordsAmount`, `DecimalHoursAmount`, `ColonAmount`). The whole parse is proved
    against `Parse`, which is a left fold (`ParseLines`) of `Step` over the lines.
- `CalculatorProperties` (`properties.dfy`): what the total of a parse is worth, and
  how NaN spreads. It also proves that parsing the formatted form of an arranged
  total gives that total back (`Parse(Format(t)) == t`), so formatting a parse result
  and parsing it again changes nothing.
- `CalculatorExamples` (`examples.dfy`): the plugin's behaviour on particular inputs.

The text is a parameter of `ParseInput`: the plugin reads it from its input element.

### What the code does that one might not expect

- After `arrangeTime`, minutes and seconds lie strictly between -60 and 60, and
  need not be positive. The loops carry upwards only from 60 and more, and borrow
  only from -60 and less. So `0:0:-90` arranges to `0:-1:-30` (`TimeValue.ArrangeBorrowExample`).
- A line is read as unit words only when it contains "hour", "minute" or "second"
  somewhere, case-sensitively. An unknown unit adds nothing only on such a line.
  A line such as "2 dozen" falls through to the colon form and adds 2 hours
  (`CalculatorExamples.UnknownUnitAloneExample`).
- A non-empty line with no digit, no colon, no unit word, no comma and no dot, such
  as "unknown" or a line of spaces, is read in colon form as one segment. `parseInt`
  makes its hours NaN, and the hours of the total stay NaN whatever follows
  (`CalculatorExamples.NoNumberParseExample`). Other lines without a number go
  elsewhere: the empty line adds nothing, ":x" makes the minutes NaN, "no hours" is
  read as unit words and adds nothing, and "n/a." is read as decimal hours and makes
  the minutes NaN.
- In a decimal line, only the first comma becomes a dot
  (`CalculatorExamples.FirstCommaBecomesDot`).
- Unit words come before decimal hours, so "1.5 hours" is read as unit words. There,
  `parseInt("1.5")` is 1, and the line adds one hour
  (`CalculatorExamples.PrecedenceExample`).

## Model

| member | source | states |
|---|---|---|
| JsNumber.Add | timecalc.js:151 | `a + b` is a whole number exactly when both operands are; NaN on either side makes NaN |
| JsText.SplitJoin | timecalc.js:116 | splitting a joined list of pieces that hold no separator gives the pieces back |
| JsText.JoinSplit | timecalc.js:116 | joining the pieces of a split gives the text back: `split` loses and adds nothing |
| JsText.SplitNoSeparator | timecalc.js:176 | text without the separator splits into itself alone |
| JsText.SplitAfterPiece | timecalc.js:143 | the first piece of a split is the text before the first separator |
| JsText.ContainsAt | timecalc.js:133 | `indexOf(w) !== -1` holds when `w` occurs at some position |
| JsText.ContainsSlice | timecalc.js:133 | when `indexOf(w) !== -1` holds, `w` occurs at some position |
| JsText.ContainsIff | timecalc.js:133 | `indexOf(w) !== -1` holds exactly when `w` occurs at some position |
| JsText.NotContains | timecalc.js:133 | a word whose first letter never occurs is not found |
| JsText.ToLowerChars | timecalc.js:147 | `toLowerCase` maps each character on its own and keeps the length |
| JsText.ToLowerOfLower | timecalc.js:147 | text without a capital letter is its own lower case |
| JsText.IndexOf | timecalc.js:170 | the index returned holds the character, and no earlier index does |
| JsText.ReplaceFirstChars | timecalc.js:170 | `replace(",", ".")` changes only the first comma into a dot, and keeps the length and every other character |
| JsText.TrimStartSuffix | timecalc.js:151 | `parseInt` skips exactly the leading white space: what remains is a suffix that starts with a non-space |
| JsText.LeadingDigitsPrefix | timecalc.js:151 | the digits `parseInt` reads are a prefix, and they stop at the first non-digit |
| JsText.ParseIntDigits | timecalc.js:177 | `parseInt` of a run of decimal digits is the number they denote, leading zeros included |
| JsText.ParseIntNumberString | timecalc.js:194 | `parseInt(String(x))` is x for every whole number and for NaN |
| JsText.NatStringValue | timecalc.js:194 | the digits `String(n)` writes denote n |
| JsText.NatString | timecalc.js:194 | `String(n)` of a whole number is a non-empty run of decimal digits |
| JsText.RoundTimes60 | timecalc.js:171 | `Math.round(x * 60)` is the whole number nearest to 60 x, halves rounded up |
| JsText.ParseIntPrefix | timecalc.js:151-159 | the definition of `parseInt` without a radix: white space, a sign, then hexadecimal digits after `0x` or decimal digits; described by `TrimStartSuffix`, `LeadingDigitsPrefix`, `ParseIntDigits` and the `parseInt` examples |
| JsText.ParseInt | timecalc.js:177-179 | `parseInt` as a JavaScript number, NaN when no digit is read; described by `ParseIntDigits` and `ParseIntNumberString` |
| JsText.ParseFloatPrefix | timecalc.js:170 | the definition of `parseFloat` on numerals without an exponent; described by `ParseFloatFraction`, `ParseFloatWhole` and `ParseFloatNegated` |
| JsText.ParseFloatFraction | timecalc.js:170 | `parseFloat` of digits w, a dot and digits f, followed by anything but a digit or an exponent mark `e`/`E`, is the digits of w and f read together over 10 to the number of digits of f |
| JsText.ParseFloatWhole | timecalc.js:170 | `parseFloat` of digits followed by anything but a digit, a dot or an exponent mark `e`/`E` is the value of those digits |
| JsText.ParseFloatNegated | timecalc.js:170 | a `-` in front of a numeral that starts with a digit or a dot negates what `parseFloat` reads, and NaN stays NaN |
| TimeValue.CarryUp | timecalc.js:266-273 | a carrying loop ends with the low field below 60 (and not negative when it ran), with the value `60 hi + lo` kept |
| TimeValue.BorrowDown | timecalc.js:275-282 | a borrowing loop ends with the low field above -60 (and not positive when it ran), with the value `60 hi + lo` kept |
| TimeValue.CarryUpStep | timecalc.js:266-269 | one turn of a carrying loop does not change where the loop ends |
| TimeValue.BorrowDownStep | timecalc.js:275-278 | one turn of a borrowing loop does not change where the loop ends |
| TimeValue.ArrangeArranged | timecalc.js:264-283 | after `arrangeTime`, minutes and seconds lie strictly between -60 and 60 |
| TimeValue.ArrangeKeepsTotal | timecalc.js:264-283 | `arrangeTime` keeps the duration in seconds of a triple without NaN |
| TimeValue.ArrangeKeepsNaN | timecalc.js:264-283 | `arrangeTime` leaves each NaN field NaN and each whole-number field a whole number |
| TimeValue.ArrangeFixedPoint | timecalc.js:264-283 | `arrangeTime` changes nothing when minutes and seconds are already in range |
| TimeValue.ArrangeIdempotent | timecalc.js:264-283 | arranging twice is arranging once |
| TimeValue.ArrangeBorrowExample | timecalc.js:275-278 | -90 seconds arrange to -1 minute and -30 seconds |
| TimeValue.SetTimeTotal | timecalc.js:255-259 | on a `Time` whose seconds are in range, `setTime(h, m, s)` leaves an arranged triple worth `3600 h + 60 m + s` seconds |
| TimeValue.SetTimeArranged | timecalc.js:255-259 | `setTime` with an arranged triple stores that triple unchanged |
| TimeValue.Time.constructor | timecalc.js:223-229 | a new `Time` is 0:0:0 |
| TimeValue.Time.SetHours | timecalc.js:242-244 | `setHours` stores the hours and changes no other field, without arranging |
| TimeValue.Time.SetMinutes | timecalc.js:245-248 | `setMinutes` stores the minutes and arranges; minutes and seconds are then in range |
| TimeValue.Time.SetSeconds | timecalc.js:249-252 | `setSeconds` stores the seconds and arranges; minutes and seconds are then in range |
| TimeValue.Time.SetTime | timecalc.js:255-259 | `setTime` leaves the triple `SetTimeResult` gives, arranged, and worth `3600 h + 60 m + s` seconds when the seconds held before were in range |
| TimeValue.Time.ArrangeTime | timecalc.js:264-283 | the four loops leave the fields at `Arrange` of the old fields |
| Calculator.Classify | timecalc.js:133-175 | the definition of the dialect tests, tried in the source's order; described by `ColonClassified`, `DecimalNumeralLine` and the `...Classified` examples |
| Calculator.Format | timecalc.js:194 | the definition of the formatted total; described by `FormatLineAmount`, `FormatParse` and `FormattedTime` |
| Calculator.TimeCalculator.constructor | timecalc.js:85 | a new calculator holds a fresh `Time` at 0:0:0 |
| Calculator.ReadLine | timecalc.js:132-180 | one line adds its `LineAmount` to the running fields, in the dialect the first matching test picks |
| Calculator.ReadUnitWords | timecalc.js:133-166 | the `do … while` loop adds the amounts of the (number, unit) pairs, in order, while a whole pair remains, and nothing when the line has no digit |
| Calculator.AddPair | timecalc.js:146-161 | one pair adds `parseInt` of its number to the field its lower-cased unit names, and nothing for an unknown unit |
| Calculator.ReadDecimalHours | timecalc.js:169-172 | a decimal line adds `Math.round(parseFloat(...) * 60)` to the minutes only, after its first comma becomes a dot |
| Calculator.ReadColon | timecalc.js:175-180 | a colon line adds `parseInt` of segments 0, 1 and 2 to hours, minutes and seconds, and 0 for a missing or empty segment |
| Calculator.SegmentDefault | timecalc.js:177-179 | `parseInt(seg ? seg : 0)` is the segment's value, or 0 |
| Calculator.TimeCalculator.ParseInput | timecalc.js:111-185 | the running total starts at 0:0:0 in a fresh `Time`, and ends at `Parse(input)` whatever it held before |
| Calculator.TimeCalculator.FormattedTime | timecalc.js:193-194 | the formatted total is `hours:minutes:seconds`, unpadded |
| CalculatorProperties.ParseLinesArranged | timecalc.js:126-184 | after any number of lines, minutes and seconds of the total are in range |
| CalculatorProperties.StepTotal | timecalc.js:128-183 | one more line on an arranged whole total adds exactly what the line is worth in seconds |
| CalculatorProperties.ParseLinesTotal | timecalc.js:111-185 | when no line reads NaN, the total is whole, arranged, and worth the sum of what the lines are worth |
| CalculatorProperties.StepKeepsNaN | timecalc.js:183 | a NaN field of the total stays NaN through one more line |
| CalculatorProperties.ParseLinesKeepsNaN | timecalc.js:126-184 | once a field of the total is NaN, it is NaN in the final total |
| CalculatorProperties.FirstLineNaN | timecalc.js:126-184 | a first line whose hours read NaN makes the hours of the total NaN, whatever follows |
| CalculatorProperties.DecimalHoursAddsMinutes | timecalc.js:169-172 | a decimal line adds nothing to hours and seconds |
| CalculatorProperties.NumeralReplace | timecalc.js:170 | `replace(",", ".")` turns the separator of a numeral `w,f` or `w.f` of digits into a dot |
| CalculatorProperties.DecimalNumeralLine | timecalc.js:169-172 | a line of digits w and f around a comma or a dot is read as decimal hours and adds `Math.round` of 60 times the hours `w.f` denotes, as minutes |
| CalculatorProperties.UnitWordsWithoutDigit | timecalc.js:142-145 | a unit-words line without a digit adds nothing |
| CalculatorProperties.ParseOneLine | timecalc.js:116 | text without a line feed is one line |
| CalculatorProperties.ColonClassified | timecalc.js:133-175 | a line without the letters h, m, s, a comma or a dot is read in colon form |
| CalculatorProperties.PlainLine | timecalc.js:175-178 | a non-empty line without a colon, a comma, a dot or the letters h, m, s is in colon form and adds `parseInt` of the whole line as hours |
| CalculatorProperties.SplitThree | timecalc.js:176 | `x:y:z` splits at its colons into x, y and z |
| CalculatorProperties.ColonLine | timecalc.js:175-180 | a line `x:y:z` of non-empty pieces without those letters and marks adds `parseInt` of each piece |
| CalculatorProperties.ThreeSegments | timecalc.js:176-179 | a colon line of three non-empty segments adds `parseInt` of each |
| CalculatorProperties.NumberStringChars | timecalc.js:194 | `String(x)` is non-empty and holds no colon, comma, dot, h, m, s or line feed |
| CalculatorProperties.FormatLineAmount | timecalc.js:194 | the formatted total, read back as a line, is in colon form and gives each field back, NaN included |
| CalculatorProperties.FormatNoLineFeed | timecalc.js:194 | the formatted total is a single line |
| CalculatorProperties.FormatParse | timecalc.js:194 | parsing the formatted form of an arranged total gives that total back |
| CalculatorProperties.ParseFormatParse | timecalc.js:111-194 | formatting a parse result and parsing it again changes nothing |
| CalculatorExamples.ParseIntExamples | timecalc.js:177 | `parseInt` reads "0", "1", "2", "00", "15", "30", "45" and "90" as their values |
| CalculatorExamples.ParseIntStopsAtDot | timecalc.js:151 | `parseInt("1.5")` is 1 |
| CalculatorExamples.ParseIntSpaceAndSign | timecalc.js:151 | `parseInt(" -7")` is -7 |
| CalculatorExamples.ParseIntHexadecimal | timecalc.js:151 | `parseInt("0x1F")` is 31 |
| CalculatorExamples.ParseIntNoDigits | timecalc.js:151 | `parseInt("abc")` is NaN |
| CalculatorExamples.ColonExample | timecalc.js:175-180 | "2:15:30" adds 2 hours, 15 minutes and 30 seconds |
| CalculatorExamples.ParseThreeLines | timecalc.js:116-184 | three lines are added one after the other |
| CalculatorExamples.ThirdStep | timecalc.js:183 | adding 90 seconds to 1:45:0 arranges to 1:46:30 |
| CalculatorExamples.MultiLineExample | timecalc.js:111-185 | "1:00:00", "0:45:00" and "0:00:90" on three lines total 1:46:30 |
| CalculatorExamples.DecimalClassified | timecalc.js:169 | "1.5" and "1,5" are read as decimal hours |
| CalculatorExamples.FirstCommaBecomesDot | timecalc.js:170 | "1,5" becomes "1.5", and "1,5,5" becomes "1.5,5" |
| CalculatorExamples.ParseFloatExample | timecalc.js:170 | `parseFloat("1.5")` is 15 / 10 |
| CalculatorExamples.RoundExample | timecalc.js:171 | `Math.round(1.5 * 60)` is 90 |
| CalculatorExamples.DecimalExample | timecalc.js:169-172 | "1.5" and "1,5" add 90 minutes |
| CalculatorExamples.DecimalParseExample | timecalc.js:111-185 | the text "1.5" totals 1:30:0 |
| CalculatorExamples.UnitWordsExample | timecalc.js:140-165 | "2 hours 30 minutes" adds 2 hours and 30 minutes |
| CalculatorExamples.UpperCaseUnitExample | timecalc.js:133-147 | in "30 Minutes 1 hour", the unit "Minutes" is lower-cased and counts |
| CalculatorExamples.OtherUnit | timecalc.js:148-161 | a pair whose lower-cased unit is none of the six unit words adds nothing |
| CalculatorExamples.UnknownUnitExample | timecalc.js:148-161 | in "2 fortnights 1 hour", the unknown unit adds nothing and the next pair is still read |
| CalculatorExamples.PrecedenceExample | timecalc.js:133-172 | "1.5 hours" is read as unit words, and adds 1 hour |
| CalculatorExamples.UnknownUnitAloneExample | timecalc.js:175-180 | "2 dozen" falls through to colon form and adds 2 hours |
| CalculatorExamples.NoNumberExample | timecalc.js:175-180 | "unknown" is read in colon form and makes the hours NaN |
| CalculatorExamples.NoNumberParseExample | timecalc.js:126-184 | a first line "unknown" makes the hours of the total NaN, whatever follows |
| CalculatorExamples.EmptyExample | timecalc.js:116-184 | an empty text totals 0:0:0 |

## Left out

- The jQuery and DOM glue is left out. This covers the plugin's initialisation and
  options, the `keyup` handler, writing the formatted total into the
  output element, and the `timecalcupdate` event. Only the formatted string that
  `update` builds is modelled.
- Reading the text from the input element is left out: the text is a parameter.
- JavaScript numbers are doubles. The model uses unbounded integers, so it does not
  capture rounding, loss of precision beyond 2^53, or `Infinity`. A numeral whose
  value is at least about 1.8 × 10^308 (the largest double, rounded up) gives
  `Infinity` from `parseInt` in JavaScript, and a whole number in the model.
- `parseFloat`: exponents (`1e2`) and the word `Infinity` are not modelled. The
  numeral is read exactly as a decimal fraction, and `Math.round(x * 60)` is computed
  exactly, so the model ignores floating-point error in `x * 60`. The line
  "Infinity." reads as `Infinity` minutes in JavaScript, and as NaN minutes here.
- `TimeValue.Time.ArrangeTime`: the model's loops end because its integers are
  unbounded. In JavaScript, once minutes or seconds is `Infinity`, or so large that
  subtracting 60 leaves it unchanged, the loops of `arrangeTime` never end; the line
  "Infinity." hangs the plugin. The model does not capture this.
- `String(x)` is modelled for whole numbers written in plain digits, and for NaN.
  JavaScript writes a whole number of 10^21 or more in exponent form ("1e+21") and an
  infinite one as "Infinity"; the model does not.
- `CalculatorProperties.FormatParse` and `CalculatorProperties.ParseFormatParse` hold
  of the model's unbounded integers only. In JavaScript, the text
  "1000000000000000000000" totals "1e+21:0:0", and parsing that gives 1 hour.
- `toLowerCase` is modelled on the letters A to Z only. The result is only compared
  with the six unit words, and a non-ASCII capital never lowers to one of their
  letters alone, so the comparisons come out as in JavaScript.
- `TimeValue.Time.GetHours`, `GetMinutes` and `GetSeconds` return the fields and
  carry no contract.
