/**
 * The JavaScript string built-ins that the calculator relies on: `split` on one
 * character, `indexOf(w) !== -1`, a `/[0-9]/` match, `toLowerCase`, the first-match
 * `replace`, `parseInt`, `parseFloat`, and the conversion of a number to a string.
 */
module JsText {
  import opened Wrappers
  import opened JsNumber

  // ---------------------------------------------------------------------------
  // split, join, indexOf, replace, toLowerCase

  /** `s.split(d)` for a one-character separator `d`. */
  function Split(s: string, d: char): (r: seq<string>)
    ensures |r| >= 1
    ensures forall i :: 0 <= i < |r| ==> d !in r[i]
  {
    if s == [] then [""]
    else if s[0] == d then [""] + Split(s[1..], d)
    else
      var rest := Split(s[1..], d);
      [[s[0]] + rest[0]] + rest[1..]
  }

  /** `parts.join(d)`: the inverse of `Split`. */
  function Join(parts: seq<string>, d: char): string
    requires |parts| >= 1
  {
    if |parts| == 1 then parts[0] else parts[0] + [d] + Join(parts[1..], d)
  }

  /** Splitting undoes joining whenever no piece holds the separator. */
  lemma {:induction false} SplitJoin(parts: seq<string>, d: char)
    requires |parts| >= 1
    requires forall i :: 0 <= i < |parts| ==> d !in parts[i]
    ensures Split(Join(parts, d), d) == parts
  {
    if |parts| == 1 {
      SplitNoSeparator(parts[0], d);
    } else {
      SplitJoin(parts[1..], d);
      SplitAfterPiece(parts[0], Join(parts[1..], d), d);
    }
  }

  /** Joining undoes splitting: no character of the input is lost or added. */
  lemma {:induction false} JoinSplit(s: string, d: char)
    ensures Join(Split(s, d), d) == s
  {
    if s != [] {
      JoinSplit(s[1..], d);
      var rest := Split(s[1..], d);
      if s[0] != d && |rest| > 1 {
        assert Join(rest, d) == rest[0] + [d] + Join(rest[1..], d);
        assert ([s[0]] + rest[0]) + [d] + Join(rest[1..], d) == [s[0]] + Join(rest, d);
      }
    }
  }

  /** A string without the separator is split into itself alone. */
  lemma {:induction false} SplitNoSeparator(s: string, d: char)
    requires d !in s
    ensures Split(s, d) == [s]
  {
    if s != [] {
      SplitNoSeparator(s[1..], d);
      assert [s[0]] + s[1..] == s;
    }
  }

  /** The first piece of a split is everything before the first separator. */
  lemma {:induction false} SplitAfterPiece(x: string, y: string, d: char)
    requires d !in x
    ensures Split(x + [d] + y, d) == [x] + Split(y, d)
  {
    if x == [] {
      assert x + [d] + y == [d] + y;
      assert ([d] + y)[1..] == y;
    } else {
      assert (x + [d] + y)[1..] == x[1..] + [d] + y;
      SplitAfterPiece(x[1..], y, d);
      assert [x[0]] + x[1..] == x;
    }
  }

  /** `s.indexOf(w) !== -1`: `w` occurs somewhere in `s`. */
  predicate Contains(s: string, w: string)
    decreases |s|
  {
    w <= s || (s != [] && Contains(s[1..], w))
  }

  /** `w` is the slice of `s` that starts at position i. */
  predicate OccursAt(s: string, w: string, i: nat) {
    i + |w| <= |s| && s[i..i + |w|] == w
  }

  /** A slice of `s` equal to `w` makes `Contains` hold. */
  lemma {:induction false} ContainsAt(s: string, w: string, i: nat)
    requires i + |w| <= |s| && s[i..i + |w|] == w
    ensures Contains(s, w)
  {
    if i > 0 {
      assert s[1..][i - 1..i - 1 + |w|] == s[i..i + |w|];
      ContainsAt(s[1..], w, i - 1);
    }
  }

  /** Conversely, when `Contains` holds, `w` is the slice of `s` at some position. */
  lemma {:induction false} ContainsSlice(s: string, w: string)
    requires Contains(s, w)
    ensures exists i: nat :: OccursAt(s, w, i)
  {
    if w <= s {
      assert s[0..|w|] == w;
      assert OccursAt(s, w, 0);
    } else {
      ContainsSlice(s[1..], w);
      var j: nat :| OccursAt(s[1..], w, j);
      assert s[j + 1..j + 1 + |w|] == s[1..][j..j + |w|];
      assert OccursAt(s, w, j + 1);
    }
  }

  /** `s.indexOf(w) !== -1` holds exactly when some slice of `s` equals `w`. */
  lemma ContainsIff(s: string, w: string)
    ensures Contains(s, w) <==> exists i: nat :: OccursAt(s, w, i)
  {
    if Contains(s, w) {
      ContainsSlice(s, w);
    } else if exists i: nat :: OccursAt(s, w, i) {
      var i: nat :| OccursAt(s, w, i);
      ContainsAt(s, w, i);
    }
  }

  /** A non-empty word whose first letter never occurs in `s` does not occur in `s`. */
  lemma {:induction false} NotContains(s: string, w: string)
    requires w != [] && w[0] !in s
    ensures !Contains(s, w)
  {
    if s != [] {
      assert s[0] in s;
      NotContains(s[1..], w);
    }
  }

  predicate IsDecimalDigit(c: char) {
    '0' <= c <= '9'
  }

  /** `s.match(/[0-9]/g) != null`: the string holds at least one decimal digit. */
  predicate HasDigit(s: string) {
    s != [] && (IsDecimalDigit(s[0]) || HasDigit(s[1..]))
  }

  /** `String.prototype.toLowerCase` on one character, for the letters A to Z. */
  function LowerChar(c: char): char {
    if 'A' <= c <= 'Z' then (c as int - 'A' as int + 'a' as int) as char else c
  }

  function ToLower(s: string): string {
    if s == [] then [] else [LowerChar(s[0])] + ToLower(s[1..])
  }

  /** `ToLower` maps each character on its own and keeps the length. */
  lemma {:induction false} ToLowerChars(s: string)
    ensures |ToLower(s)| == |s|
    ensures forall i :: 0 <= i < |s| ==> ToLower(s)[i] == LowerChar(s[i])
  {
    if s != [] {
      ToLowerChars(s[1..]);
    }
  }

  /** Text without a capital letter A to Z is its own lower case. */
  lemma ToLowerOfLower(s: string)
    requires forall i :: 0 <= i < |s| ==> !('A' <= s[i] <= 'Z')
    ensures ToLower(s) == s
  {
    ToLowerChars(s);
  }

  /** `s.indexOf(c)` for a character that occurs in `s`: the position of its first occurrence. */
  function IndexOf(s: string, c: char): (i: nat)
    requires c in s
    ensures i < |s| && s[i] == c && c !in s[..i]
  {
    if s[0] == c then 0
    else
      assert s == [s[0]] + s[1..];
      var j := IndexOf(s[1..], c);
      assert s[..j + 1] == [s[0]] + s[1..][..j];
      j + 1
  }

  /** `s.replace(from, to)` with one-character strings: only the first occurrence is replaced. */
  function ReplaceFirst(s: string, from: char, to: char): string {
    if from in s then
      var i := IndexOf(s, from);
      s[..i] + [to] + s[i + 1..]
    else s
  }

  /**
   * `ReplaceFirst` changes the first occurrence of `from`, if any, into `to`, and keeps
   * every other character, later occurrences of `from` included.
   */
  lemma ReplaceFirstChars(s: string, from: char, to: char)
    ensures |ReplaceFirst(s, from, to)| == |s|
    ensures from !in s ==> ReplaceFirst(s, from, to) == s
    ensures from in s ==> forall i :: 0 <= i < |s| ==>
              ReplaceFirst(s, from, to)[i] == (if i == IndexOf(s, from) then to else s[i])
    ensures from in s ==> from !in ReplaceFirst(s, from, to)[..IndexOf(s, from)]
  {
    if from in s {
      var i := IndexOf(s, from);
      var r := ReplaceFirst(s, from, to);
      assert r == s[..i] + [to] + s[i + 1..];
      forall k | 0 <= k < |s|
        ensures r[k] == (if k == i then to else s[k])
      {
        if k > i {
          assert r[k] == s[i + 1..][k - i - 1];
        }
      }
      assert r[..i] == s[..i];
    }
  }

  // ---------------------------------------------------------------------------
  // parseInt and parseFloat

  /** The characters that `parseInt` and `parseFloat` skip at the front of their argument. */
  predicate IsWhiteSpace(c: char) {
    c == '\t' || c == '\n' || c == '\U{000B}' || c == '\U{000C}' || c == '\r' || c == ' '
    || c == '\U{00A0}' || c == '\U{1680}' || ('\U{2000}' <= c <= '\U{200A}')
    || c == '\U{2028}' || c == '\U{2029}' || c == '\U{202F}' || c == '\U{205F}'
    || c == '\U{3000}' || c == '\U{FEFF}'
  }

  function TrimStart(s: string): string {
    if s != [] && IsWhiteSpace(s[0]) then TrimStart(s[1..]) else s
  }

  /** `TrimStart` removes a prefix of white space and stops at the first other character. */
  lemma {:induction false} TrimStartSuffix(s: string)
    ensures |TrimStart(s)| <= |s| && TrimStart(s) == s[|s| - |TrimStart(s)|..]
    ensures forall i :: 0 <= i < |s| - |TrimStart(s)| ==> IsWhiteSpace(s[i])
    ensures TrimStart(s) == [] || !IsWhiteSpace(TrimStart(s)[0])
  {
    if s != [] && IsWhiteSpace(s[0]) {
      var r := TrimStart(s[1..]);
      TrimStartSuffix(s[1..]);
      assert TrimStart(s) == r;
      assert s[1..][|s| - 1 - |r|..] == s[|s| - |r|..];
      forall i | 0 < i < |s| - |r|
        ensures IsWhiteSpace(s[i])
      {
        assert s[i] == s[1..][i - 1];
      }
    }
  }

  /** The value of a digit character in base 16 or below, or `radix` when it is not one. */
  function DigitValue(c: char, radix: nat): (v: nat)
    requires radix == 10 || radix == 16
    ensures v <= radix
  {
    if '0' <= c <= '9' && (c as int - '0' as int) < radix then c as int - '0' as int
    else if radix == 16 && 'a' <= c <= 'f' then c as int - 'a' as int + 10
    else if radix == 16 && 'A' <= c <= 'F' then c as int - 'A' as int + 10
    else radix
  }

  predicate IsDigit(c: char, radix: nat)
    requires radix == 10 || radix == 16
  {
    DigitValue(c, radix) < radix
  }

  /** The longest prefix of `s` made of digits in the given radix. */
  function LeadingDigits(s: string, radix: nat): (r: string)
    requires radix == 10 || radix == 16
    ensures |r| <= |s|
    ensures forall i :: 0 <= i < |r| ==> IsDigit(r[i], radix)
  {
    if s != [] && IsDigit(s[0], radix) then [s[0]] + LeadingDigits(s[1..], radix) else []
  }

  /** `LeadingDigits` is a prefix and stops at the first character that is not a digit. */
  lemma {:induction false} LeadingDigitsPrefix(s: string, radix: nat)
    requires radix == 10 || radix == 16
    ensures LeadingDigits(s, radix) <= s
    ensures |LeadingDigits(s, radix)| < |s| ==> !IsDigit(s[|LeadingDigits(s, radix)|], radix)
  {
    if s != [] && IsDigit(s[0], radix) {
      LeadingDigitsPrefix(s[1..], radix);
    }
  }

  /** The number a string of digits denotes, most significant digit first. */
  function DigitsValue(ds: string, radix: nat): nat
    requires radix == 10 || radix == 16
    requires forall i :: 0 <= i < |ds| ==> IsDigit(ds[i], radix)
  {
    if ds == [] then 0
    else DigitsValue(ds[..|ds| - 1], radix) * radix + DigitValue(ds[|ds| - 1], radix)
  }

  /** The string with a leading `+` or `-` removed, and whether it was `-`. */
  function StripSign(s: string): (bool, string) {
    if s != [] && (s[0] == '-' || s[0] == '+') then (s[0] == '-', s[1..]) else (false, s)
  }

  /**
   * `parseInt(s)` with no radix: skip white space, read an optional sign, then the
   * hexadecimal digits after a `0x`/`0X` prefix or else the decimal digits, and stop
   * at the first character that is not one. None stands for NaN (no digit at all).
   */
  function ParseIntPrefix(s: string): Option<int> {
    var (negative, u) := StripSign(TrimStart(s));
    match UnsignedIntPrefix(u)
    case None => None
    case Some(v) => Some(if negative then -(v as int) else v)
  }

  /** The digits `parseInt` reads after the sign: hexadecimal after `0x`/`0X`, decimal otherwise. */
  function UnsignedIntPrefix(u: string): Option<nat> {
    if HexPrefixed(u) then DigitsIn(u[2..], 16) else DigitsIn(u, 10)
  }

  predicate HexPrefixed(u: string) {
    |u| >= 2 && u[0] == '0' && (u[1] == 'x' || u[1] == 'X')
  }

  /** The value of the digits that start `s` in the given radix, None when there are none. */
  function DigitsIn(s: string, radix: nat): Option<nat>
    requires radix == 10 || radix == 16
  {
    var ds := LeadingDigits(s, radix);
    if ds == [] then None else Some(DigitsValue(ds, radix))
  }

  /** `parseInt(s)` as a JavaScript number. */
  function ParseInt(s: string): Number {
    match ParseIntPrefix(s)
    case Some(n) => Int(n)
    case None => NaN
  }

  /** A decimal numeral: the number `mantissa / 10^scale`. */
  datatype Decimal = Decimal(mantissa: int, scale: nat)

  /**
   * `parseFloat(s)` for numerals without an exponent: skip white space, read an
   * optional sign, the integer digits, and the fraction digits after a `.`; at least
   * one digit must be read. None stands for NaN.
   */
  function ParseFloatPrefix(s: string): Option<Decimal> {
    var (negative, u) := StripSign(TrimStart(s));
    match UnsignedFloatPrefix(u)
    case None => None
    case Some(x) => Some(if negative then Decimal(-x.mantissa, x.scale) else x)
  }

  /** The numeral `parseFloat` reads after the sign: integer digits, then a `.` and fraction digits. */
  function UnsignedFloatPrefix(u: string): Option<Decimal> {
    var whole := LeadingDigits(u, 10);
    var rest := u[|whole|..];
    var fraction := if rest != [] && rest[0] == '.' then LeadingDigits(rest[1..], 10) else [];
    if whole == [] && fraction == [] then None
    else Some(Decimal(DigitsValue(whole + fraction, 10), |fraction|))
  }

  function Pow10(k: nat): (p: nat)
    ensures p >= 1
  {
    if k == 0 then 1 else 10 * Pow10(k - 1)
  }

  /**
   * `Math.round(x * 60)` for the exact value x of a decimal numeral: the whole number
   * nearest to 60 x, halves rounded up (towards +infinity).
   */
  function RoundTimes60(x: Decimal): (r: int)
    ensures 0 < 2 * r * Pow10(x.scale) - 120 * x.mantissa + Pow10(x.scale) <= 2 * Pow10(x.scale)
  {
    var p := Pow10(x.scale);
    var r := (120 * x.mantissa + p) / (2 * p);
    DivBounds(120 * x.mantissa + p, 2 * p);
    r
  }

  lemma DivBounds(a: int, b: int)
    requires b > 0
    ensures b * (a / b) <= a < b * (a / b) + b
  {
  }

  // ---------------------------------------------------------------------------
  // Number to string

  function DigitChar(d: nat): (c: char)
    requires d < 10
    ensures IsDigit(c, 10) && DigitValue(c, 10) == d
  {
    ('0' as int + d) as char
  }

  /** The decimal digits of n, without leading zeros. */
  function NatString(n: nat): (s: string)
    ensures s != []
    ensures forall i :: 0 <= i < |s| ==> IsDigit(s[i], 10)
  {
    if n < 10 then [DigitChar(n)] else NatString(n / 10) + [DigitChar(n % 10)]
  }

  /** `String(x)` for a JavaScript number that holds a whole number, or NaN. */
  function NumberString(x: Number): string {
    match x
    case NaN => "NaN"
    case Int(n) => if n < 0 then "-" + NatString(-n) else NatString(n)
  }

  lemma {:induction false} NatStringValue(n: nat)
    ensures DigitsValue(NatString(n), 10) == n
  {
    if n >= 10 {
      NatStringValue(n / 10);
      var s := NatString(n);
      assert s[..|s| - 1] == NatString(n / 10);
    }
  }

  lemma {:induction false} LeadingDigitsAll(s: string, radix: nat)
    requires radix == 10 || radix == 16
    requires forall i :: 0 <= i < |s| ==> IsDigit(s[i], radix)
    ensures LeadingDigits(s, radix) == s
  {
    if s != [] {
      LeadingDigitsAll(s[1..], radix);
    }
  }

  lemma DigitIsNotSeparator(c: char)
    requires IsDigit(c, 10)
    ensures !IsWhiteSpace(c) && c != '-' && c != '+' && c != 'x' && c != 'X'
  {
  }

  /** Text that does not start with white space is left as it is by `TrimStart`. */
  lemma TrimStartNoSpace(s: string)
    requires s == [] || !IsWhiteSpace(s[0])
    ensures TrimStart(s) == s
  {
  }

  /** `parseInt` skips the white space, reads the sign, then the digits after it. */
  lemma ParseIntPrefixSteps(s: string, t: string, negative: bool, u: string, v: nat)
    requires TrimStart(s) == t
    requires StripSign(t) == (negative, u) && UnsignedIntPrefix(u) == Some(v)
    ensures ParseIntPrefix(s) == Some(if negative then -(v as int) else v)
  {
  }

  /** `parseInt` gives NaN when no digit follows the sign. */
  lemma ParseIntPrefixNoDigits(s: string, t: string, negative: bool, u: string)
    requires TrimStart(s) == t
    requires StripSign(t) == (negative, u) && UnsignedIntPrefix(u) == None
    ensures ParseIntPrefix(s) == None
  {
  }

  /** After the sign, a run of decimal digits is read whole, even one that starts with 0. */
  lemma UnsignedIntDigits(s: string)
    requires s != [] && forall i :: 0 <= i < |s| ==> IsDigit(s[i], 10)
    ensures UnsignedIntPrefix(s) == Some(DigitsValue(s, 10))
  {
    LeadingDigitsAll(s, 10);
    if |s| >= 2 {
      DigitIsNotSeparator(s[1]);
    }
    assert !HexPrefixed(s);
  }

  /** After the sign, `parseInt` reads the digits of `NatString(n)` back as n. */
  lemma UnsignedIntNatString(n: nat)
    ensures UnsignedIntPrefix(NatString(n)) == Some(n)
  {
    UnsignedIntDigits(NatString(n));
    NatStringValue(n);
  }

  /** `parseInt` reads `NatString(n)` back as n. */
  lemma ParseIntNatString(n: nat)
    ensures ParseIntPrefix(NatString(n)) == Some(n)
  {
    var digits := NatString(n);
    UnsignedIntNatString(n);
    DigitIsNotSeparator(digits[0]);
    TrimStartNoSpace(digits);
    ParseIntPrefixSteps(digits, digits, false, digits, n);
  }

  /** `parseInt` reads a minus sign followed by `NatString(n)` back as -n. */
  lemma ParseIntNegatedNatString(n: nat)
    ensures ParseIntPrefix("-" + NatString(n)) == Some(-(n as int))
  {
    var digits := NatString(n);
    UnsignedIntNatString(n);
    var s := "-" + digits;
    assert s[0] == '-' && s[1..] == digits;
    TrimStartNoSpace(s);
    ParseIntPrefixSteps(s, s, true, digits, n);
  }

  /** `parseInt` of a plain string of decimal digits is the number they denote. */
  lemma ParseIntDigits(s: string)
    requires s != [] && forall i :: 0 <= i < |s| ==> IsDigit(s[i], 10)
    ensures ParseInt(s) == Int(DigitsValue(s, 10))
  {
    DigitIsNotSeparator(s[0]);
    UnsignedIntDigits(s);
    TrimStartNoSpace(s);
    ParseIntPrefixSteps(s, s, false, s, DigitsValue(s, 10));
  }

  /** `parseInt("NaN")` is NaN. */
  lemma ParseIntNaNString()
    ensures ParseInt("NaN") == NaN
  {
    var s := "NaN";
    assert UnsignedIntPrefix(s) == None by {
      assert !HexPrefixed(s) && !IsDigit(s[0], 10);
      assert LeadingDigits(s, 10) == [];
    }
    assert StripSign(s) == (false, s);
    TrimStartNoSpace(s);
    ParseIntPrefixNoDigits(s, s, false, s);
  }

  /** `parseInt(String(x))` gives x back, NaN included. */
  lemma ParseIntNumberString(x: Number)
    ensures ParseInt(NumberString(x)) == x
  {
    match x
    case NaN =>
      ParseIntNaNString();
    case Int(n) =>
      if n < 0 {
        ParseIntNegatedNatString(-n);
        assert NumberString(x) == "-" + NatString(-n);
      } else {
        ParseIntNatString(n);
        assert NumberString(x) == NatString(n);
      }
  }

  // ---------------------------------------------------------------------------
  // parseFloat on numerals

  /** Digits followed by text that does not start with a digit: exactly those digits are read. */
  lemma {:induction false} LeadingDigitsStop(w: string, t: string, radix: nat)
    requires radix == 10 || radix == 16
    requires forall i :: 0 <= i < |w| ==> IsDigit(w[i], radix)
    requires t == [] || !IsDigit(t[0], radix)
    ensures LeadingDigits(w + t, radix) == w
  {
    if w == [] {
      assert w + t == t;
    } else {
      assert (w + t)[1..] == w[1..] + t;
      LeadingDigitsStop(w[1..], t, radix);
    }
  }

  /** Digits w, a dot and digits f, then text that does not continue them. */
  lemma UnsignedFloatFraction(w: string, f: string, rest: string)
    requires forall i :: 0 <= i < |w| ==> IsDigit(w[i], 10)
    requires forall i :: 0 <= i < |f| ==> IsDigit(f[i], 10)
    requires w + f != []
    requires rest == [] || !IsDigit(rest[0], 10)
    ensures UnsignedFloatPrefix(w + ("." + (f + rest))) == Some(Decimal(DigitsValue(w + f, 10), |f|))
  {
    var tail := "." + (f + rest);
    var u := w + tail;
    LeadingDigitsStop(w, tail, 10);
    assert u[|w|..] == tail;
    LeadingDigitsStop(f, rest, 10);
    UnsignedFloatSteps(u, w, tail, f);
  }

  /** `UnsignedFloatPrefix` read in steps: the integer digits, the dot, the fraction digits. */
  lemma UnsignedFloatSteps(u: string, whole: string, tail: string, fraction: string)
    requires LeadingDigits(u, 10) == whole && |whole| <= |u| && u[|whole|..] == tail
    requires tail != [] && tail[0] == '.' && LeadingDigits(tail[1..], 10) == fraction
    requires whole + fraction != []
    ensures UnsignedFloatPrefix(u) == Some(Decimal(DigitsValue(whole + fraction, 10), |fraction|))
  {
  }

  /** Digits w, then text that neither continues them nor starts a fraction. */
  lemma UnsignedFloatWhole(w: string, rest: string)
    requires w != [] && forall i :: 0 <= i < |w| ==> IsDigit(w[i], 10)
    requires rest == [] || (rest[0] != '.' && !IsDigit(rest[0], 10))
    ensures UnsignedFloatPrefix(w + rest) == Some(Decimal(DigitsValue(w, 10), 0))
  {
    LeadingDigitsStop(w, rest, 10);
    assert (w + rest)[|w|..] == rest;
    assert w + [] == w;
  }

  /** `parseFloat` is read in steps: white space, then the sign, then the unsigned numeral. */
  lemma ParseFloatSteps(s: string, t: string, negative: bool, u: string, x: Decimal)
    requires TrimStart(s) == t
    requires StripSign(t) == (negative, u) && UnsignedFloatPrefix(u) == Some(x)
    ensures ParseFloatPrefix(s) == Some(if negative then Decimal(-x.mantissa, x.scale) else x)
  {
  }

  /** `parseFloat` gives NaN when no numeral follows the sign. */
  lemma ParseFloatNoNumeral(s: string, t: string, negative: bool, u: string)
    requires TrimStart(s) == t
    requires StripSign(t) == (negative, u) && UnsignedFloatPrefix(u) == None
    ensures ParseFloatPrefix(s) == None
  {
  }

  /**
   * A `-` in front of a numeral that starts with a digit or a dot negates what
   * `parseFloat` reads, and leaves NaN as NaN.
   */
  lemma ParseFloatNegated(u: string)
    requires u != [] && (u[0] == '.' || IsDigit(u[0], 10))
    ensures ParseFloatPrefix("-" + u) == match ParseFloatPrefix(u)
                                          case None => None
                                          case Some(x) => Some(Decimal(-x.mantissa, x.scale))
  {
    var s := "-" + u;
    assert s[0] == '-' && s[1..] == u;
    TrimStartNoSpace(s);
    TrimStartNoSpace(u);
    assert StripSign(u) == (false, u);
    match UnsignedFloatPrefix(u)
    case None =>
      ParseFloatNoNumeral(u, u, false, u);
      ParseFloatNoNumeral(s, s, true, u);
    case Some(x) =>
      ParseFloatSteps(u, u, false, u, x);
      ParseFloatSteps(s, s, true, u, x);
  }

  /**
   * `parseFloat` of a numeral `w.f` followed by text that neither continues it nor
   * starts an exponent: the digits of w and f read together, scaled down by the digits
   * of f.
   */
  lemma ParseFloatFraction(w: string, f: string, rest: string)
    requires forall i :: 0 <= i < |w| ==> IsDigit(w[i], 10)
    requires forall i :: 0 <= i < |f| ==> IsDigit(f[i], 10)
    requires w + f != []
    requires rest == [] || (!IsDigit(rest[0], 10) && rest[0] != 'e' && rest[0] != 'E')
    ensures ParseFloatPrefix(w + ("." + (f + rest))) == Some(Decimal(DigitsValue(w + f, 10), |f|))
  {
    var u := w + ("." + (f + rest));
    UnsignedFloatFraction(w, f, rest);
    assert u[0] == if w != [] then w[0] else '.';
    if w != [] {
      DigitIsNotSeparator(w[0]);
    }
    TrimStartNoSpace(u);
    assert StripSign(u) == (false, u);
    ParseFloatSteps(u, u, false, u, Decimal(DigitsValue(w + f, 10), |f|));
  }

  /**
   * `parseFloat` of a numeral without a fraction, followed by text that neither
   * continues it nor starts a fraction or an exponent: the value of its digits.
   */
  lemma ParseFloatWhole(w: string, rest: string)
    requires w != [] && forall i :: 0 <= i < |w| ==> IsDigit(w[i], 10)
    requires rest == [] || (rest[0] != '.' && !IsDigit(rest[0], 10) && rest[0] != 'e' && rest[0] != 'E')
    ensures ParseFloatPrefix(w + rest) == Some(Decimal(DigitsValue(w, 10), 0))
  {
    var u := w + rest;
    UnsignedFloatWhole(w, rest);
    assert u[0] == w[0];
    DigitIsNotSeparator(w[0]);
    TrimStartNoSpace(u);
    assert StripSign(u) == (false, u);
    ParseFloatSteps(u, u, false, u, Decimal(DigitsValue(w, 10), 0));
  }
}
