/**
 * The `Time` object of timecalc.js: a mutable (hours, minutes, seconds) triple of
 * JavaScript numbers, with `arrangeTime` carrying overflow and borrowing underflow
 * between the fields.
 */
module TimeValue {
  import opened JsNumber

  /** The value held by a `Time` object. */
  datatype Hms = Hms(hours: Number, minutes: Number, seconds: Number)

  const Zero := Hms(Int(0), Int(0), Int(0))

  predicate IsWhole(t: Hms) {
    t.hours.Int? && t.minutes.Int? && t.seconds.Int?
  }

  /** The duration in seconds of a triple with no NaN field. */
  function TotalSeconds(t: Hms): int
    requires IsWhole(t)
  {
    3600 * t.hours.value + 60 * t.minutes.value + t.seconds.value
  }

  /** Field-wise addition, as the parser adds a line's amounts into the running fields. */
  function AddHms(a: Hms, b: Hms): Hms {
    Hms(Add(a.hours, b.hours), Add(a.minutes, b.minutes), Add(a.seconds, b.seconds))
  }

  /** The range that `arrangeTime` leaves minutes and seconds in: strictly between -60 and 60. */
  predicate InRange(x: Number) {
    x.NaN? || -60 < x.value < 60
  }

  /** Minutes and seconds are both in range: the state `arrangeTime` leaves behind. */
  predicate Arranged(t: Hms) {
    InRange(t.minutes) && InRange(t.seconds)
  }

  /**
   * The effect of `while (lo >= 60) { hi += 1; lo -= 60; }`: as many units of 60 as
   * fit in `lo` move into `hi`.
   */
  function CarryUp(hi: Number, lo: Number): (r: (Number, Number))
    ensures r.0.Int? == hi.Int? && r.1.Int? == lo.Int?
    ensures lo.Int? ==> r.1.value < 60 && (lo.value >= 60 ==> r.1.value >= 0)
    ensures lo.Int? && lo.value < 60 ==> r == (hi, lo)
    ensures hi.Int? && lo.Int? ==> 60 * r.0.value + r.1.value == 60 * hi.value + lo.value
  {
    if AtLeast(lo, 60) then (Add(hi, Int(lo.value / 60)), Int(lo.value % 60)) else (hi, lo)
  }

  /**
   * The effect of `while (lo <= -60) { hi -= 1; lo += 60; }`: as many units of 60 as
   * fit in `-lo` are borrowed from `hi`.
   */
  function BorrowDown(hi: Number, lo: Number): (r: (Number, Number))
    ensures r.0.Int? == hi.Int? && r.1.Int? == lo.Int?
    ensures lo.Int? ==> r.1.value > -60 && (lo.value <= -60 ==> r.1.value <= 0)
    ensures lo.Int? && lo.value > -60 ==> r == (hi, lo)
    ensures hi.Int? && lo.Int? ==> 60 * r.0.value + r.1.value == 60 * hi.value + lo.value
  {
    if AtMost(lo, -60) then (Add(hi, Int(-((-lo.value) / 60))), Int(-((-lo.value) % 60))) else (hi, lo)
  }

  /** What `arrangeTime` makes of a triple: its four loops, one after the other. */
  function Arrange(t: Hms): Hms {
    var (m1, s1) := CarryUp(t.minutes, t.seconds);
    var (h2, m2) := CarryUp(t.hours, m1);
    var (m3, s3) := BorrowDown(m2, s1);
    var (h4, m4) := BorrowDown(h2, m3);
    Hms(h4, m4, s3)
  }

  /** After `arrangeTime`, minutes and seconds are in range; hours are not bounded. */
  lemma ArrangeArranged(t: Hms)
    ensures Arranged(Arrange(t))
  {
  }

  /** `arrangeTime` keeps the total number of seconds, and keeps every field a whole number. */
  lemma ArrangeKeepsTotal(t: Hms)
    requires IsWhole(t)
    ensures IsWhole(Arrange(t)) && TotalSeconds(Arrange(t)) == TotalSeconds(t)
  {
  }

  /** A NaN field stays NaN and a whole-number field stays a whole number. */
  lemma ArrangeKeepsNaN(t: Hms)
    ensures Arrange(t).hours.NaN? == t.hours.NaN?
    ensures Arrange(t).minutes.NaN? == t.minutes.NaN?
    ensures Arrange(t).seconds.NaN? == t.seconds.NaN?
  {
  }

  /** `arrangeTime` changes nothing when minutes and seconds are already in range. */
  lemma ArrangeFixedPoint(t: Hms)
    requires Arranged(t)
    ensures Arrange(t) == t
  {
  }

  /** `arrangeTime` is idempotent. */
  lemma ArrangeIdempotent(t: Hms)
    ensures Arrange(Arrange(t)) == Arrange(t)
  {
    ArrangeArranged(t);
    ArrangeFixedPoint(Arrange(t));
  }

  /** Borrowing: -90 seconds become -1 minute and -30 seconds. */
  lemma ArrangeBorrowExample()
    ensures Arrange(Hms(Int(0), Int(0), Int(-90))) == Hms(Int(0), Int(-1), Int(-30))
  {
  }

  /**
   * What `setTime(h, m, s)` makes of a `Time` holding `t`: `setHours(h)` stores h,
   * `setMinutes(m)` stores m and arranges, `setSeconds(s)` stores s and arranges.
   */
  function SetTimeResult(t: Hms, h: Number, m: Number, s: Number): Hms {
    var afterMinutes := Arrange(Hms(h, m, t.seconds));
    Arrange(afterMinutes.(seconds := s))
  }

  /**
   * When the seconds held before `setTime` are in range (true of a fresh `Time` and
   * after every arrangement), `setTime(h, m, s)` leaves an arranged triple worth
   * exactly `3600 h + 60 m + s` seconds.
   */
  lemma SetTimeTotal(t: Hms, h: int, m: int, s: int)
    requires InRange(t.seconds)
    ensures Arranged(SetTimeResult(t, Int(h), Int(m), Int(s)))
    ensures var r := SetTimeResult(t, Int(h), Int(m), Int(s));
            IsWhole(r) && TotalSeconds(r) == 3600 * h + 60 * m + s
  {
    var u := Hms(Int(h), Int(m), t.seconds);
    var afterMinutes := Arrange(u);
    if t.seconds.Int? {
      ArrangeKeepsTotal(u);
    }
    assert afterMinutes.seconds == t.seconds;
    var v := afterMinutes.(seconds := Int(s));
    assert IsWhole(v) && TotalSeconds(v) == 3600 * h + 60 * m + s;
    ArrangeKeepsTotal(v);
    ArrangeArranged(v);
  }

  /**
   * `setTime` with an arranged triple on an arranged `Time` stores that triple
   * unchanged, whatever the `Time` held before.
   */
  lemma SetTimeArranged(t: Hms, u: Hms)
    requires InRange(t.seconds) && Arranged(u)
    ensures SetTimeResult(t, u.hours, u.minutes, u.seconds) == u
  {
    var afterMinutes := Arrange(Hms(u.hours, u.minutes, t.seconds));
    ArrangeFixedPoint(Hms(u.hours, u.minutes, t.seconds));
    ArrangeFixedPoint(u);
  }

  /** The `Time` object: three number fields that the setters and `arrangeTime` update in place. */
  class Time {
    var hours: Number
    var minutes: Number
    var seconds: Number

    function Value(): Hms
      reads this
    {
      Hms(hours, minutes, seconds)
    }

    /** A new `Time` is 0:0:0. */
    constructor ()
      ensures Value() == Zero
    {
      hours := Int(0);
      minutes := Int(0);
      seconds := Int(0);
    }

    function GetHours(): Number
      reads this
    {
      hours
    }

    function GetMinutes(): Number
      reads this
    {
      minutes
    }

    function GetSeconds(): Number
      reads this
    {
      seconds
    }

    /** Stores the hours as given, without arranging, and touches no other field. */
    method SetHours(h: Number)
      modifies this
      ensures Value() == old(Value()).(hours := h)
    {
      hours := h;
    }

    /** Stores the minutes, then arranges. */
    method SetMinutes(m: Number)
      modifies this
      ensures Value() == Arrange(old(Value()).(minutes := m))
      ensures Arranged(Value())
    {
      minutes := m;
      ArrangeTime();
      ArrangeArranged(old(Value()).(minutes := m));
    }

    /** Stores the seconds, then arranges. */
    method SetSeconds(s: Number)
      modifies this
      ensures Value() == Arrange(old(Value()).(seconds := s))
      ensures Arranged(Value())
    {
      seconds := s;
      ArrangeTime();
      ArrangeArranged(old(Value()).(seconds := s));
    }

    /** `setHours(h)`, then `setMinutes(m)`, then `setSeconds(s)`. */
    method SetTime(h: Number, m: Number, s: Number)
      modifies this
      ensures Value() == SetTimeResult(old(Value()), h, m, s)
      ensures Arranged(Value())
      ensures old(InRange(seconds)) && h.Int? && m.Int? && s.Int? ==>
                IsWhole(Value()) && TotalSeconds(Value()) == 3600 * h.value + 60 * m.value + s.value
    {
      SetHours(h);
      SetMinutes(m);
      SetSeconds(s);
      if old(InRange(seconds)) && h.Int? && m.Int? && s.Int? {
        SetTimeTotal(old(Value()), h.value, m.value, s.value);
      }
    }

    /**
     * Removes over- and underflow with four loops: seconds of 60 or more carry into
     * minutes, minutes of 60 or more into hours, then seconds of -60 or less borrow
     * from minutes and minutes of -60 or less from hours. A NaN field takes part in
     * no comparison, so the loops it guards never run and what is carried into it is lost.
     */
    method ArrangeTime()
      modifies this
      ensures Value() == Arrange(old(Value()))
    {
      // arrange minutes
      ghost var (m1, s1) := CarryUp(minutes, seconds);
      while AtLeast(seconds, 60)
        invariant CarryUp(minutes, seconds) == (m1, s1) && hours == old(hours)
        decreases if seconds.Int? then seconds.value else 0
      {
        CarryUpStep(minutes, seconds);
        minutes := Add(minutes, Int(1));
        seconds := Int(seconds.value - 60);
      }
      ghost var (h2, m2) := CarryUp(hours, minutes);
      while AtLeast(minutes, 60)
        invariant CarryUp(hours, minutes) == (h2, m2) && seconds == s1
        decreases if minutes.Int? then minutes.value else 0
      {
        CarryUpStep(hours, minutes);
        hours := Add(hours, Int(1));
        minutes := Int(minutes.value - 60);
      }
      // arrange seconds
      ghost var (m3, s3) := BorrowDown(minutes, seconds);
      while AtMost(seconds, -60)
        invariant BorrowDown(minutes, seconds) == (m3, s3) && hours == h2
        decreases if seconds.Int? then -seconds.value else 0
      {
        BorrowDownStep(minutes, seconds);
        minutes := Add(minutes, Int(-1));
        seconds := Int(seconds.value + 60);
      }
      ghost var (h4, m4) := BorrowDown(hours, minutes);
      while AtMost(minutes, -60)
        invariant BorrowDown(hours, minutes) == (h4, m4) && seconds == s3
        decreases if minutes.Int? then -minutes.value else 0
      {
        BorrowDownStep(hours, minutes);
        hours := Add(hours, Int(-1));
        minutes := Int(minutes.value + 60);
      }
    }
  }

  /** One turn of a carrying loop leaves the end result of the loop unchanged. */
  lemma CarryUpStep(hi: Number, lo: Number)
    requires AtLeast(lo, 60)
    ensures CarryUp(Add(hi, Int(1)), Int(lo.value - 60)) == CarryUp(hi, lo)
  {
    LessSixty(lo.value);
    if lo.value - 60 >= 60 {
      AddAssociative(hi, Int(1), Int((lo.value - 60) / 60));
    } else {
      assert lo.value / 60 == 1;
    }
  }

  /** One turn of a borrowing loop leaves the end result of the loop unchanged. */
  lemma BorrowDownStep(hi: Number, lo: Number)
    requires AtMost(lo, -60)
    ensures BorrowDown(Add(hi, Int(-1)), Int(lo.value + 60)) == BorrowDown(hi, lo)
  {
    var n := -lo.value;
    LessSixty(n);
    if n - 60 >= 60 {
      AddAssociative(hi, Int(-1), Int(-((n - 60) / 60)));
    } else {
      assert n / 60 == 1;
    }
  }

  /** Taking 60 from a number of at least 60 takes one from its quotient by 60 and keeps its remainder. */
  lemma LessSixty(n: int)
    requires n >= 60
    ensures (n - 60) / 60 == n / 60 - 1 && (n - 60) % 60 == n % 60
  {
  }
}
