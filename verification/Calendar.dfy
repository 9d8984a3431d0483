/**
 Full-dates (section 5.6 of RFC 3339) as strings and as day numbers of the proleptic
 Gregorian calendar, which is how ECMA-262 counts days.
 */
module Calendar {
  import opened Options
  import opened Decimal

  datatype Date = Date(y: nat, m: nat, d: nat)

  predicate Leap(y: nat) {
    (y % 4 == 0 && y % 100 != 0) || y % 400 == 0
  }

  function DaysIn(y: nat, m: nat): nat {
    if m == 2 then (if Leap(y) then 29 else 28)
    else if m == 4 || m == 6 || m == 9 || m == 11 then 30
    else 31
  }

  predicate Valid(x: Date) {
    1 <= x.m <= 12 && 1 <= x.d <= DaysIn(x.y, x.m)
  }

  // ---------------------------------------------------------------- day numbers

  function YearLength(y: nat): nat {
    if Leap(y) then 366 else 365
  }

  function YearStart(y: nat): nat {
    if y == 0 then 0 else YearStart(y - 1) + YearLength(y - 1)
  }

  function MonthStart(y: nat, m: nat): nat
    requires m >= 1
  {
    if m == 1 then 0 else MonthStart(y, m - 1) + DaysIn(y, m - 1)
  }

  /** Days since 1 January of year 0. */
  function Day(x: Date): nat
    requires Valid(x)
  {
    YearStart(x.y) + MonthStart(x.y, x.m) + x.d - 1
  }

  /** 1 January 1970, counted from 1 January of year 0. */
  const EPOCH := 719528

  /** The days before a month of a year with 28 days in February. */
  const MONTH_TABLE: seq<nat> := [0, 31, 59, 90, 120, 151, 181, 212, 243, 273, 304, 334]

  lemma FourthYears(y: int)
    ensures (y - 1968) / 4 == (y - 1969) / 4 + if y % 4 == 0 then 1 else 0
  {
  }

  lemma HundredthYears(y: int)
    ensures (y - 1900) / 100 == (y - 1901) / 100 + if y % 100 == 0 then 1 else 0
  {
  }

  lemma FourHundredthYears(y: int)
    ensures (y - 1600) / 400 == (y - 1601) / 400 + if y % 400 == 0 then 1 else 0
  {
  }

  lemma LeapRule(y: nat)
    ensures YearLength(y) == 365 + (if y % 4 == 0 then 1 else 0) - (if y % 100 == 0 then 1 else 0) + if y % 400 == 0 then 1 else 0
  {
    assert y % 400 == 0 ==> y % 100 == 0;
    assert y % 100 == 0 ==> y % 4 == 0;
  }

  lemma {:induction false} YearsByRule(y: nat)
    ensures YearStart(y) - EPOCH == 365 * (y - 1970) + (y - 1969) / 4 - (y - 1901) / 100 + (y - 1601) / 400
  {
    if y > 0 {
      YearsByRule(y - 1);
      FourthYears(y - 1);
      HundredthYears(y - 1);
      FourHundredthYears(y - 1);
      LeapRule(y - 1);
    }
  }

  lemma {:induction false} MonthsByTable(y: nat, m: nat)
    requires 1 <= m <= 12
    ensures MonthStart(y, m) == MONTH_TABLE[m - 1] + if m > 2 && YearLength(y) == 366 then 1 else 0
  {
    if m > 1 {
      MonthsByTable(y, m - 1);
    }
  }

  /** The next year starts 366 days later. */
  predicate InLeapYear(y: nat) {
    YearStart(y + 1) - YearStart(y) == 366
  }

  /**
   Day numbers are those of section 21.4.1.3 of ECMA-262: by the leap rule in closed form, a
   year being 366 days long where the next one starts that much later, and by the table of months.
   */
  lemma DayByRule(x: Date)
    requires Valid(x)
    ensures Day(x) - EPOCH == 365 * (x.y - 1970) + (x.y - 1969) / 4 - (x.y - 1901) / 100 + (x.y - 1601) / 400
                            + MONTH_TABLE[x.m - 1] + (if x.m > 2 && InLeapYear(x.y) then 1 else 0) + x.d - 1
  {
    YearsByRule(x.y);
    MonthsByTable(x.y, x.m);
  }

  function Next(x: Date): Date {
    if x.d < DaysIn(x.y, x.m) then Date(x.y, x.m, x.d + 1)
    else if x.m < 12 then Date(x.y, x.m + 1, 1)
    else Date(x.y + 1, 1, 1)
  }

  lemma TwelveMonths(y: nat)
    ensures MonthStart(y, 12) + 31 == YearLength(y)
  {
    assert MonthStart(y, 2) == 31;
    assert MonthStart(y, 3) == 31 + DaysIn(y, 2);
    assert MonthStart(y, 4) == MonthStart(y, 3) + 31;
    assert MonthStart(y, 5) == MonthStart(y, 4) + 30;
    assert MonthStart(y, 6) == MonthStart(y, 5) + 31;
    assert MonthStart(y, 7) == MonthStart(y, 6) + 30;
    assert MonthStart(y, 8) == MonthStart(y, 7) + 31;
    assert MonthStart(y, 9) == MonthStart(y, 8) + 31;
    assert MonthStart(y, 10) == MonthStart(y, 9) + 30;
    assert MonthStart(y, 11) == MonthStart(y, 10) + 31;
  }

  lemma NextIsNext(x: Date)
    requires Valid(x)
    ensures Valid(Next(x)) && Day(Next(x)) == Day(x) + 1
  {
    if x.d == DaysIn(x.y, x.m) {
      if x.m < 12 {
        assert MonthStart(x.y, x.m + 1) == MonthStart(x.y, x.m) + DaysIn(x.y, x.m);
      } else {
        TwelveMonths(x.y);
        assert YearStart(x.y + 1) == YearStart(x.y) + YearLength(x.y);
      }
    }
  }

  function FromDay(n: nat): (x: Date)
    ensures Valid(x) && Day(x) == n
  {
    if n == 0 then Date(0, 1, 1)
    else
      NextIsNext(FromDay(n - 1));
      Next(FromDay(n - 1))
  }

  predicate Before(a: Date, b: Date) {
    a.y < b.y || (a.y == b.y && (a.m < b.m || (a.m == b.m && a.d < b.d)))
  }

  lemma {:induction false} MonthStartMonotone(y: nat, m: nat, k: nat)
    requires 1 <= m < k
    ensures MonthStart(y, m) + DaysIn(y, m) <= MonthStart(y, k)
  {
    if m + 1 < k {
      MonthStartMonotone(y, m, k - 1);
    }
  }

  lemma {:induction false} YearStartMonotone(y: nat, z: nat)
    requires y < z
    ensures YearStart(y) + YearLength(y) <= YearStart(z)
  {
    if y + 1 < z {
      YearStartMonotone(y, z - 1);
    }
  }

  lemma DayMonotone(a: Date, b: Date)
    requires Valid(a) && Valid(b) && Before(a, b)
    ensures Day(a) < Day(b)
  {
    if a.y < b.y {
      YearStartMonotone(a.y, b.y);
      TwelveMonths(a.y);
      if a.m < 12 {
        MonthStartMonotone(a.y, a.m, 12);
      }
    } else if a.m < b.m {
      MonthStartMonotone(a.y, a.m, b.m);
    }
  }

  /** Day numbers and valid dates correspond one to one, in order. */
  lemma DayOrder(a: Date, b: Date)
    requires Valid(a) && Valid(b)
    ensures Day(a) < Day(b) <==> Before(a, b)
    ensures Day(a) == Day(b) <==> a == b
    ensures FromDay(Day(a)) == a
  {
    if Before(a, b) {
      DayMonotone(a, b);
    } else if Before(b, a) {
      DayMonotone(b, a);
    }
    var c := FromDay(Day(a));
    if Before(a, c) {
      DayMonotone(a, c);
    } else if Before(c, a) {
      DayMonotone(c, a);
    }
  }

  // ---------------------------------------------------------------- strings

  /** `<` on strings, by code units. */
  predicate Less(a: string, b: string) {
    b != "" && (a == "" || a[0] < b[0] || (a[0] == b[0] && Less(a[1..], b[1..])))
  }

  predicate AtMost(a: string, b: string) {
    !Less(b, a)
  }

  function Pow10(w: nat): nat {
    if w == 0 then 1 else 10 * Pow10(w - 1)
  }

  lemma {:induction false} PadOrder(w: nat, x: nat, y: nat, s: string, t: string)
    requires x < Pow10(w) && y < Pow10(w)
    ensures Less(Pad(w, x) + s, Pad(w, y) + t) <==> x < y || (x == y && Less(s, t))
  {
    if w == 0 {
      assert Pad(0, x) + s == s && Pad(0, y) + t == t;
    } else {
      var dx, dy := [DigitChar(x % 10)], [DigitChar(y % 10)];
      PadOrder(w - 1, x / 10, y / 10, dx + s, dy + t);
      assert Pad(w, x) + s == Pad(w - 1, x / 10) + (dx + s);
      assert Pad(w, y) + t == Pad(w - 1, y / 10) + (dy + t);
      assert (dx + s)[1..] == s && (dy + t)[1..] == t;
    }
  }

  lemma {:induction false} PadValue(w: nat, n: nat)
    requires n < Pow10(w)
    ensures Value(Pad(w, n)) == n
  {
    if w > 0 {
      PadValue(w - 1, n / 10);
      assert Pad(w, n)[..w - 1] == Pad(w - 1, n / 10);
    }
  }

  lemma {:induction false} ValuePad(s: string)
    requires AllDigits(s)
    ensures Value(s) < Pow10(|s|) && Pad(|s|, Value(s)) == s
  {
    if s != "" {
      var before, c := s[..|s| - 1], s[|s| - 1];
      ValuePad(before);
      PadPush(|before|, Value(before), DigitValue(c));
      DigitRoundTrip(c);
      assert s == before + [c];
    }
  }

  /** A date whose year has four digits. */
  predicate FourDigit(x: Date) {
    Valid(x) && x.y <= 9999
  }

  /** Year, month and day texts with dashes between. */
  function Glue(y: string, m: string, d: string): string {
    y + "-" + m + "-" + d
  }

  lemma GlueSlices(y: string, m: string, d: string)
    requires |y| == 4 && |m| == 2 && |d| == 2
    ensures |Glue(y, m, d)| == 10
    ensures var s := Glue(y, m, d);
            s[0..4] == y && s[4] == '-' && s[5..7] == m && s[7] == '-' && s[8..10] == d
  {
  }

  function Str(x: Date): (s: string)
    ensures |s| == 10
  {
    Glue(Pad(4, x.y), Pad(2, x.m), Pad(2, x.d))
  }

  /** What `toISOString().slice(0, 10)` gives for the days that follow 9999-12-31. */
  const BEYOND := "+010000-01"

  function Parse(s: string): (r: Option<Date>)
    ensures r.Some? ==> Valid(r.value)
  {
    if s == BEYOND then Some(Date(10000, 1, 1))
    else if |s| == 10 && AllDigits(s[0..4]) && s[4] == '-' && AllDigits(s[5..7]) && s[7] == '-' && AllDigits(s[8..10]) then
      var x := Date(Value(s[0..4]), Value(s[5..7]), Value(s[8..10]));
      if Valid(x) then Some(x) else None
    else None
  }

  /** A string the trend data may use as a date. */
  predicate FullDate(s: string) {
    s != BEYOND && Parse(s).Some?
  }

  lemma PowersOfTen()
    ensures Pow10(2) == 100 && Pow10(4) == 10000
  {
    assert Pow10(1) == 10;
    assert Pow10(3) == 10 * Pow10(2);
  }

  lemma StrParse(x: Date)
    requires FourDigit(x)
    ensures FullDate(Str(x)) && Parse(Str(x)) == Some(x)
  {
    PowersOfTen();
    PadValue(4, x.y);
    PadValue(2, x.m);
    PadValue(2, x.d);
    GlueSlices(Pad(4, x.y), Pad(2, x.m), Pad(2, x.d));
    DigitsAreNotBeyond(Str(x));
  }

  lemma DigitsAreNotBeyond(s: string)
    requires |s| == 10 && AllDigits(s[0..4])
    ensures s != BEYOND
  {
    assert s[0] == s[0..4][0];
  }

  lemma ParseStr(s: string)
    requires FullDate(s)
    ensures FourDigit(Parse(s).value) && Str(Parse(s).value) == s
  {
    PowersOfTen();
    var y, m, d := s[0..4], s[5..7], s[8..10];
    ValuePad(y);
    ValuePad(m);
    ValuePad(d);
    SlicesGlue(s);
  }

  lemma SlicesGlue(s: string)
    requires |s| == 10 && s[4] == '-' && s[7] == '-'
    ensures s == Glue(s[0..4], s[5..7], s[8..10])
  {
  }

  /** Section 5.1 of RFC 3339: the strings sort as the days they name. */
  lemma StringOrderIsDayOrder(a: Date, b: Date)
    requires FourDigit(a) && FourDigit(b)
    ensures Less(Str(a), Str(b)) <==> Day(a) < Day(b)
    ensures AtMost(Str(a), Str(b)) <==> Day(a) <= Day(b)
  {
    PowersOfTen();
    DayOrder(a, b);
    StrLess(a, b);
    StrLess(b, a);
  }

  lemma StrLess(a: Date, b: Date)
    requires FourDigit(a) && FourDigit(b)
    ensures Less(Str(a), Str(b)) <==> Before(a, b)
  {
    PowersOfTen();
    var da, db := Pad(2, a.d), Pad(2, b.d);
    var ma, mb := Pad(2, a.m) + ("-" + da), Pad(2, b.m) + ("-" + db);
    assert Str(a) == Pad(4, a.y) + ("-" + ma) && Str(b) == Pad(4, b.y) + ("-" + mb);
    PadOrder(4, a.y, b.y, "-" + ma, "-" + mb);
    LessBehindDash(ma, mb);
    PadOrder(2, a.m, b.m, "-" + da, "-" + db);
    LessBehindDash(da, db);
    PadOrder(2, a.d, b.d, "", "");
    assert da + "" == da && db + "" == db;
  }

  lemma LessBehindDash(s: string, t: string)
    ensures Less("-" + s, "-" + t) <==> Less(s, t)
  {
    assert ("-" + s)[1..] == s && ("-" + t)[1..] == t;
  }

  // ---------------------------------------------------------------- stepping

  const MINUTES := 1440

  /**
   The UTC day of local midnight of day `n`, local time being `offset` minutes ahead of UTC:
   the day `toISOString` prints after the local fields were set (section 21.4.1 of ECMA-262).
   */
  function UtcDay(n: nat, offset: int): int {
    (n * MINUTES - offset) / MINUTES
  }

  function Iso(n: nat): string {
    if FromDay(n).y <= 9999 then Str(FromDay(n)) else BEYOND
  }

  /** The date string one local day after `x`. */
  function DayAfter(x: Date, offset: int): string
    requires Valid(x) && -MINUTES < offset < MINUTES
  {
    UtcDayShift(Day(x) + 1, offset);
    Iso(UtcDay(Day(x) + 1, offset))
  }

  /** `addDays(s, 1)`; None is the RangeError an invalid date throws. */
  function AddDay(s: string, offset: int): Option<string>
    requires -MINUTES < offset < MINUTES
  {
    match Parse(s)
    case None => None
    case Some(x) => Some(DayAfter(x, offset))
  }

  lemma UtcDayShift(n: nat, offset: int)
    requires -MINUTES < offset < MINUTES
    ensures UtcDay(n, offset) == if offset <= 0 then n else n - 1
  {
  }

  lemma IsoOfDay(x: Date)
    requires Valid(x)
    ensures Iso(Day(x)) == if x.y <= 9999 then Str(x) else BEYOND
  {
    DayOrder(x, x);
  }

  /** At or west of UTC the date moves on by one day; east of UTC it does not move. */
  lemma DayAfterMoves(x: Date, offset: int)
    requires FourDigit(x) && -MINUTES < offset < MINUTES
    ensures offset > 0 ==> DayAfter(x, offset) == Str(x)
    ensures offset <= 0 ==> DayAfter(x, offset) == if Next(x).y <= 9999 then Str(Next(x)) else BEYOND
  {
    var n := Day(x) + 1;
    UtcDayShift(n, offset);
    if offset > 0 {
      assert DayAfter(x, offset) == Iso(Day(x));
      IsoOfDay(x);
    } else {
      NextIsNext(x);
      assert DayAfter(x, offset) == Iso(Day(Next(x)));
      IsoOfDay(Next(x));
    }
  }

  /** Past the four-digit years the printed date repeats for ever. */
  lemma BeyondStays(x: Date, offset: int)
    requires Valid(x) && x.y > 9999 && x.m == 1 && x.d == 1 && -MINUTES < offset < MINUTES
    ensures DayAfter(x, offset) == BEYOND
  {
    UtcDayShift(Day(x) + 1, offset);
    NextIsNext(x);
    IsoOfDay(x);
    IsoOfDay(Next(x));
  }
}
