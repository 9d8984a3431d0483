/**
 The compliance trend's data: one point for every calendar day, and when the loop that adds
 the missing days comes to an end.
 */
module TrendChart {
  import opened Options
  import opened Calendar
  import opened Text

  datatype TrendPoint = TrendPoint(date: string, score: real, pass: int, fail: int, total: int)
  datatype FilledPoint = FilledPoint(date: string, score: Option<real>, pass: int, fail: int, total: int)

  function Copy(p: TrendPoint): FilledPoint {
    FilledPoint(p.date, Some(p.score), p.pass, p.fail, p.total)
  }

  function Gap(date: string): FilledPoint {
    FilledPoint(date, None, 0, 0, 0)
  }

  // ---------------------------------------------------------------- filling gaps

  /** The Map from dates to points; of two points on one date the later stays. */
  function Lookup(points: seq<TrendPoint>): map<string, TrendPoint> {
    if points == [] then map[]
    else Lookup(points[..|points| - 1])[points[|points| - 1].date := points[|points| - 1]]
  }

  /** Point `i` is the last one of that date. */
  ghost predicate LastOn(points: seq<TrendPoint>, i: int, date: string) {
    && 0 <= i < |points| && points[i].date == date
    && forall j :: i < j < |points| ==> points[j].date != date
  }

  /** The filled point carries the input over, each number in its own place. */
  ghost predicate Carries(r: FilledPoint, p: TrendPoint) {
    r.date == p.date && r.score == Some(p.score) && r.pass == p.pass && r.fail == p.fail && r.total == p.total
  }

  ghost predicate Empty(r: FilledPoint) {
    r.score == None && r.pass == 0 && r.fail == 0 && r.total == 0
  }

  /** The filled point tells what the inputs say of its date: the last of them, or nothing. */
  ghost predicate Tells(points: seq<TrendPoint>, r: FilledPoint) {
    && (forall i :: LastOn(points, i, r.date) ==> Carries(r, points[i]))
    && ((forall p :: p in points ==> p.date != r.date) ==> Empty(r))
  }

  const LAST_DAY := Date(9999, 12, 31)

  /** The last date string with a four-digit year. */
  function MaxDate(): string {
    Str(LAST_DAY)
  }

  /** The loop of `fillDateGaps` comes to its end. */
  predicate Ends(first: string, last: string, offset: int) {
    Less(last, first) || (offset <= 0 && last != MaxDate())
  }

  function First(points: seq<TrendPoint>): string
    requires points != []
  {
    points[0].date
  }

  function Final(points: seq<TrendPoint>): string
    requires points != []
  {
    points[|points| - 1].date
  }

  method BuildLookup(points: seq<TrendPoint>) returns (lookup: map<string, TrendPoint>)
    ensures lookup == Lookup(points)
  {
    lookup := map[];
    for i := 0 to |points|
      invariant lookup == Lookup(points[..i])
    {
      assert points[..i + 1][..i] == points[..i];
      lookup := lookup[points[i].date := points[i]];
    }
    assert points[..|points|] == points;
  }

  /** The day a date string names. */
  function DayOf(date: string): nat
    requires FullDate(date)
  {
    Day(Parse(date).value)
  }

  /** `date` is the full-date of day `n`. */
  predicate IsDay(date: string, n: nat) {
    FullDate(date) && DayOf(date) == n
  }

  /** The points for the days from `from` on, one a day, in order. */
  ghost predicate Daily(points: seq<TrendPoint>, result: seq<FilledPoint>, from: nat) {
    forall k :: 0 <= k < |result| ==>
      IsDay(result[k].date, from + k) && Tells(points, result[k])
  }

  /**
   Every calendar day from the first point's to the last point's, once and in order, each
   with its own point's data or with none.
   */
  method FillDateGaps(points: seq<TrendPoint>, offset: int) returns (result: seq<FilledPoint>)
    requires -MINUTES < offset < MINUTES
    requires points != [] ==> FullDate(First(points)) && FullDate(Final(points))
    requires points != [] ==> Ends(First(points), Final(points), offset)
    ensures IsFilled(points, result)
  {
    result := [];
    if |points| == 0 {
      return;
    }
    var lookup := BuildLookup(points);
    var last := Final(points);
    var current := First(points);
    ghost var from, upto := DayOf(current), DayOf(last);
    CompareDays(current, last);
    while AtMost(current, last)
      invariant Filling(points, result, current, from)
      invariant AtMost(current, last) <==> from + |result| <= upto
      invariant from + |result| <= upto + 1 || result == []
      decreases upto + 1 - from - |result|
    {
      result, current := FillOne(points, lookup, result, current, offset, from);
    }
  }

  /** The loop's state: `result` holds the days from `from` on, `current` is the next one. */
  ghost predicate Filling(points: seq<TrendPoint>, result: seq<FilledPoint>, current: string, from: nat) {
    Daily(points, result, from) && IsDay(current, from + |result|)
  }

  method FillOne(points: seq<TrendPoint>, lookup: map<string, TrendPoint>, result: seq<FilledPoint>,
                 current: string, offset: int, ghost from: nat)
    returns (longer: seq<FilledPoint>, next: string)
    requires points != [] && FullDate(Final(points)) && lookup == Lookup(points)
    requires Filling(points, result, current, from) && AtMost(current, Final(points))
    requires -MINUTES < offset <= 0 && Final(points) != MaxDate()
    ensures |longer| == |result| + 1 && Filling(points, longer, next, from)
    ensures AtMost(next, Final(points)) <==> from + |longer| <= DayOf(Final(points))
  {
    CompareDays(current, Final(points));
    LookupDate(points, current);
    longer := result + [if current in lookup then Copy(lookup[current]) else Gap(current)];
    next := NextDate(current, Final(points), offset);
  }

  /**
   The points of a filled trend: none for an empty range, and otherwise one for each day from the
   first point's to the last point's, telling what the inputs say of that day.
   */
  ghost predicate IsFilled(points: seq<TrendPoint>, result: seq<FilledPoint>) {
    if points == [] || Less(Final(points), First(points)) then result == []
    else
      && FullDate(First(points)) && FullDate(Final(points))
      && |result| == DayOf(Final(points)) - DayOf(First(points)) + 1
      && Daily(points, result, DayOf(First(points)))
  }

  /** Of two points on one date the later is found. */
  lemma {:induction false} LookupDate(points: seq<TrendPoint>, date: string)
    ensures date in Lookup(points) <==> exists p :: p in points && p.date == date
    ensures date in Lookup(points) ==> Lookup(points)[date].date == date
    ensures forall i :: LastOn(points, i, date) ==> date in Lookup(points) && Lookup(points)[date] == points[i]
  {
    if points != [] {
      var n := |points| - 1;
      var before := points[..n];
      LookupDate(before, date);
      assert points == before + [points[n]];
      assert forall p :: p in points <==> p in before || p == points[n];
      forall i | LastOn(points, i, date) ensures date in Lookup(points) && Lookup(points)[date] == points[i] {
        if i < n {
          assert LastOn(before, i, date);
        }
      }
    }
  }

  /** A date that occurs occurs for a last time. */
  lemma {:induction false} LastOccurs(points: seq<TrendPoint>, date: string) returns (i: nat)
    requires exists p :: p in points && p.date == date
    ensures LastOn(points, i, date)
  {
    var n := |points| - 1;
    if points[n].date == date {
      i := n;
    } else {
      assert points == points[..n] + [points[n]];
      i := LastOccurs(points[..n], date);
    }
  }

  /** `addDays(current, 1)` inside the loop. */
  method NextDate(current: string, ghost last: string, offset: int) returns (next: string)
    requires FullDate(current) && FullDate(last) && DayOf(current) <= DayOf(last)
    requires -MINUTES < offset <= 0 && last != MaxDate()
    ensures IsDay(next, DayOf(current) + 1)
    ensures AtMost(next, last) <==> DayOf(next) <= DayOf(last)
  {
    Advance(current, last, offset);
    next := AddDay(current, offset).value;
  }

  lemma DayString(date: string)
    requires FullDate(date)
    ensures Iso(DayOf(date)) == date
  {
    ParseStr(date);
    DayOrder(Parse(date).value, Parse(date).value);
  }

  lemma CompareDays(s: string, t: string)
    requires FullDate(s) && FullDate(t)
    ensures AtMost(s, t) <==> DayOf(s) <= DayOf(t)
    ensures Less(s, t) <==> DayOf(s) < DayOf(t)
  {
    ParseStr(s);
    ParseStr(t);
    StringOrderIsDayOrder(Parse(s).value, Parse(t).value);
  }

  lemma MaxDateIsLast(x: Date)
    requires FourDigit(x) && Str(x) != MaxDate()
    ensures Before(x, LAST_DAY) && Next(x).y <= 9999
  {
    assert x != LAST_DAY;
  }

  /** Up to the last date, the date string steps to the next day's. */
  lemma Advance(current: string, last: string, offset: int)
    requires FullDate(current) && FullDate(last) && DayOf(current) <= DayOf(last)
    requires -MINUTES < offset <= 0 && last != MaxDate()
    ensures AddDay(current, offset).Some?
    ensures var next := AddDay(current, offset).value;
            IsDay(next, DayOf(current) + 1) && (AtMost(next, last) <==> DayOf(next) <= DayOf(last))
  {
    var x, z := Parse(current).value, Parse(last).value;
    ParseStr(current);
    ParseStr(last);
    MaxDateIsLast(z);
    DayOrder(z, x);
    DayOrder(x, LAST_DAY);
    DayAfterMoves(x, offset);
    NextIsNext(x);
    StrParse(Next(x));
    CompareDays(Str(Next(x)), last);
  }

  ghost predicate Increasing(points: seq<TrendPoint>) {
    && (forall i :: 0 <= i < |points| ==> FullDate(points[i].date))
    && (forall i, j :: 0 <= i < j < |points| ==> Less(points[i].date, points[j].date))
  }

  /** The index at which a date appears in the filled list. */
  function Slot(points: seq<TrendPoint>, date: string): int
    requires points != [] && FullDate(First(points)) && FullDate(date)
  {
    DayOf(date) - DayOf(First(points))
  }

  /** On increasing dates each point sits at its own day. */
  lemma InputsKeepTheirDay(points: seq<TrendPoint>, result: seq<FilledPoint>, i: nat)
    requires Increasing(points) && i < |points| && IsFilled(points, result)
    ensures 0 <= Slot(points, points[i].date) < |result|
    ensures var r := result[Slot(points, points[i].date)];
            && r.date == points[i].date && r.score == Some(points[i].score)
            && r.pass == points[i].pass && r.fail == points[i].fail && r.total == points[i].total
  {
    var d, n := points[i].date, |points| - 1;
    CompareDays(First(points), d);
    CompareDays(d, Final(points));
    CompareDays(Final(points), First(points));
    var k := Slot(points, d);
    SameDay(result[k].date, d);
    CompareDays(d, d);
    assert LastOn(points, i, d);
  }

  lemma SameDay(s: string, t: string)
    requires FullDate(s) && FullDate(t) && DayOf(s) == DayOf(t)
    ensures s == t
  {
    DayString(s);
    DayString(t);
  }

  /** And every other day has no score. */
  lemma OtherDaysAreGaps(points: seq<TrendPoint>, result: seq<FilledPoint>, k: nat)
    requires IsFilled(points, result) && k < |result|
    requires forall p :: p in points ==> p.date != result[k].date
    ensures result[k].score == None && result[k].pass == 0 && result[k].fail == 0 && result[k].total == 0
  {
    assert Tells(points, result[k]);
  }

  // ---------------------------------------------------------------- when the loop ends

  function Turn(current: string, offset: int): string
    requires -MINUTES < offset < MINUTES
  {
    match AddDay(current, offset)
    case Some(next) => next
    case None => current
  }

  function Iterate<T>(f: T -> T, x: T, k: nat): T {
    if k == 0 then x else f(Iterate(f, x, k - 1))
  }

  lemma {:induction false} IterateKeeps<T(!new)>(f: T -> T, holds: T -> bool, x: T, k: nat)
    requires holds(x) && forall y :: holds(y) ==> holds(f(y))
    ensures holds(Iterate(f, x, k))
  {
    if k > 0 {
      IterateKeeps(f, holds, x, k - 1);
    }
  }

  /** `current` after `k` turns of the loop. */
  function Cursor(first: string, offset: int, k: nat): string
    requires -MINUTES < offset < MINUTES
  {
    Iterate((s: string) => Turn(s, offset), first, k)
  }

  lemma {:induction false} CursorReaches(first: string, last: string, offset: int, k: nat)
    requires FullDate(first) && FullDate(last) && -MINUTES < offset <= 0 && last != MaxDate()
    requires DayOf(first) + k <= DayOf(last) + 1
    ensures IsDay(Cursor(first, offset, k), DayOf(first) + k)
  {
    if k > 0 {
      CursorReaches(first, last, offset, k - 1);
      Advance(Cursor(first, offset, k - 1), last, offset);
    }
  }

  /** West of UTC a turn gives a day again, or runs off the four-digit years and stays there. */
  lemma TurnShape(s: string, offset: int)
    requires FullDate(s) || s == BEYOND
    requires -MINUTES < offset <= 0
    ensures FullDate(Turn(s, offset)) || Turn(s, offset) == BEYOND
  {
    var x := Parse(s).value;
    if s == BEYOND {
      BeyondStays(x, offset);
    } else {
      ParseStr(s);
      DayAfterMoves(x, offset);
      NextIsNext(x);
      if Next(x).y <= 9999 {
        StrParse(Next(x));
      }
    }
  }

  lemma CursorShape(first: string, offset: int, k: nat)
    requires FullDate(first) && -MINUTES < offset <= 0
    ensures FullDate(Cursor(first, offset, k)) || Cursor(first, offset, k) == BEYOND
  {
    var f := (s: string) => Turn(s, offset);
    var holds := (s: string) => FullDate(s) || s == BEYOND;
    forall s | holds(s) ensures holds(f(s)) {
      TurnShape(s, offset);
    }
    IterateKeeps(f, holds, first, k);
  }

  lemma TurnEast(s: string, offset: int)
    requires FullDate(s) && 0 < offset < MINUTES
    ensures Turn(s, offset) == s
  {
    ParseStr(s);
    DayAfterMoves(Parse(s).value, offset);
  }

  lemma EastStandsStill(first: string, offset: int, k: nat)
    requires FullDate(first) && 0 < offset < MINUTES
    ensures Cursor(first, offset, k) == first
  {
    TurnEast(first, offset);
    IterateKeeps((s: string) => Turn(s, offset), (s: string) => s == first, first, k);
  }

  lemma NothingAfterMax(s: string)
    requires FullDate(s) || s == BEYOND
    ensures AtMost(s, MaxDate())
  {
    StrParse(LAST_DAY);
    if s == BEYOND {
      assert IsDigit(MaxDate()[0..4][0]) && MaxDate()[0] == MaxDate()[0..4][0];
    } else {
      var x := Parse(s).value;
      ParseStr(s);
      DayOrder(x, LAST_DAY);
      CompareDays(s, MaxDate());
    }
  }

  /**
   The loop leaves the range in finitely many turns if and only if the range is empty, or
   local time is not east of UTC and the range does not end on the last four-digit day.
   */
  lemma EndsExactly(first: string, last: string, offset: int)
    requires FullDate(first) && FullDate(last) && -MINUTES < offset < MINUTES
    ensures Ends(first, last, offset) <==> exists k: nat :: !AtMost(Cursor(first, offset, k), last)
  {
    if Less(last, first) {
      assert !AtMost(Cursor(first, offset, 0), last);
    } else if offset <= 0 && last != MaxDate() {
      CompareDays(first, last);
      var k := DayOf(last) - DayOf(first) + 1;
      CursorReaches(first, last, offset, k);
      CompareDays(Cursor(first, offset, k), last);
      assert !AtMost(Cursor(first, offset, k), last);
    } else {
      forall k: nat ensures AtMost(Cursor(first, offset, k), last) {
        if offset > 0 {
          EastStandsStill(first, offset, k);
        } else {
          CursorShape(first, offset, k);
          NothingAfterMax(Cursor(first, offset, k));
        }
      }
    }
  }
}
