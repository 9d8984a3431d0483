/**
 Drawing the filled trend: the line cut at missing scores, the tick labels under it and the
 point under the pointer.  Coordinates are exact reals.
 */
module TrendPlot {
  import opened Options
  import opened TrendChart
  import Calendar

  datatype Point = Point(x: real, y: real)

  /** The horizontal place of index `i` among `n` points, in a chart `width` wide. */
  function PlotX(i: nat, n: nat, width: real): real
    requires i < n
  {
    if n == 1 then width / 2.0 else (i as real / (n - 1) as real) * width
  }

  function PlotY(score: real, height: real): real {
    height - (score / 100.0) * height
  }

  function Plot(points: seq<FilledPoint>, i: nat, width: real, height: real): Point
    requires i < |points| && points[i].score.Some?
  {
    Point(PlotX(i, |points|, width), PlotY(points[i].score.value, height))
  }

  // ---------------------------------------------------------------- segments

  /** The indices `from <= i < to`. */
  datatype Run = Run(from: nat, to: nat)

  ghost predicate AllScored(points: seq<FilledPoint>, from: nat, to: nat) {
    to <= |points| && forall i :: from <= i < to ==> points[i].score.Some?
  }

  ghost predicate NoneScored(points: seq<FilledPoint>, from: nat, to: nat) {
    to <= |points| && forall i :: from <= i < to ==> points[i].score.None?
  }

  /** The runs are the maximal stretches of scored points below `upto`, in order. */
  ghost predicate MaximalRuns(points: seq<FilledPoint>, runs: seq<Run>, upto: nat) {
    if runs == [] then NoneScored(points, 0, upto)
    else
      var r := runs[|runs| - 1];
      && r.from < r.to <= upto
      && AllScored(points, r.from, r.to)
      && NoneScored(points, r.to, upto)
      && (r.from > 0 ==> points[r.from - 1].score.None?)
      && (r.to < |points| ==> points[r.to].score.None?)
      && MaximalRuns(points, runs[..|runs| - 1], r.from)
  }

  function PlotRun(points: seq<FilledPoint>, from: nat, to: nat, width: real, height: real): (r: seq<Point>)
    requires from <= to && AllScored(points, from, to)
    ensures |r| == to - from
  {
    if from == to then [] else PlotRun(points, from, to - 1, width, height) + [Plot(points, to - 1, width, height)]
  }

  /** Each segment draws its run. */
  ghost predicate DrawsRuns(points: seq<FilledPoint>, runs: seq<Run>, segments: seq<seq<Point>>, width: real, height: real) {
    && |segments| == |runs|
    && forall j :: 0 <= j < |runs| ==>
         && runs[j].from < runs[j].to && AllScored(points, runs[j].from, runs[j].to)
         && segments[j] == PlotRun(points, runs[j].from, runs[j].to, width, height)
  }

  method PlotPoint(points: seq<FilledPoint>, i: nat, width: real, height: real) returns (p: Point)
    requires i < |points| && points[i].score.Some?
    ensures p == Plot(points, i, width, height)
  {
    var x := if |points| == 1 then width / 2.0 else (i as real / (|points| - 1) as real) * width;
    var y := height - (points[i].score.value / 100.0) * height;
    p := Point(x, y);
  }

  method BuildSegments(points: seq<FilledPoint>, width: real, height: real)
    returns (segments: seq<seq<Point>>, ghost runs: seq<Run>)
    ensures MaximalRuns(points, runs, |points|)
    ensures DrawsRuns(points, runs, segments, width, height)
    ensures CutFromScored(points, segments, width, height)
    ensures InsideExactly(points, Flatten(segments), width, height)
  {
    segments, runs := [], [];
    var current: seq<Point> := [];
    ghost var start := 0;
    for i := 0 to |points|
      invariant start <= i && (current == [] <==> start == i)
      invariant MaximalRuns(points, runs, start)
      invariant DrawsRuns(points, runs, segments, width, height)
      invariant AllScored(points, start, i) && current == PlotRun(points, start, i, width, height)
      invariant start > 0 ==> points[start - 1].score.None?
    {
      var p := points[i];
      if p.score.None? {
        if |current| > 0 {
          DrawsOneMore(points, runs, segments, start, i, width, height);
          segments := segments + [current];
          runs := Closed(points, runs, start, i);
          current := [];
        }
        PassGap(points, runs, i);
        start := i + 1;
        continue;
      }
      var point := PlotPoint(points, i, width, height);
      current := current + [point];
    }
    if |current| > 0 {
      DrawsOneMore(points, runs, segments, start, |points|, width, height);
      segments := segments + [current];
      runs := Closed(points, runs, start, |points|);
    }
    DrawsWhole(points, runs, segments, width, height);
  }

  /** Non-empty segments that laid end to end are the scored points. */
  ghost predicate CutFromScored(points: seq<FilledPoint>, segments: seq<seq<Point>>, width: real, height: real) {
    && Flatten(segments) == Scored(points, |points|, width, height)
    && forall segment :: segment in segments ==> segment != []
  }

  lemma DrawsWhole(points: seq<FilledPoint>, runs: seq<Run>, segments: seq<seq<Point>>, width: real, height: real)
    requires MaximalRuns(points, runs, |points|) && DrawsRuns(points, runs, segments, width, height)
    ensures CutFromScored(points, segments, width, height)
    ensures InsideExactly(points, Flatten(segments), width, height)
  {
    SegmentsAreScoredPoints(points, runs, segments, |points|, width, height);
    DrawnInside(points, width, height);
  }

  lemma DrawsOneMore(points: seq<FilledPoint>, runs: seq<Run>, segments: seq<seq<Point>>,
                     from: nat, to: nat, width: real, height: real)
    requires DrawsRuns(points, runs, segments, width, height)
    requires from < to && AllScored(points, from, to)
    ensures DrawsRuns(points, runs + [Run(from, to)], segments + [PlotRun(points, from, to, width, height)], width, height)
  {
  }

  lemma PassGap(points: seq<FilledPoint>, runs: seq<Run>, i: nat)
    requires MaximalRuns(points, runs, i) && i < |points| && points[i].score.None?
    ensures MaximalRuns(points, runs, i + 1)
  {
  }

  ghost function Closed(points: seq<FilledPoint>, runs: seq<Run>, from: nat, to: nat): (longer: seq<Run>)
    requires MaximalRuns(points, runs, from) && from < to && AllScored(points, from, to)
    requires from > 0 ==> points[from - 1].score.None?
    requires to < |points| ==> points[to].score.None?
    ensures longer == runs + [Run(from, to)] && MaximalRuns(points, longer, to)
  {
    assert (runs + [Run(from, to)])[..|runs|] == runs;
    runs + [Run(from, to)]
  }

  function Flatten<T>(ss: seq<seq<T>>): seq<T> {
    if ss == [] then [] else Flatten(ss[..|ss| - 1]) + ss[|ss| - 1]
  }

  /** All scored points below index `n`, in order. */
  function Scored(points: seq<FilledPoint>, n: nat, width: real, height: real): seq<Point>
    requires n <= |points|
  {
    if n == 0 then []
    else Scored(points, n - 1, width, height)
         + if points[n - 1].score.Some? then [Plot(points, n - 1, width, height)] else []
  }

  lemma {:induction false} ScoredOverGap(points: seq<FilledPoint>, from: nat, to: nat, width: real, height: real)
    requires from <= to && NoneScored(points, from, to)
    ensures Scored(points, to, width, height) == Scored(points, from, width, height)
  {
    if from < to {
      ScoredOverGap(points, from, to - 1, width, height);
    }
  }

  lemma {:induction false} ScoredOverRun(points: seq<FilledPoint>, from: nat, to: nat, width: real, height: real)
    requires from <= to && AllScored(points, from, to)
    ensures Scored(points, to, width, height)
         == Scored(points, from, width, height) + PlotRun(points, from, to, width, height)
  {
    if from < to {
      ScoredOverRun(points, from, to - 1, width, height);
    }
  }

  /** Laid end to end the segments are the scored points, none lost, none twice, in order. */
  lemma {:induction false} SegmentsAreScoredPoints(points: seq<FilledPoint>, runs: seq<Run>, segments: seq<seq<Point>>,
                                                   upto: nat, width: real, height: real)
    requires MaximalRuns(points, runs, upto) && upto <= |points| && DrawsRuns(points, runs, segments, width, height)
    ensures Flatten(segments) == Scored(points, upto, width, height)
    decreases |runs|
  {
    if runs == [] {
      ScoredOverGap(points, 0, upto, width, height);
    } else {
      var n := |runs| - 1;
      var r := runs[n];
      SegmentsAreScoredPoints(points, runs[..n], segments[..n], r.from, width, height);
      ScoredOverRun(points, r.from, r.to, width, height);
      ScoredOverGap(points, r.to, upto, width, height);
    }
  }

  /** Indices `p` and `q` lie in one run, so that one segment draws both. */
  ghost predicate Together(runs: seq<Run>, p: nat, q: nat) {
    exists r :: r in runs && r.from <= p && q < r.to
  }

  /** Two scored points are joined if and only if nothing between them is missing. */
  lemma {:induction false} JoinedExactly(points: seq<FilledPoint>, runs: seq<Run>, upto: nat, p: nat, q: nat)
    requires MaximalRuns(points, runs, upto) && p <= q < upto <= |points|
    requires points[p].score.Some? && points[q].score.Some?
    ensures Together(runs, p, q) <==> AllScored(points, p, q + 1)
    decreases |runs|
  {
    var n := |runs| - 1;
    var last, rest := runs[n], runs[..n];
    assert runs == rest + [last];
    if q < last.from {
      JoinedExactly(points, rest, last.from, p, q);
    } else if p < last.from {
      RunsBelow(points, rest, last.from);
      assert points[last.from - 1].score.None?;
    } else {
      assert last in runs;
    }
  }

  lemma {:induction false} RunsBelow(points: seq<FilledPoint>, runs: seq<Run>, upto: nat)
    requires MaximalRuns(points, runs, upto)
    ensures forall r :: r in runs ==> r.to <= upto
    decreases |runs|
  {
    if runs != [] {
      var n := |runs| - 1;
      RunsBelow(points, runs[..n], runs[n].from);
      assert runs == runs[..n] + [runs[n]];
    }
  }

  /** Of a filled trend: two inputs are joined if and only if every day between them was supplied. */
  lemma JoinedIffEveryDaySupplied(inputs: seq<TrendPoint>, points: seq<FilledPoint>, runs: seq<Run>, a: nat, b: nat)
    requires Increasing(inputs) && a <= b < |inputs| && IsFilled(inputs, points)
    requires MaximalRuns(points, runs, |points|)
    ensures var p, q := Slot(inputs, inputs[a].date), Slot(inputs, inputs[b].date);
            && 0 <= p <= q < |points|
            && (Together(runs, p, q) <==>
                 forall i :: p <= i <= q ==> exists t :: t in inputs && t.date == points[i].date)
  {
    SlotsInOrder(inputs, points, a, b);
    JoinedBySupply(inputs, points, runs, Slot(inputs, inputs[a].date), Slot(inputs, inputs[b].date));
  }

  lemma JoinedBySupply(inputs: seq<TrendPoint>, points: seq<FilledPoint>, runs: seq<Run>, p: nat, q: nat)
    requires IsFilled(inputs, points) && MaximalRuns(points, runs, |points|)
    requires p <= q < |points| && points[p].score.Some? && points[q].score.Some?
    ensures Together(runs, p, q) <==> forall i :: p <= i <= q ==> exists t :: t in inputs && t.date == points[i].date
  {
    JoinedExactly(points, runs, |points|, p, q);
    forall i | p <= i <= q
      ensures points[i].score.Some? <==> exists t :: t in inputs && t.date == points[i].date
    {
      ScoredIffSupplied(inputs, points, i);
    }
  }

  lemma SlotsInOrder(inputs: seq<TrendPoint>, points: seq<FilledPoint>, a: nat, b: nat)
    requires Increasing(inputs) && a <= b < |inputs| && IsFilled(inputs, points)
    ensures var p, q := Slot(inputs, inputs[a].date), Slot(inputs, inputs[b].date);
            0 <= p <= q < |points| && points[p].score.Some? && points[q].score.Some?
  {
    InputsKeepTheirDay(inputs, points, a);
    InputsKeepTheirDay(inputs, points, b);
    CompareDays(inputs[a].date, inputs[b].date);
    assert a < b ==> Calendar.Less(inputs[a].date, inputs[b].date);
  }

  lemma ScoredIffSupplied(inputs: seq<TrendPoint>, points: seq<FilledPoint>, i: nat)
    requires IsFilled(inputs, points) && i < |points|
    ensures points[i].score.Some? <==> exists t :: t in inputs && t.date == points[i].date
  {
    assert Tells(inputs, points[i]);
    if exists t :: t in inputs && t.date == points[i].date {
      var j := LastOccurs(inputs, points[i].date);
      assert Carries(points[i], inputs[j]);
    }
  }

  lemma XInside(i: nat, j: nat, n: nat, width: real)
    requires i < j < n && width > 0.0
    ensures 0.0 <= PlotX(i, n, width) < PlotX(j, n, width) <= width
  {
    var d := (n - 1) as real;
    DivideMonotone(i as real, j as real, d);
    ScaleBetween(i as real / d, j as real / d, width);
    ScaleBetween(j as real / d, 1.0, width);
    ScaleBetween(0.0, i as real / d, width);
  }

  lemma YInside(score: real, height: real)
    requires height > 0.0
    ensures 0.0 <= PlotY(score, height) <= height <==> 0.0 <= score <= 100.0
  {
    var s := score / 100.0;
    assert s * height >= 0.0 <==> s >= 0.0;
    assert s * height <= height <==> s <= 1.0 by {
      if s <= 1.0 {
        ScaleBetween(s, 1.0, height);
      } else {
        ScaleBetween(1.0, s, height);
        assert 1.0 * height == height;
      }
    }
  }

  /** From left to right, no two points above each other. */
  ghost predicate Forward(drawn: seq<Point>) {
    forall j, k :: 0 <= j < k < |drawn| ==> drawn[j].x < drawn[k].x
  }

  ghost predicate Across(drawn: seq<Point>, width: real) {
    forall p :: p in drawn ==> 0.0 <= p.x <= width
  }

  ghost predicate Upright(drawn: seq<Point>, height: real) {
    forall p :: p in drawn ==> 0.0 <= p.y <= height
  }

  ghost predicate ScoresInRange(points: seq<FilledPoint>, n: nat) {
    n <= |points| && forall i :: 0 <= i < n && points[i].score.Some? ==> 0.0 <= points[i].score.value <= 100.0
  }

  lemma XAlone(i: nat, n: nat, width: real)
    requires i < n && width > 0.0
    ensures 0.0 <= PlotX(i, n, width) <= width
  {
    if i + 1 < n {
      XInside(i, i + 1, n, width);
    } else if i > 0 {
      XInside(i - 1, i, n, width);
    }
  }

  /** What is drawn so far runs forward inside the chart, to the left of everything still to come. */
  lemma {:induction false} DrawnForward(points: seq<FilledPoint>, n: nat, width: real, height: real)
    requires n <= |points| && width > 0.0
    ensures var drawn := Scored(points, n, width, height);
            && Forward(drawn) && Across(drawn, width)
            && forall p, i :: p in drawn && n <= i < |points| ==> p.x < PlotX(i, |points|, width)
  {
    if n > 0 {
      DrawnForward(points, n - 1, width, height);
      XAlone(n - 1, |points|, width);
      forall i | n <= i < |points| ensures PlotX(n - 1, |points|, width) < PlotX(i, |points|, width) {
        XInside(n - 1, i, |points|, width);
      }
    }
  }

  lemma {:induction false} DrawnUpright(points: seq<FilledPoint>, n: nat, width: real, height: real)
    requires n <= |points| && height > 0.0
    ensures Upright(Scored(points, n, width, height), height) <==> ScoresInRange(points, n)
  {
    if n > 0 {
      DrawnUpright(points, n - 1, width, height);
      var before, drawn := Scored(points, n - 1, width, height), Scored(points, n, width, height);
      if points[n - 1].score.Some? {
        var last := Plot(points, n - 1, width, height);
        YInside(points[n - 1].score.value, height);
        assert drawn == before + [last];
        assert forall p :: p in drawn <==> p in before || p == last;
      }
    }
  }

  /** The drawing runs forward across the chart, and stays inside it if and only if every score is from 0 to 100. */
  ghost predicate InsideExactly(points: seq<FilledPoint>, drawn: seq<Point>, width: real, height: real) {
    && (width > 0.0 ==> Forward(drawn) && Across(drawn, width))
    && (height > 0.0 ==> (Upright(drawn, height) <==> ScoresInRange(points, |points|)))
    && (height == 0.0 ==> Upright(drawn, height))
  }

  lemma {:induction false} DrawnFlat(points: seq<FilledPoint>, n: nat, width: real)
    requires n <= |points|
    ensures Upright(Scored(points, n, width, 0.0), 0.0)
  {
    if n > 0 {
      DrawnFlat(points, n - 1, width);
    }
  }

  lemma DrawnInside(points: seq<FilledPoint>, width: real, height: real)
    ensures InsideExactly(points, Scored(points, |points|, width, height), width, height)
  {
    if width > 0.0 {
      DrawnForward(points, |points|, width, height);
    }
    if height > 0.0 {
      DrawnUpright(points, |points|, width, height);
    }
    if height == 0.0 {
      DrawnFlat(points, |points|, width);
    }
  }

  lemma DivideMonotone(a: real, b: real, d: real)
    requires 0.0 <= a < b <= d
    ensures 0.0 <= a / d < b / d <= 1.0
  {
    assert a == (a / d) * d && b == (b / d) * d;
  }

  lemma AtMostOne(a: real, d: real)
    requires 0.0 <= a <= d && d > 0.0
    ensures 0.0 <= a / d <= 1.0 && (a == 0.0 ==> a / d == 0.0) && (a == d ==> a / d == 1.0)
  {
    assert (a / d) * d == a;
  }

  lemma ScaleBetween(a: real, b: real, w: real)
    requires a <= b && w >= 0.0
    ensures a * w <= b * w && (a < b && w > 0.0 ==> a * w < b * w)
  {
    assert (b - a) * w >= 0.0;
    assert a < b && w > 0.0 ==> (b - a) * w > 0.0;
  }

  /** From the left edge to the right one in equal steps; a point that is alone stands in the middle. */
  lemma EvenSteps(i: nat, n: nat, width: real)
    requires i + 1 < n
    ensures PlotX(0, n, width) == 0.0 && PlotX(n - 1, n, width) == width
    ensures PlotX(i + 1, n, width) - PlotX(i, n, width) == width / (n - 1) as real
    ensures PlotX(0, 1, width) + PlotX(0, 1, width) == width
  {
    var d := (n - 1) as real;
    assert (i + 1) as real / d == i as real / d + 1.0 / d;
    assert ((i + 1) as real / d) * width == (i as real / d) * width + (1.0 / d) * width;
    assert (1.0 / d) * width == width / d;
  }

  /** A higher score is drawn strictly higher. */
  lemma HigherIsHigher(a: real, b: real, height: real)
    requires height > 0.0
    ensures a < b <==> PlotY(b, height) < PlotY(a, height)
  {
    var s, t := a / 100.0, b / 100.0;
    var sh, th := s * height, t * height;
    assert PlotY(a, height) == height - sh && PlotY(b, height) == height - th;
    if s < t {
      ScaleBetween(s, t, height);
      assert sh < th;
    } else {
      ScaleBetween(t, s, height);
      assert th <= sh;
    }
  }

  /** Zero lies on the floor and 100 under the ceiling, and a mean of scores in the middle between them. */
  lemma EvenHeights(a: real, b: real, height: real)
    ensures PlotY(0.0, height) == height && PlotY(100.0, height) == 0.0
    ensures PlotY((a + b) / 2.0, height) == (PlotY(a, height) + PlotY(b, height)) / 2.0
  {
    var s, t := a / 100.0, b / 100.0;
    assert (a + b) / 2.0 / 100.0 == (s + t) / 2.0;
    assert ((s + t) / 2.0) * height == (s * height + t * height) / 2.0;
  }

  // ---------------------------------------------------------------- tick labels

  /** `Math.round`. */
  function Round(x: real): int {
    (x + 0.5).Floor
  }

  /** A computed label index; NaN is what 0/0 leads to. */
  datatype Tick = At(i: int) | NaN

  function LabelCount(n: nat): nat {
    if n < 7 then n else 7
  }

  function TickOf(i: nat, n: nat): Tick
    requires i < LabelCount(n)
  {
    if LabelCount(n) == 1 then NaN
    else At(Round((i as real / (LabelCount(n) - 1) as real) * (n - 1) as real))
  }

  method LabelIndices(n: nat) returns (ticks: seq<Tick>)
    ensures |ticks| == LabelCount(n) == if n < 7 then n else 7
    ensures forall i :: 0 <= i < |ticks| ==> ticks[i] == TickOf(i, n)
  {
    var labelCount := if 7 <= n then 7 else n;
    ticks := [];
    if n > 0 {
      for i := 0 to labelCount
        invariant |ticks| == i
        invariant forall k :: 0 <= k < i ==> ticks[k] == TickOf(k, n)
      {
        var tick := if labelCount - 1 == 0 then NaN
                    else At(Round((i as real / (labelCount - 1) as real) * (n - 1) as real));
        ticks := ticks + [tick];
      }
    }
  }

  lemma RoundStep(x: real, step: real)
    requires step >= 1.0
    ensures Round(x + step) >= Round(x) + 1
  {
  }

  /** A step between ticks is never shorter than a step between points. */
  lemma TickSpacing(i: nat, n: nat)
    requires n >= 2 && i + 1 < LabelCount(n)
    ensures var c := (LabelCount(n) - 1) as real;
            ((i + 1) as real / c) * (n - 1) as real >= (i as real / c) * (n - 1) as real + 1.0
  {
    var c, m := (LabelCount(n) - 1) as real, (n - 1) as real;
    var a, b := i as real / c, (i + 1) as real / c;
    assert a * c == i as real && b * c == i as real + 1.0;
    assert (b - a) * c == 1.0;
    assert b - a >= 0.0;
    ScaleBetween(c, m, b - a);
    assert b * m - a * m == (b - a) * m;
  }

  /** With two points or more the labels start at the first, end at the last and never repeat. */
  lemma TicksRunForward(i: nat, n: nat)
    requires n >= 2 && i < LabelCount(n)
    ensures TickOf(0, n) == At(0) && TickOf(LabelCount(n) - 1, n) == At(n - 1)
    ensures TickOf(i, n).At? && 0 <= TickOf(i, n).i <= n - 1
    ensures i + 1 < LabelCount(n) ==> TickOf(i, n).i < TickOf(i + 1, n).i
  {
    TickBounds(0, n);
    TickBounds(i, n);
    TickBounds(LabelCount(n) - 1, n);
    if i + 1 < LabelCount(n) {
      TickGrows(i, n);
    }
  }

  lemma TickBounds(i: nat, n: nat)
    requires n >= 2 && i < LabelCount(n)
    ensures TickOf(i, n).At? && 0 <= TickOf(i, n).i <= n - 1
    ensures i == 0 ==> TickOf(i, n) == At(0)
    ensures i == LabelCount(n) - 1 ==> TickOf(i, n) == At(n - 1)
  {
    var c, m := (LabelCount(n) - 1) as real, (n - 1) as real;
    var a := i as real / c;
    AtMostOne(i as real, c);
    ScaleBetween(0.0, a, m);
    ScaleBetween(a, 1.0, m);
  }

  lemma TickGrows(i: nat, n: nat)
    requires n >= 2 && i + 1 < LabelCount(n)
    ensures TickOf(i, n).At? && TickOf(i + 1, n).At? && TickOf(i, n).i < TickOf(i + 1, n).i
  {
    TickSpacing(i, n);
    var c, m := (LabelCount(n) - 1) as real, (n - 1) as real;
    var x, y := (i as real / c) * m, ((i + 1) as real / c) * m;
    RoundStep(x, y - x);
  }

  /** Each label is the whole number nearest to its place in the even spread, of two the higher. */
  lemma TickIsNearest(i: nat, n: nat)
    requires n >= 2 && i < LabelCount(n)
    ensures var c := LabelCount(n) - 1;
            && TickOf(i, n).At?
            && 2 * c * TickOf(i, n).i <= 2 * (i * (n - 1)) + c < 2 * c * (TickOf(i, n).i + 1)
  {
    var c, m := LabelCount(n) - 1, i * (n - 1);
    var x := (i as real / c as real) * (n - 1) as real;
    assert TickOf(i, n) == At(Round(x));
    ShareOfProduct(i, c, n - 1);
    RoundedShare(m, c, x);
  }

  lemma ShareOfProduct(a: int, c: int, b: int)
    requires c > 0
    ensures ((a as real / c as real) * b as real) * c as real == (a * b) as real
  {
    ShareOfWhole(a as real, c as real, b as real);
    assert (a * b) as real == a as real * b as real;
  }

  lemma ShareOfWhole(a: real, c: real, b: real)
    requires c > 0.0
    ensures ((a / c) * b) * c == a * b
  {
    assert (a / c) * c == a;
  }

  lemma RoundedShare(m: int, c: int, x: real)
    requires c > 0 && x * c as real == m as real
    ensures 2 * c * Round(x) <= 2 * m + c < 2 * c * (Round(x) + 1)
  {
    var t := Round(x);
    FloorScaled(t, c, x + 0.5);
    HalfMore(x, c as real);
    BetweenHalves(t * c, m, c, (t + 1) * c);
    Doubled(t, c);
  }

  lemma FloorScaled(t: int, c: int, y: real)
    requires c > 0 && t as real <= y < (t + 1) as real
    ensures (t * c) as real <= y * c as real < ((t + 1) * c) as real
  {
    ScaleBetween(t as real, y, c as real);
    ScaleBetween(y, (t + 1) as real, c as real);
    WholeTimes(t, c);
    WholeTimes(t + 1, c);
  }

  lemma BetweenHalves(low: int, m: int, c: int, high: int)
    requires low as real <= m as real + c as real / 2.0 < high as real
    ensures 2 * low <= 2 * m + c < 2 * high
  {
    assert (2 * low) as real <= (2 * m + c) as real < (2 * high) as real;
  }

  lemma HalfMore(x: real, c: real)
    ensures (x + 0.5) * c == x * c + c / 2.0
  {
  }

  lemma WholeTimes(t: int, c: int)
    ensures (t * c) as real == t as real * c as real
  {
  }

  lemma Doubled(t: int, c: int)
    ensures 2 * c * t == 2 * (t * c) && 2 * c * (t + 1) == 2 * ((t + 1) * c)
  {
  }

  /** A label can be drawn: its index is that of a point. */
  predicate Drawable(t: Tick, n: nat) {
    t.At? && 0 <= t.i < n
  }

  /** Every label can be drawn unless the trend has exactly one point. */
  lemma LabelsDrawableExactly(n: nat)
    ensures (forall i :: 0 <= i < LabelCount(n) ==> Drawable(TickOf(i, n), n)) <==> n != 1
  {
    if n >= 2 {
      forall i | 0 <= i < LabelCount(n) ensures Drawable(TickOf(i, n), n) {
        TicksRunForward(i, n);
      }
    } else if n == 1 {
      assert !Drawable(TickOf(0, n), n);
    }
  }

  // ---------------------------------------------------------------- hit testing

  const W := 600.0
  const PAD_LEFT := 40.0
  const CHART_W := 550.0

  /** The pointer's place in units of points: 0 at the first, n - 1 at the last. */
  function PointerAt(n: nat, clientX: real, left: real, width: real): real
    requires width > 0.0
  {
    var relX := clientX - left - (PAD_LEFT / W) * width;
    var pct := relX / ((CHART_W / W) * width);
    pct * (n - 1) as real
  }

  /** `handleMouseMove`: the index handed to `onHover`, for an image at `left`, `width` wide. */
  function Hover(points: seq<FilledPoint>, clientX: real, left: real, width: real): Option<nat>
    requires points != [] && width > 0.0
  {
    var idx := Round(PointerAt(|points|, clientX, left, width));
    if 0 <= idx < |points| && points[idx].score.Some? then Some(idx) else None
  }

  /** Where on the screen the plotting map puts index `i`. */
  function ScreenX(i: nat, n: nat, left: real, width: real): real
    requires i < n
  {
    left + ((PAD_LEFT + PlotX(i, n, CHART_W)) / W) * width
  }

  /** Half the distance on the screen between neighbouring points. */
  function HalfStep(n: nat, width: real): real
    requires n >= 2
  {
    ((CHART_W / W) * width) / (2 * (n - 1)) as real
  }

  lemma PointerPlace(i: nat, n: nat, clientX: real, left: real, width: real)
    requires i < n && n >= 2 && width > 0.0
    ensures (PointerAt(n, clientX, left, width) - i as real) * (2.0 * HalfStep(n, width))
         == clientX - ScreenX(i, n, left, width)
  {
    var m := (n - 1) as real;
    var c := (CHART_W / W) * width;
    var rel := clientX - left - (PAD_LEFT / W) * width;
    var pct := rel / c;
    var f := i as real / m;
    assert pct * c == rel && f * m == i as real;
    var h := HalfStep(n, width);
    assert (2 * (n - 1)) as real == 2.0 * m;
    assert h * (2.0 * m) == c;
    assert 2.0 * h * m == c;
    calc {
      (pct * m - i as real) * (2.0 * h);
      (pct * m - f * m) * (2.0 * h);
      (pct - f) * (2.0 * h * m);
      pct * c - f * c;
    }
    assert ScreenX(i, n, left, width) == left + (PAD_LEFT / W) * width + f * c;
  }

  /**
   The hit test inverts the plot: a scored point is selected exactly within half a step of it,
   and a point that is alone wherever the pointer is.
   */
  lemma HoverInvertsPlot(points: seq<FilledPoint>, i: nat, clientX: real, left: real, width: real)
    requires i < |points| && points[i].score.Some? && width > 0.0
    ensures Hover(points, clientX, left, width) == Some(i) <==>
              |points| == 1 ||
              var d := clientX - ScreenX(i, |points|, left, width);
              -HalfStep(|points|, width) <= d < HalfStep(|points|, width)
  {
    var n := |points|;
    var pos := PointerAt(n, clientX, left, width);
    RoundsTo(pos, i);
    if n == 1 {
      assert pos == 0.0;
    } else {
      PointerPlace(i, n, clientX, left, width);
      HalfStepPositive(n, width);
      WithinHalf(pos - i as real, HalfStep(n, width), clientX - ScreenX(i, n, left, width));
    }
  }

  /** Whatever is selected has a score: over a gap, and outside the chart, nothing is. */
  lemma HoverSelectsOnlyScores(points: seq<FilledPoint>, clientX: real, left: real, width: real)
    requires points != [] && width > 0.0
    ensures match Hover(points, clientX, left, width)
            case Some(i) => 0 <= i < |points| && points[i].score != None
            case None => forall i :: 0 <= i < |points| && points[i].score != None ==>
                           !(|points| == 1 || -HalfStep(|points|, width) <= clientX - ScreenX(i, |points|, left, width)
                                                < HalfStep(|points|, width))
  {
    forall i | 0 <= i < |points| && points[i].score.Some?
      ensures Hover(points, clientX, left, width) == Some(i) <==>
                (|points| == 1 || -HalfStep(|points|, width) <= clientX - ScreenX(i, |points|, left, width)
                                    < HalfStep(|points|, width))
    {
      HoverInvertsPlot(points, i, clientX, left, width);
    }
  }

  lemma WithinHalf(e: real, h: real, d: real)
    requires h > 0.0 && d == e * (2.0 * h)
    ensures -0.5 <= e < 0.5 <==> -h <= d < h
  {
    if e >= -0.5 { ScaleBetween(-0.5, e, 2.0 * h); } else { ScaleBetween(e, -0.5, 2.0 * h); }
    if e < 0.5 { ScaleBetween(e, 0.5, 2.0 * h); } else { ScaleBetween(0.5, e, 2.0 * h); }
  }

  lemma RoundsTo(x: real, i: int)
    ensures Round(x) == i <==> -0.5 <= x - i as real < 0.5
  {
  }

  lemma HalfStepPositive(n: nat, width: real)
    requires n >= 2 && width > 0.0
    ensures HalfStep(n, width) > 0.0
  {
    assert (CHART_W / W) * width > 0.0;
  }
}
