/**
 Where the drawing puts its nodes: five rows on a virtual canvas that grows with the
 longest row.  Coordinates are exact reals; a node's box is centred on its point.
 */
module TopologyLayout {
  import opened Options
  import opened Topology
  import opened TopologyEdges
  import opened TopologyMeaning

  datatype TopoNode = TopoNode(id: string, x: real, y: real, size: real)

  const ITEM_SPACING := 62.0

  function Max(a: nat, b: nat): (r: nat)
    ensures r >= a && r >= b
  {
    if a > b then a else b
  }

  function Longest(sn: Snapshot): (r: nat)
    ensures r >= |sn.nodes| && r >= |sn.svcs| && r >= |sn.wls| && r >= |sn.pods| && r >= |sn.pvcs|
  {
    Max(Max(Max(|sn.nodes|, |sn.svcs|), Max(|sn.wls|, |sn.pods|)), |sn.pvcs|)
  }

  function Width(sn: Snapshot): real {
    var w := (Longest(sn) + 1) as real * ITEM_SPACING;
    if w > 400.0 then w else 400.0
  }

  function Height(sn: Snapshot): real {
    var h := Width(sn) / 2.3;
    if h > 400.0 then h else 400.0
  }

  /** The size of a row's boxes, by the row's rank. */
  function Size(sn: Snapshot, rank: nat): (r: real)
    ensures 28.0 <= r <= 52.0
    ensures rank > 0 ==> r <= 44.0
    ensures rank > 1 ==> r <= 36.0
  {
    match rank
    case 0 => if |sn.nodes| > 6 then 40.0 else 52.0
    case 1 => if |sn.svcs| > 8 then 32.0 else 44.0
    case 2 => if |sn.wls| > 10 then 28.0 else 36.0
    case 3 => if |sn.pods| > 10 then 28.0 else 36.0
    case _ => if |sn.pvcs| > 6 then 28.0 else 36.0
  }

  /** How far down the canvas a row stands. */
  function Down(rank: nat): real {
    match rank
    case 0 => 0.08
    case 1 => 0.25
    case 2 => 0.45
    case 3 => 0.65
    case _ => 0.85
  }

  function Ids(sn: Snapshot, rank: nat): (r: seq<string>)
    ensures |r| <= Longest(sn)
  {
    match rank
    case 0 => seq(|sn.nodes|, i requires 0 <= i < |sn.nodes| => NodeId(sn.nodes[i]))
    case 1 => seq(|sn.svcs|, i requires 0 <= i < |sn.svcs| => SvcId(sn.svcs[i]))
    case 2 => seq(|sn.wls|, i requires 0 <= i < |sn.wls| => WlId(sn.wls[i]))
    case 3 => seq(|sn.pods|, i requires 0 <= i < |sn.pods| => PodId(sn.pods[i]))
    case 4 => seq(|sn.pvcs|, i requires 0 <= i < |sn.pvcs| => PvcId(sn.pvcs[i]))
    case _ => []
  }

  /** Point `i` of `count` spread evenly over a width. */
  function Column(width: real, count: nat, i: nat): real {
    width / (count + 1) as real * (i + 1) as real
  }

  /** Box `i` of the row of that rank. */
  function Box(sn: Snapshot, rank: nat, i: nat): TopoNode
    requires i < |Ids(sn, rank)|
  {
    TopoNode(Ids(sn, rank)[i], Column(Width(sn), |Ids(sn, rank)|, i), Height(sn) * Down(rank), Size(sn, rank))
  }

  function Row(sn: Snapshot, rank: nat): (r: seq<TopoNode>)
    ensures |r| == |Ids(sn, rank)| && forall i :: 0 <= i < |r| ==> r[i] == Box(sn, rank, i)
  {
    seq(|Ids(sn, rank)|, i requires 0 <= i < |Ids(sn, rank)| => Box(sn, rank, i))
  }

  method PlaceRow(ids: seq<string>, y: real, size: real, width: real) returns (row: seq<TopoNode>)
    ensures |row| == |ids|
    ensures forall i :: 0 <= i < |ids| ==>
              row[i] == TopoNode(ids[i], Column(width, |ids|, i), y, size)
  {
    row := [];
    var count := |ids|;
    if count == 0 {
      return;
    }
    var spacing := width / (count + 1) as real;
    for i := 0 to count
      invariant |row| == i
      invariant forall k :: 0 <= k < i ==> row[k] == TopoNode(ids[k], Column(width, count, k), y, size)
    {
      row := row + [TopoNode(ids[i], spacing * (i + 1) as real, y, size)];
    }
  }

  method PlaceRank(sn: Snapshot, rank: nat) returns (row: seq<TopoNode>)
    ensures row == Row(sn, rank)
  {
    row := PlaceRow(Ids(sn, rank), Height(sn) * Down(rank), Size(sn, rank), Width(sn));
  }

  method PlaceAll(sn: Snapshot) returns (nodes: seq<TopoNode>)
    ensures nodes == AllRows(sn)
  {
    var r0 := PlaceRank(sn, 0);
    var r1 := PlaceRank(sn, 1);
    var r2 := PlaceRank(sn, 2);
    var r3 := PlaceRank(sn, 3);
    var r4 := PlaceRank(sn, 4);
    nodes := r0 + r1 + r2 + r3 + r4;
  }

  // ---------------------------------------------------------------- no overlap, nothing outside

  lemma Spread(w: real, n: real)
    requires n >= 1.0 && w >= n * ITEM_SPACING
    ensures w / n >= ITEM_SPACING && w / n * n == w
  {
    if w / n < ITEM_SPACING {
      Times(0.0, ITEM_SPACING - w / n, n);
    }
  }

  /** The canvas is wide enough for any row. */
  lemma CanvasFits(sn: Snapshot, rank: nat)
    ensures Width(sn) >= (|Ids(sn, rank)| + 1) as real * ITEM_SPACING
  {
    Times((|Ids(sn, rank)| + 1) as real, (Longest(sn) + 1) as real, ITEM_SPACING);
  }

  /** The canvas is no wider than 400 or its longest row needs, and no higher than 400 or its shape asks. */
  lemma CanvasIsSnug(sn: Snapshot)
    ensures var most := Longest(sn);
            && (most == |sn.nodes| || most == |sn.svcs| || most == |sn.wls| || most == |sn.pods| || most == |sn.pvcs|)
            && Width(sn) >= 400.0 && Width(sn) >= 62.0 * (most + 1) as real
            && (Width(sn) == 400.0 || Width(sn) == 62.0 * (most + 1) as real)
    ensures Height(sn) >= 400.0 && 2.3 * Height(sn) >= Width(sn)
    ensures Height(sn) == 400.0 || 2.3 * Height(sn) == Width(sn)
  {
    assert 2.3 * (Width(sn) / 2.3) == Width(sn);
  }

  /** Columns leave equal spaces between them and at both ends. */
  lemma EvenlySpread(w: real, n: nat, i: nat)
    requires i < n
    ensures Column(w, n, 0) == w - Column(w, n, n - 1)
    ensures i + 1 < n ==> Column(w, n, i + 1) - Column(w, n, i) == Column(w, n, 0)
  {
    var gap := w / (n + 1) as real;
    assert gap * (n + 1) as real == w;
    assert Column(w, n, n - 1) == gap * n as real;
    assert gap * (i + 2) as real == gap * (i + 1) as real + gap;
  }

  /** A column stands at least one spacing from either end of the row. */
  lemma ColumnInside(w: real, n: nat, i: nat)
    requires i < n && w >= (n + 1) as real * ITEM_SPACING
    ensures ITEM_SPACING <= Column(w, n, i) <= w - ITEM_SPACING
  {
    var m := n as real;
    var spacing := w / (m + 1.0);
    assert (n + 1) as real == m + 1.0;
    Spread(w, m + 1.0);
    Times(1.0, (i + 1) as real, spacing);
    Times((i + 1) as real, m, spacing);
    assert spacing * (m + 1.0) == spacing * m + spacing;
  }

  lemma ColumnGap(w: real, n: nat, i: nat, j: nat)
    requires i < j < n && w >= (n + 1) as real * ITEM_SPACING
    ensures Column(w, n, j) - Column(w, n, i) >= ITEM_SPACING
  {
    var spacing := w / (n + 1) as real;
    Spread(w, (n + 1) as real);
    var a, b := (i + 1) as real, (j + 1) as real;
    Times(1.0, b - a, spacing);
    assert spacing * b - spacing * a == (b - a) * spacing;
  }

  ghost predicate Inside(b: TopoNode, width: real, height: real) {
    && 0.0 <= b.x - b.size / 2.0 && b.x + b.size / 2.0 <= width
    && 0.0 <= b.y - b.size / 2.0 && b.y + b.size / 2.0 <= height
  }

  ghost predicate Overlap(a: TopoNode, b: TopoNode) {
    var reach := (a.size + b.size) / 2.0;
    -reach < a.x - b.x < reach && -reach < a.y - b.y < reach
  }

  lemma Times(a: real, b: real, k: real)
    requires a <= b && k >= 0.0
    ensures a * k <= b * k
  {
    assert (b - a) * k >= 0.0;
  }

  /** Every box lies inside the virtual canvas. */
  lemma BoxesInside(sn: Snapshot, rank: nat, i: nat)
    requires rank <= 4 && i < |Ids(sn, rank)|
    ensures Inside(Box(sn, rank, i), Width(sn), Height(sn))
  {
    CanvasFits(sn, rank);
    ColumnInside(Width(sn), |Ids(sn, rank)|, i);
    RowInside(sn, rank);
  }

  lemma RowInside(sn: Snapshot, rank: nat)
    requires rank <= 4
    ensures Height(sn) >= 400.0
    ensures 26.0 <= Height(sn) * Down(rank) <= Height(sn) - 26.0
  {
    var h := Height(sn);
    Times(0.08, Down(rank), h);
    Times(Down(rank), 0.85, h);
    Times(400.0, h, 0.08);
    Times(400.0, h, 0.15);
  }

  /** Rows are at least 68 apart, against a largest reach of 48 between two rows. */
  lemma RowsApart(sn: Snapshot, upper: nat, lower: nat)
    requires upper < lower <= 4
    ensures Height(sn) * Down(lower) - Height(sn) * Down(upper) >= 68.0
  {
    var h := Height(sn);
    assert Down(lower) - Down(upper) >= 0.17;
    Times(0.17, Down(lower) - Down(upper), h);
    Times(400.0, h, 0.17);
    assert h * Down(lower) - h * Down(upper) == (Down(lower) - Down(upper)) * h;
  }

  lemma ColumnsApart(sn: Snapshot, rank: nat, i: nat, j: nat)
    requires i < j < |Ids(sn, rank)|
    ensures Box(sn, rank, j).x - Box(sn, rank, i).x >= ITEM_SPACING
  {
    CanvasFits(sn, rank);
    ColumnGap(Width(sn), |Ids(sn, rank)|, i, j);
  }

  /** No two boxes of the drawing overlap, whatever the lengths of the five lists. */
  lemma BoxesDisjoint(sn: Snapshot, r: nat, i: nat, q: nat, j: nat)
    requires r <= 4 && q <= 4 && i < |Ids(sn, r)| && j < |Ids(sn, q)|
    requires r != q || i != j
    ensures !Overlap(Box(sn, r, i), Box(sn, q, j))
  {
    if r < q {
      RowsApart(sn, r, q);
    } else if q < r {
      RowsApart(sn, q, r);
    } else if i < j {
      ColumnsApart(sn, r, i, j);
    } else {
      ColumnsApart(sn, r, j, i);
    }
  }

  // ---------------------------------------------------------------- edges join placed nodes

  /** The ids of all placed nodes. */
  ghost function PlacedIds(sn: Snapshot): set<string> {
    set r, i | 0 <= r <= 4 && 0 <= i < |Ids(sn, r)| :: Ids(sn, r)[i]
  }

  lemma RowRanks(sn: Snapshot, r: nat, i: nat)
    requires r <= 4 && i < |Ids(sn, r)|
    ensures Rank(Ids(sn, r)[i]) == r
  {
    var n0, s0, w0 := Node(""), Service("", None, None), Workload(Deployment, "", None, None);
    var p0 := Pod("", None, None, None, []);
    match r {
      case 0 => IdRanks(sn.nodes[i], s0, w0, p0, None, "");
      case 1 => IdRanks(n0, sn.svcs[i], w0, p0, None, "");
      case 2 => IdRanks(n0, s0, sn.wls[i], p0, None, "");
      case 3 => IdRanks(n0, s0, w0, sn.pods[i], None, "");
      case _ => IdRanks(n0, s0, w0, p0, sn.pvcs[i].namespace, sn.pvcs[i].name);
    }
  }

  lemma NodePlaced(sn: Snapshot, i: int)
    requires 0 <= i < |sn.nodes|
    ensures NodeId(sn.nodes[i]) in PlacedIds(sn)
  {
    assert Ids(sn, 0)[i] == NodeId(sn.nodes[i]);
  }

  lemma SvcPlaced(sn: Snapshot, i: int)
    requires 0 <= i < |sn.svcs|
    ensures SvcId(sn.svcs[i]) in PlacedIds(sn)
  {
    assert Ids(sn, 1)[i] == SvcId(sn.svcs[i]);
  }

  lemma WlPlaced(sn: Snapshot, i: int)
    requires 0 <= i < |sn.wls|
    ensures WlId(sn.wls[i]) in PlacedIds(sn)
  {
    assert Ids(sn, 2)[i] == WlId(sn.wls[i]);
  }

  lemma PvcPlaced(sn: Snapshot, i: int)
    requires 0 <= i < |sn.pvcs|
    ensures PvcId(sn.pvcs[i]) in PlacedIds(sn)
  {
    assert Ids(sn, 4)[i] == PvcId(sn.pvcs[i]);
  }

  lemma PodPlaced(sn: Snapshot, i: int)
    requires 0 <= i < |sn.pods|
    ensures PodId(sn.pods[i]) in PlacedIds(sn)
  {
    assert Ids(sn, 3)[i] == PodId(sn.pods[i]);
  }

  /** Both ends of every edge are nodes of the drawing. */
  lemma EdgeEndsPlaced(sn: Snapshot, m: Sets, placed: set<string>, e: Edge)
    requires Filed(sn, m) && placed == PlacedIds(sn) && IsEdge(sn, m, placed, e)
    ensures e.from in placed && e.to in placed
  {
    if IsNodeEdge(sn, e) {
      var n :| 0 <= n < |sn.nodes| && e.from == NodeId(sn.nodes[n]) && NodeReaches(sn, n, e.to);
      var p, s :| OnNode(sn, n, p) && SvcPod(sn, s, p) && SvcId(sn.svcs[s]) == e.to;
      NodePlaced(sn, n);
      SvcPlaced(sn, s);
    } else if IsWorkloadEdge(sn, e) {
      var w, p :| WlPod(sn, w, p) && PodId(sn.pods[p]) == e.to && WlId(sn.wls[w]) == e.from;
      WlPlaced(sn, w);
      PodPlaced(sn, p);
    } else if IsServiceEdge(sn, m, e) {
      var s :| 0 <= s < |sn.svcs| && e.from == SvcId(sn.svcs[s]) && (SvcReaches(sn, m, s, e.to) || SvcDirect(sn, m, s, e.to));
      SvcPlaced(sn, s);
      ServiceTargetPlaced(sn, m, s, e.to);
    } else {
      var p, claim :| Mounts(sn, p, claim) && e.from == PodId(sn.pods[p]) && e.to == PvcIdOf(sn.pods[p].namespace, claim)
                      && e.to in placed;
      PodPlaced(sn, p);
    }
  }

  lemma ServiceTargetPlaced(sn: Snapshot, m: Sets, s: int, to: string)
    requires Filed(sn, m) && (SvcReaches(sn, m, s, to) || SvcDirect(sn, m, s, to))
    ensures to in PlacedIds(sn)
  {
    if SvcReaches(sn, m, s, to) {
      var p :| SvcPod(sn, s, p) && Has(m, PodId(sn.pods[p]), to);
      var w, q :| WlPod(sn, w, q) && PodId(sn.pods[q]) == PodId(sn.pods[p]) && WlId(sn.wls[w]) == to;
      WlPlaced(sn, w);
    } else {
      var p :| SvcPod(sn, s, p) && PodId(sn.pods[p]) !in m && to == PodId(sn.pods[p]);
      PodPlaced(sn, p);
    }
  }

  /** Every edge joins two placed nodes, and wherever its ends stand the second is strictly lower. */
  lemma EdgesJoinPlacedNodesDownward(sn: Snapshot, m: Sets, e: Edge, r: nat, i: nat, q: nat, j: nat)
    requires Filed(sn, m) && IsEdge(sn, m, PlacedIds(sn), e)
    requires r <= 4 && q <= 4 && i < |Ids(sn, r)| && j < |Ids(sn, q)|
    requires Box(sn, r, i).id == e.from && Box(sn, q, j).id == e.to
    ensures Box(sn, r, i).y < Box(sn, q, j).y
  {
    EdgesGoDown(sn, m, PlacedIds(sn), e);
    RowRanks(sn, r, i);
    RowRanks(sn, q, j);
    RowsApart(sn, r, q);
  }

  // ---------------------------------------------------------------- the drawing as a whole

  function AllRows(sn: Snapshot): seq<TopoNode> {
    Row(sn, 0) + Row(sn, 1) + Row(sn, 2) + Row(sn, 3) + Row(sn, 4)
  }

  /** The row, and the place in it, of node `k` of the drawing. */
  function Locate(sn: Snapshot, k: nat): (at: (nat, nat))
    requires k < |AllRows(sn)|
    ensures at.0 <= 4 && at.1 < |Ids(sn, at.0)|
  {
    var n0, n1, n2, n3 := |Row(sn, 0)|, |Row(sn, 1)|, |Row(sn, 2)|, |Row(sn, 3)|;
    if k < n0 then (0, k)
    else if k < n0 + n1 then (1, k - n0)
    else if k < n0 + n1 + n2 then (2, k - n0 - n1)
    else if k < n0 + n1 + n2 + n3 then (3, k - n0 - n1 - n2)
    else (4, k - n0 - n1 - n2 - n3)
  }

  /** Indexing five lists laid end to end. */
  lemma FiveParts<T>(a: seq<T>, b: seq<T>, c: seq<T>, d: seq<T>, e: seq<T>, k: nat)
    requires k < |a + b + c + d + e|
    ensures (a + b + c + d + e)[k] ==
              if k < |a| then a[k]
              else if k < |a| + |b| then b[k - |a|]
              else if k < |a| + |b| + |c| then c[k - |a| - |b|]
              else if k < |a| + |b| + |c| + |d| then d[k - |a| - |b| - |c|]
              else e[k - |a| - |b| - |c| - |d|]
  {
  }

  lemma LocateBox(sn: Snapshot, k: nat)
    requires k < |AllRows(sn)|
    ensures AllRows(sn)[k] == Box(sn, Locate(sn, k).0, Locate(sn, k).1)
  {
    var (r, i) := Locate(sn, k);
    FiveParts(Row(sn, 0), Row(sn, 1), Row(sn, 2), Row(sn, 3), Row(sn, 4), k);
    assert AllRows(sn)[k] == Row(sn, r)[i] == Box(sn, r, i);
  }

  lemma LocateInjective(sn: Snapshot, j: nat, k: nat)
    requires j < k < |AllRows(sn)|
    ensures Locate(sn, j) != Locate(sn, k)
  {
  }

  lemma BoxIsDrawn(sn: Snapshot, r: nat, i: nat)
    requires r <= 4 && i < |Ids(sn, r)|
    ensures Box(sn, r, i) in AllRows(sn)
  {
    assert Row(sn, r)[i] == Box(sn, r, i);
    assert Box(sn, r, i) in Row(sn, r);
  }

  /** The node list carries exactly the placed ids. */
  lemma NodeIds(sn: Snapshot)
    ensures (set n | n in AllRows(sn) :: n.id) == PlacedIds(sn)
  {
    var all, ids := AllRows(sn), set n | n in AllRows(sn) :: n.id;
    forall id | id in ids ensures id in PlacedIds(sn) {
      var k :| 0 <= k < |all| && all[k].id == id;
      var (r, i) := Locate(sn, k);
      LocateBox(sn, k);
      assert Ids(sn, r)[i] == id;
    }
    forall id | id in PlacedIds(sn) ensures id in ids {
      var r, i :| 0 <= r <= 4 && 0 <= i < |Ids(sn, r)| && Ids(sn, r)[i] == id;
      BoxIsDrawn(sn, r, i);
      assert Box(sn, r, i).id == id;
    }
  }

  lemma DrawnMeaning(sn: Snapshot, m: Sets, placed: set<string>, edges: seq<Edge>)
    requires Filed(sn, m) && placed == PlacedIds(sn)
    requires forall e :: e in edges <==> IsEdge(sn, m, placed, e)
    ensures UniqueKeys(sn) ==> (EdgesMean(sn, edges) <==> NoHarm(sn))
    ensures UniqueKeys(sn) && NamespacesApart(sn) ==> EdgesMean(sn, edges)
    ensures InjectiveIds(sn) && InjectiveClaimIds(sn) ==> EdgesMean(sn, edges)
  {
    if UniqueKeys(sn) && NamespacesApart(sn) {
      ApartNamespacesSuffice(sn);
    }
    forall c | 0 <= c < |sn.pvcs| ensures PvcId(sn.pvcs[c]) in placed {
      PvcPlaced(sn, c);
    }
    if InjectiveIds(sn) {
      InjectiveIdsHaveKeys(sn);
    }
    if UniqueKeys(sn) {
      EdgesMeanExactly(sn, m, placed, edges);
    }
  }

  /**
   The layout effect: boxes inside the canvas and apart from each other, and every edge
   between two of them, leading down.
   */
  method Draw(sn: Snapshot) returns (nodes: seq<TopoNode>, edges: seq<Edge>, ghost podToWorkloads: Sets)
    ensures nodes == AllRows(sn)
    ensures Filed(sn, podToWorkloads) && forall e :: e in edges <==> IsEdge(sn, podToWorkloads, PlacedIds(sn), e)
    ensures NoRepeats(sn, edges) && LabelsDecide(sn)
    ensures UniqueKeys(sn) ==> (EdgesMean(sn, edges) <==> NoHarm(sn))
    ensures UniqueKeys(sn) && NamespacesApart(sn) ==> EdgesMean(sn, edges)
    ensures InjectiveIds(sn) && InjectiveClaimIds(sn) ==> EdgesMean(sn, edges)
    ensures forall k :: 0 <= k < |nodes| ==> Inside(nodes[k], Width(sn), Height(sn))
    ensures forall j, k :: 0 <= j < k < |nodes| ==> !Overlap(nodes[j], nodes[k])
    ensures forall e :: e in edges ==> (exists n :: n in nodes && n.id == e.from) && (exists n :: n in nodes && n.id == e.to)
    ensures forall e, j, k | e in edges && 0 <= j < |nodes| && 0 <= k < |nodes| ::
              nodes[j].id == e.from && nodes[k].id == e.to ==> nodes[j].y < nodes[k].y
  {
    nodes := PlaceAll(sn);
    var topoNodeIds := set n | n in nodes :: n.id;
    NodeIds(sn);
    edges, podToWorkloads := BuildEdges(sn, topoNodeIds);
    DrawnMeaning(sn, podToWorkloads, topoNodeIds, edges);
    LabelsAlwaysDecide(sn);
    forall k | 0 <= k < |nodes| ensures Inside(nodes[k], Width(sn), Height(sn)) {
      var (r, i) := Locate(sn, k);
      LocateBox(sn, k);
      BoxesInside(sn, r, i);
    }
    forall j, k | 0 <= j < k < |nodes| ensures !Overlap(nodes[j], nodes[k]) {
      var (r, i) := Locate(sn, j);
      var (q, h) := Locate(sn, k);
      LocateBox(sn, j);
      LocateBox(sn, k);
      LocateInjective(sn, j, k);
      BoxesDisjoint(sn, r, i, q, h);
    }
    forall e | e in edges ensures e.from in topoNodeIds && e.to in topoNodeIds {
      EdgeEndsPlaced(sn, podToWorkloads, topoNodeIds, e);
    }
    forall e, j, k | e in edges && 0 <= j < |nodes| && 0 <= k < |nodes| && nodes[j].id == e.from && nodes[k].id == e.to
      ensures nodes[j].y < nodes[k].y
    {
      var (r, i) := Locate(sn, j);
      var (q, h) := Locate(sn, k);
      LocateBox(sn, j);
      LocateBox(sn, k);
      EdgesJoinPlacedNodesDownward(sn, podToWorkloads, e, r, i, q, h);
    }
  }
}
