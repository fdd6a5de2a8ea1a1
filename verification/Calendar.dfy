// Side-by-side lanes for overlapping calendar blocks (src/lib/silverfang/calendar.ts).
module Calendar {
  import Sorting

  datatype LaneItem = LaneItem(id: string, start: int, end: int)
  datatype LaneAssignment = LaneAssignment(id: string, lane: nat, laneCount: nat)

  predicate Before(a: LaneItem, b: LaneItem) {
    a.start < b.start || (a.start == b.start && a.end <= b.end)
  }

  predicate Covers(a: LaneItem, minute: int) {
    a.start <= minute < a.end
  }

  /** Two blocks overlap when some minute belongs to both. */
  ghost predicate Overlap(a: LaneItem, b: LaneItem) {
    a.start < b.end && b.start < a.end
  }

  /** Every block has a start in the day and a positive length. */
  ghost predicate Proper(s: seq<LaneItem>) {
    forall i :: 0 <= i < |s| ==> 0 <= s[i].start < s[i].end
  }

  ghost predicate ByStart(s: seq<LaneItem>) {
    forall i, j :: 0 <= i < j < |s| ==> s[i].start <= s[j].start
  }

  // ----- The overlap graph -----

  ghost predicate Closed(s: seq<LaneItem>, S: set<nat>) {
    forall i, j :: 0 <= i < |s| && 0 <= j < |s| && i in S && Overlap(s[i], s[j]) ==> j in S
  }

  /** `j` can be reached from `i` through overlaps: no closed set holds `i` without `j`. */
  ghost predicate Connected(s: seq<LaneItem>, i: nat, j: nat) {
    forall S: set<nat> :: i in S && Closed(s, S) ==> j in S
  }

  ghost function Component(s: seq<LaneItem>, i: nat): set<nat> {
    set j: nat | j < |s| && Connected(s, i, j)
  }

  /** The blocks of `S` that are under way at `minute`. */
  ghost function UnderWay(s: seq<LaneItem>, S: set<nat>, minute: int): set<nat> {
    set j: nat | j < |s| && j in S && Covers(s[j], minute)
  }

  /** `count` is the largest number of blocks of `S` under way at one minute. */
  ghost predicate PeakConcurrency(s: seq<LaneItem>, S: set<nat>, count: nat) {
    && (exists minute :: |UnderWay(s, S, minute)| == count)
    && (forall minute :: |UnderWay(s, S, minute)| <= count)
  }

  // ----- What a layout promises -----

  /** No two overlapping blocks share a lane (of the blocks that have one so far). */
  ghost predicate NoCollision(s: seq<LaneItem>, lane: seq<nat>)
    requires |lane| <= |s|
  {
    forall i, j :: 0 <= i < j < |lane| && Overlap(s[i], s[j]) ==> lane[i] != lane[j]
  }

  /** An earlier block in lane `l` is in the way of block `i`. */
  ghost predicate Taken(s: seq<LaneItem>, lane: seq<nat>, i: nat, l: nat)
    requires i < |lane| <= |s|
  {
    exists j :: 0 <= j < i && lane[j] == l && Overlap(s[j], s[i])
  }

  /** A block is pushed right only when every lane to its left is taken. */
  ghost predicate Leftmost(s: seq<LaneItem>, lane: seq<nat>)
    requires |lane| <= |s|
  {
    forall i: nat, l: nat :: i < |lane| && l < lane[i] ==> Taken(s, lane, i, l)
  }

  ghost function Lanes(out: seq<LaneAssignment>): (lane: seq<nat>)
    ensures |lane| == |out|
    ensures forall i :: 0 <= i < |out| ==> lane[i] == out[i].lane
  {
    seq(|out|, i requires 0 <= i < |out| => out[i].lane)
  }

  ghost predicate Layout(s: seq<LaneItem>, out: seq<LaneAssignment>) {
    && |out| == |s|
    && (forall i :: 0 <= i < |s| ==> out[i].id == s[i].id && out[i].lane < out[i].laneCount)
    && NoCollision(s, Lanes(out))
    && Leftmost(s, Lanes(out))
    && (forall i :: 0 <= i < |s| ==> PeakConcurrency(s, Component(s, i), out[i].laneCount))
  }

  // ----- First fit inside one cluster -----

  /** As many different blocks as `busy` lists are all under way at `minute`. */
  ghost predicate AllRunning(c: seq<LaneItem>, busy: seq<nat>, minute: int) {
    && (forall i, j :: 0 <= i < j < |busy| ==> busy[i] != busy[j])
    && (forall i :: 0 <= i < |busy| ==> busy[i] < |c| && Covers(c[busy[i]], minute))
  }

  function FindLane(laneEnds: seq<int>, start: int): (lane: nat)
    ensures lane <= |laneEnds|
    ensures forall l :: 0 <= l < lane ==> start < laneEnds[l]
    ensures lane < |laneEnds| ==> start >= laneEnds[lane]
  {
    if laneEnds == [] || start >= laneEnds[0] then 0 else 1 + FindLane(laneEnds[1..], start)
  }

  /** `last[l]` is the block that set the end of lane `l`; nothing in the lane ends later. */
  ghost predicate Filled(c: seq<LaneItem>, lanes: seq<nat>, laneEnds: seq<int>, last: seq<nat>) {
    && |lanes| <= |c| && |last| == |laneEnds|
    && (forall i :: 0 <= i < |lanes| ==> lanes[i] < |laneEnds| && c[i].end <= laneEnds[lanes[i]])
    && (forall l :: 0 <= l < |last| ==> last[l] < |lanes| && lanes[last[l]] == l && c[last[l]].end == laneEnds[l])
  }

  method FirstFit(c: seq<LaneItem>) returns (lanes: seq<nat>, laneCount: nat, ghost peak: int, ghost busy: seq<nat>)
    requires Proper(c) && ByStart(c)
    ensures |lanes| == |c| && forall i :: 0 <= i < |c| ==> lanes[i] < laneCount
    ensures NoCollision(c, lanes)
    ensures Leftmost(c, lanes)
    ensures |busy| == laneCount && AllRunning(c, busy, peak)
  {
    lanes, peak, busy := [], 0, [];
    var laneEnds: seq<int> := [];
    ghost var last: seq<nat> := [];
    while |lanes| < |c|
      invariant Filled(c, lanes, laneEnds, last)
      invariant NoCollision(c, lanes) && Leftmost(c, lanes)
      invariant |busy| == |laneEnds| && AllRunning(c, busy, peak)
    {
      var item := c[|lanes|];
      var lane := FindLane(laneEnds, item.start);
      PlaceNext(c, lanes, laneEnds, last, lane);
      if lane == |laneEnds| {
        AllLanesBusy(c, lanes, laneEnds, last);
        LaneOpened(c, lanes, laneEnds, last);
        peak, busy := item.start, last + [|lanes|];
        laneEnds, last := laneEnds + [item.end], last + [|lanes|];
      } else {
        LaneReused(c, lanes, laneEnds, last, lane);
        laneEnds, last := laneEnds[lane := item.end], last[lane := |lanes|];
      }
      lanes := lanes + [lane];
    }
    laneCount := |laneEnds|;
  }

  /** Whatever is in the lane a block is put in has ended by then. */
  lemma PlacedClear(c: seq<LaneItem>, lanes: seq<nat>, laneEnds: seq<int>, last: seq<nat>, lane: nat)
    requires Proper(c) && Filled(c, lanes, laneEnds, last) && |lanes| < |c| && NoCollision(c, lanes)
    requires lane == FindLane(laneEnds, c[|lanes|].start)
    ensures NoCollision(c, lanes + [lane])
  {
    forall i | 0 <= i < |lanes| && lanes[i] == lane ensures !Overlap(c[i], c[|lanes|]) {
      assert c[i].end <= laneEnds[lane] <= c[|lanes|].start;
    }
  }

  lemma PlaceNext(c: seq<LaneItem>, lanes: seq<nat>, laneEnds: seq<int>, last: seq<nat>, lane: nat)
    requires Proper(c) && ByStart(c) && Filled(c, lanes, laneEnds, last) && |lanes| < |c|
    requires NoCollision(c, lanes) && Leftmost(c, lanes)
    requires lane == FindLane(laneEnds, c[|lanes|].start)
    ensures NoCollision(c, lanes + [lane]) && Leftmost(c, lanes + [lane])
  {
    var k, lanes' := |lanes|, lanes + [lane];
    PlacedClear(c, lanes, laneEnds, last, lane);
    forall i: nat, l: nat | i < |lanes'| && l < lanes'[i] ensures Taken(c, lanes', i, l) {
      if i < k {
        assert Taken(c, lanes, i, l);
        StillTaken(c, lanes, lane, i, l);
      } else {
        LowerLaneTaken(c, lanes, laneEnds, last, lane, l);
      }
    }
  }

  lemma StillTaken(c: seq<LaneItem>, lanes: seq<nat>, lane: nat, i: nat, l: nat)
    requires i < |lanes| < |c| && Taken(c, lanes, i, l)
    ensures Taken(c, lanes + [lane], i, l)
  {
    var j :| 0 <= j < i && lanes[j] == l && Overlap(c[j], c[i]);
    assert (lanes + [lane])[j] == l;
  }

  lemma LowerLaneTaken(c: seq<LaneItem>, lanes: seq<nat>, laneEnds: seq<int>, last: seq<nat>, lane: nat, l: nat)
    requires Proper(c) && ByStart(c) && Filled(c, lanes, laneEnds, last) && |lanes| < |c|
    requires l < |laneEnds| && c[|lanes|].start < laneEnds[l]
    ensures Taken(c, lanes + [lane], |lanes|, l)
  {
    var j := last[l];
    assert (lanes + [lane])[j] == l && Overlap(c[j], c[|lanes|]);
  }

  lemma LaneOpened(c: seq<LaneItem>, lanes: seq<nat>, laneEnds: seq<int>, last: seq<nat>)
    requires Filled(c, lanes, laneEnds, last) && |lanes| < |c|
    ensures Filled(c, lanes + [|laneEnds|], laneEnds + [c[|lanes|].end], last + [|lanes|])
  {
  }

  lemma LaneReused(c: seq<LaneItem>, lanes: seq<nat>, laneEnds: seq<int>, last: seq<nat>, lane: nat)
    requires Proper(c) && Filled(c, lanes, laneEnds, last) && |lanes| < |c|
    requires lane < |laneEnds| && c[|lanes|].start >= laneEnds[lane]
    ensures Filled(c, lanes + [lane], laneEnds[lane := c[|lanes|].end], last[lane := |lanes|])
  {
  }

  /** Opening a lane means every open lane holds a block under way right now. */
  lemma AllLanesBusy(c: seq<LaneItem>, lanes: seq<nat>, laneEnds: seq<int>, last: seq<nat>)
    requires Proper(c) && ByStart(c) && Filled(c, lanes, laneEnds, last) && |lanes| < |c|
    requires forall l :: 0 <= l < |laneEnds| ==> c[|lanes|].start < laneEnds[l]
    ensures AllRunning(c, last + [|lanes|], c[|lanes|].start)
  {
  }

  lemma {:induction false} ManyIndices(xs: seq<nat>, S: set<nat>)
    requires forall i, j :: 0 <= i < j < |xs| ==> xs[i] != xs[j]
    requires forall i :: 0 <= i < |xs| ==> xs[i] in S
    ensures |xs| <= |S|
  {
    if xs == [] {
    } else {
      ManyIndices(xs[1..], S - {xs[0]});
    }
  }

  // ----- Cutting the day into clusters -----

  /** One cluster: cut off from what came before, and held together inside. */
  ghost predicate Segment(s: seq<LaneItem>, lo: nat, hi: nat) {
    && lo < hi <= |s|
    && CutAt(s, lo)
    && Held(s, lo, hi)
  }

  ghost predicate CutAt(s: seq<LaneItem>, k: nat) {
    forall i, j :: 0 <= i < k <= j < |s| ==> s[i].end <= s[j].start
  }

  /** Block `i` starts before some earlier block of the cluster has ended. */
  ghost predicate JoinedAt(s: seq<LaneItem>, lo: nat, i: nat)
    requires i < |s|
  {
    exists j :: lo <= j < i && s[i].start < s[j].end
  }

  ghost predicate Held(s: seq<LaneItem>, lo: nat, hi: nat) {
    hi <= |s| && forall i: nat :: lo < i < hi ==> JoinedAt(s, lo, i)
  }

  /** The loop so far: the clusters closed before `lo`, and the open one from `lo` to `k`. */
  ghost predicate Cutting(s: seq<LaneItem>, clusters: seq<seq<LaneItem>>, bounds: seq<nat>, lo: nat) {
    && |bounds| == |clusters| + 1 && bounds[0] == 0 && bounds[|clusters|] == lo
    && (forall c :: 0 <= c < |clusters| ==> Segment(s, bounds[c], bounds[c + 1]))
    && (forall c :: 0 <= c < |clusters| ==> IsSlice(s, bounds, c, clusters[c]))
  }

  ghost predicate IsSlice(s: seq<LaneItem>, bounds: seq<nat>, c: nat, cluster: seq<LaneItem>)
    requires c + 1 < |bounds|
  {
    bounds[c] <= bounds[c + 1] <= |s| && cluster == s[bounds[c]..bounds[c + 1]]
  }

  /** The blocks of the clusters, one cluster after another. */
  function Flat(clusters: seq<seq<LaneItem>>): seq<LaneItem> {
    if clusters == [] then [] else Flat(clusters[..|clusters| - 1]) + clusters[|clusters| - 1]
  }

  lemma CuttingBefore(s: seq<LaneItem>, clusters: seq<seq<LaneItem>>, bounds: seq<nat>, lo: nat)
    requires Cutting(s, clusters, bounds, lo) && clusters != []
    ensures var n := |clusters| - 1; bounds[n] <= |s| && Cutting(s, clusters[..n], bounds[..n + 1], bounds[n])
  {
    var n := |clusters| - 1;
    assert Segment(s, bounds[n], bounds[n + 1]);
    forall c | 0 <= c < n
      ensures Segment(s, bounds[..n + 1][c], bounds[..n + 1][c + 1]) && IsSlice(s, bounds[..n + 1], c, clusters[..n][c])
    {
      assert Segment(s, bounds[c], bounds[c + 1]) && IsSlice(s, bounds, c, clusters[c]);
    }
  }

  lemma {:induction false} FlatIsDay(s: seq<LaneItem>, clusters: seq<seq<LaneItem>>, bounds: seq<nat>, lo: nat)
    requires lo <= |s| && Cutting(s, clusters, bounds, lo)
    ensures Flat(clusters) == s[..lo]
  {
    if clusters == [] {
    } else {
      var n := |clusters| - 1;
      assert IsSlice(s, bounds, n, clusters[n]);
      CuttingBefore(s, clusters, bounds, lo);
      FlatIsDay(s, clusters[..n], bounds[..n + 1], bounds[n]);
      assert s[..bounds[n]] + s[bounds[n]..lo] == s[..lo];
    }
  }

  method SplitClusters(s: seq<LaneItem>) returns (clusters: seq<seq<LaneItem>>, ghost bounds: seq<nat>)
    requires Proper(s) && ByStart(s)
    ensures Cutting(s, clusters, bounds, |s|)
    ensures Flat(clusters) == s
  {
    clusters, bounds := [], [0];
    var current: seq<LaneItem> := [];
    var clusterEnd := -1;
    ghost var lo: nat := 0;
    for k := 0 to |s|
      invariant lo <= k && (lo == k ==> k == 0)
      invariant current == s[lo..k]
      invariant Cutting(s, clusters, bounds, lo)
      invariant Held(s, lo, k)
      invariant CutAt(s, lo)
      invariant EndsAt(s, lo, k, clusterEnd)
    {
      var item := s[k];
      if |current| > 0 && item.start >= clusterEnd {
        CutHere(s, lo, k, clusterEnd);
        CloseCluster(s, clusters, bounds, lo, k);
        clusters, bounds := clusters + [current], bounds + [k];
        current, clusterEnd, lo := [], -1, k;
      }
      ExtendCluster(s, lo, k, clusterEnd);
      current := current + [item];
      clusterEnd := if clusterEnd >= item.end then clusterEnd else item.end;
    }
    if |current| > 0 {
      CloseCluster(s, clusters, bounds, lo, |s|);
      clusters, bounds := clusters + [current], bounds + [|s|];
    }
    FlatIsDay(s, clusters, bounds, |s|);
  }

  /** `end` is the latest end among the blocks from `lo` to `k`. */
  ghost predicate EndsAt(s: seq<LaneItem>, lo: nat, k: nat, end: int)
    requires lo <= k <= |s|
  {
    && (forall i :: lo <= i < k ==> s[i].end <= end)
    && (lo < k ==> exists i :: lo <= i < k && s[i].end == end)
    && (lo == k ==> end == -1)
  }

  lemma CloseCluster(s: seq<LaneItem>, clusters: seq<seq<LaneItem>>, bounds: seq<nat>, lo: nat, k: nat)
    requires Cutting(s, clusters, bounds, lo) && Segment(s, lo, k)
    ensures Cutting(s, clusters + [s[lo..k]], bounds + [k], k)
  {
    var clusters', bounds' := clusters + [s[lo..k]], bounds + [k];
    forall c | 0 <= c < |clusters'|
      ensures Segment(s, bounds'[c], bounds'[c + 1]) && IsSlice(s, bounds', c, clusters'[c])
    {
      if c < |clusters| {
        assert IsSlice(s, bounds, c, clusters[c]);
      }
    }
  }

  lemma ExtendCluster(s: seq<LaneItem>, lo: nat, k: nat, end: int)
    requires Proper(s) && lo <= k < |s| && Held(s, lo, k) && EndsAt(s, lo, k, end)
    requires lo == k || s[k].start < end
    ensures Held(s, lo, k + 1)
    ensures EndsAt(s, lo, k + 1, if end >= s[k].end then end else s[k].end)
  {
    if lo < k {
      var j :| lo <= j < k && s[j].end == end;
      assert JoinedAt(s, lo, k);
    }
  }

  lemma CutHere(s: seq<LaneItem>, lo: nat, k: nat, end: int)
    requires Proper(s) && ByStart(s) && lo < k < |s|
    requires CutAt(s, lo) && EndsAt(s, lo, k, end) && s[k].start >= end
    ensures CutAt(s, k)
  {
    forall i, j | 0 <= i < k <= j < |s| ensures s[i].end <= s[j].start {
      assert s[k].start <= s[j].start;
      if i < lo {
        assert s[i].end <= s[j].start;
      }
    }
  }

  // ----- From clusters to components -----

  /** The blocks from `lo` to `hi`. */
  ghost predicate IsRange(S: set<nat>, lo: nat, hi: nat) {
    forall j :: j in S <==> lo <= j < hi
  }

  lemma RangeExists(s: seq<LaneItem>, lo: nat, hi: nat) returns (S: set<nat>)
    requires hi <= |s|
    ensures IsRange(S, lo, hi)
  {
    if lo < hi {
      S := RangeExists(s, lo, hi - 1);
      S := S + {hi - 1};
    } else {
      S := {};
    }
  }

  /** Overlaps lead from any block of a cluster back to its first block, and from the first to any. */
  lemma {:induction false} ReachFirst(s: seq<LaneItem>, lo: nat, hi: nat, i: nat, S: set<nat>)
    requires Proper(s) && ByStart(s) && Held(s, lo, hi) && lo <= i < hi && Closed(s, S)
    ensures i in S <==> lo in S
    decreases i
  {
    if i > lo {
      assert JoinedAt(s, lo, i);
      var j: nat :| lo <= j < i && s[i].start < s[j].end;
      assert Overlap(s[i], s[j]) && Overlap(s[j], s[i]);
      ReachFirst(s, lo, hi, j, S);
    }
  }

  /** A cluster is exactly one connected component of the overlap graph. */
  lemma ClusterIsComponent(s: seq<LaneItem>, lo: nat, hi: nat, i: nat)
    requires Proper(s) && ByStart(s) && Segment(s, lo, hi) && CutAt(s, hi) && lo <= i < hi
    ensures IsRange(Component(s, i), lo, hi)
  {
    var R := RangeExists(s, lo, hi);
    assert Closed(s, R);
    forall j: nat | j < |s| ensures j in R <==> Connected(s, i, j) {
      if lo <= j < hi {
        forall S: set<nat> | i in S && Closed(s, S) ensures j in S {
          ReachFirst(s, lo, hi, i, S);
          ReachFirst(s, lo, hi, j, S);
        }
      }
    }
  }

  /** Blocks under way at one minute overlap pairwise, so they need a lane each. */
  lemma {:induction false} LaneEach(s: seq<LaneItem>, lane: seq<nat>, U: set<nat>, minute: int, count: nat)
    requires |lane| == |s| && NoCollision(s, lane)
    requires forall j :: j in U ==> j < |s| && Covers(s[j], minute) && lane[j] < count
    ensures |U| <= count
  {
    if count == 0 {
      assert U == {};
    } else if exists j :: j in U && lane[j] == count - 1 {
      var j :| j in U && lane[j] == count - 1;
      forall i | i in U - {j} ensures lane[i] < count - 1 {
        assert Overlap(s[i], s[j]) && Overlap(s[j], s[i]);
      }
      LaneEach(s, lane, U - {j}, minute, count - 1);
    } else {
      LaneEach(s, lane, U, minute, count - 1);
    }
  }

  // ----- The whole day -----

  /** One cluster laid out: every block in a lane of its own, and a minute at which every lane is in use. */
  ghost predicate ClusterLaid(c: seq<LaneItem>, o: seq<LaneAssignment>, count: nat) {
    && |o| == |c|
    && (forall i :: 0 <= i < |c| ==> o[i].id == c[i].id && o[i].lane < count && o[i].laneCount == count)
    && NoCollision(c, Lanes(o)) && Leftmost(c, Lanes(o))
    && (exists busy, minute :: |busy| == count && AllRunning(c, busy, minute))
  }

  ghost predicate Laid(c: seq<LaneItem>, o: seq<LaneAssignment>) {
    exists count: nat :: ClusterLaid(c, o, count)
  }

  method LayCluster(c: seq<LaneItem>) returns (o: seq<LaneAssignment>)
    requires Proper(c) && ByStart(c)
    ensures Laid(c, o)
  {
    var lanes, laneCount, peak, busy := FirstFit(c);
    o := [];
    for k := 0 to |c|
      invariant |o| == k
      invariant forall i :: 0 <= i < k ==> o[i] == LaneAssignment(c[i].id, lanes[i], laneCount)
    {
      o := o + [LaneAssignment(c[k].id, lanes[k], laneCount)];
    }
    assert Lanes(o) == lanes;
    assert ClusterLaid(c, o, laneCount);
  }

  ghost predicate SegmentLaid(s: seq<LaneItem>, out: seq<LaneAssignment>, lo: nat, hi: nat) {
    lo <= hi <= |s| && hi <= |out| && Laid(s[lo..hi], out[lo..hi])
  }

  /** The first `k` clusters are laid out. */
  ghost predicate LaidUpTo(s: seq<LaneItem>, out: seq<LaneAssignment>, bounds: seq<nat>, k: nat) {
    k < |bounds| && forall c :: 0 <= c < k ==> SegmentLaid(s, out, bounds[c], bounds[c + 1])
  }

  method AssignLanes(items: seq<LaneItem>) returns (out: seq<LaneAssignment>)
    requires Proper(items)
    ensures Layout(Sorting.Sort(Before, items), out)
  {
    var sorted := Sorting.Sort(Before, items);
    SortedDay(items);
    var clusters, bounds := SplitClusters(sorted);
    out := [];
    for k := 0 to |clusters|
      invariant |out| == bounds[k]
      invariant LaidUpTo(sorted, out, bounds, k)
    {
      CutOut(sorted, clusters, bounds, k);
      var o := LayCluster(clusters[k]);
      Appended(sorted, out, o, bounds, k);
      out := out + o;
    }
    LaidOut(sorted, out, clusters, bounds);
  }

  lemma CutOut(s: seq<LaneItem>, clusters: seq<seq<LaneItem>>, bounds: seq<nat>, k: nat)
    requires Proper(s) && ByStart(s) && Cutting(s, clusters, bounds, |s|) && k < |clusters|
    ensures Proper(clusters[k]) && ByStart(clusters[k])
    ensures bounds[k] <= bounds[k + 1] <= |s| && clusters[k] == s[bounds[k]..bounds[k + 1]]
  {
    assert Segment(s, bounds[k], bounds[k + 1]) && IsSlice(s, bounds, k, clusters[k]);
  }

  lemma SortedDay(items: seq<LaneItem>)
    requires Proper(items)
    ensures var s := Sorting.Sort(Before, items); Proper(s) && ByStart(s)
  {
    var s := Sorting.Sort(Before, items);
    Sorting.SortSorted(Before, items);
    Sorting.SortMembers(Before, items);
    forall i | 0 <= i < |s| ensures 0 <= s[i].start < s[i].end {
      assert s[i] in items;
    }
  }

  lemma Appended(s: seq<LaneItem>, out: seq<LaneAssignment>, o: seq<LaneAssignment>, bounds: seq<nat>, k: nat)
    requires k + 1 < |bounds| && |out| == bounds[k] <= bounds[k + 1] <= |s|
    requires LaidUpTo(s, out, bounds, k)
    requires Laid(s[bounds[k]..bounds[k + 1]], o)
    ensures |out + o| == bounds[k + 1]
    ensures LaidUpTo(s, out + o, bounds, k + 1)
  {
    assert (out + o)[bounds[k]..bounds[k + 1]] == o;
    forall c | 0 <= c < k ensures SegmentLaid(s, out + o, bounds[c], bounds[c + 1]) {
      assert SegmentLaid(s, out, bounds[c], bounds[c + 1]);
      assert (out + o)[bounds[c]..bounds[c + 1]] == out[bounds[c]..bounds[c + 1]];
    }
  }

  /** What a laid-out cluster says about the day's own indices. */
  ghost predicate SegmentFacts(s: seq<LaneItem>, out: seq<LaneAssignment>, lo: nat, hi: nat, count: nat)
    requires lo <= hi <= |s| == |out|
  {
    && (forall i :: lo <= i < hi ==> out[i].id == s[i].id && out[i].lane < out[i].laneCount == count)
    && (forall i, j :: lo <= i < j < hi && Overlap(s[i], s[j]) ==> out[i].lane != out[j].lane)
    && (forall i: nat, l: nat :: lo <= i < hi && l < Lanes(out)[i] ==> Taken(s, Lanes(out), i, l))
    && (exists busy, minute :: |busy| == count && AllRunning(s, busy, minute) && forall b :: b in busy ==> lo <= b < hi)
  }

  lemma SegmentFactsHold(s: seq<LaneItem>, out: seq<LaneAssignment>, lo: nat, hi: nat)
    requires |s| == |out| && SegmentLaid(s, out, lo, hi)
    ensures exists count: nat :: SegmentFacts(s, out, lo, hi, count)
  {
    var c, o := s[lo..hi], out[lo..hi];
    var count: nat :| ClusterLaid(c, o, count);
    forall i | lo <= i < hi ensures out[i].id == s[i].id && out[i].lane < out[i].laneCount == count {
      assert s[i] == c[i - lo] && out[i] == o[i - lo];
    }
    forall i, j | lo <= i < j < hi && Overlap(s[i], s[j]) ensures out[i].lane != out[j].lane {
      assert s[i] == c[i - lo] && s[j] == c[j - lo];
      assert Lanes(o)[i - lo] != Lanes(o)[j - lo];
    }
    forall i: nat, l: nat | lo <= i < hi && l < Lanes(out)[i] ensures Taken(s, Lanes(out), i, l) {
      assert Lanes(o)[i - lo] == Lanes(out)[i];
      assert Taken(c, Lanes(o), i - lo, l);
      TakenShifted(s, out, lo, hi, i, l);
    }
    RunningShifted(s, lo, hi, count);
    assert SegmentFacts(s, out, lo, hi, count);
  }

  lemma TakenShifted(s: seq<LaneItem>, out: seq<LaneAssignment>, lo: nat, hi: nat, i: nat, l: nat)
    requires lo <= i < hi <= |s| == |out| && Taken(s[lo..hi], Lanes(out[lo..hi]), i - lo, l)
    ensures Taken(s, Lanes(out), i, l)
  {
    var c, o := s[lo..hi], out[lo..hi];
    var j :| 0 <= j < i - lo && Lanes(o)[j] == l && Overlap(c[j], c[i - lo]);
    assert Lanes(out)[j + lo] == l && Overlap(s[j + lo], s[i]);
  }

  lemma RunningShifted(s: seq<LaneItem>, lo: nat, hi: nat, count: nat)
    requires lo <= hi <= |s|
    requires exists busy, minute :: |busy| == count && AllRunning(s[lo..hi], busy, minute)
    ensures exists busy, minute :: |busy| == count && AllRunning(s, busy, minute) && forall b :: b in busy ==> lo <= b < hi
  {
    var busy, minute :| |busy| == count && AllRunning(s[lo..hi], busy, minute);
    var busy' := seq(count, k requires 0 <= k < count => busy[k] + lo);
    assert AllRunning(s, busy', minute);
  }

  lemma SegmentPeak(s: seq<LaneItem>, out: seq<LaneAssignment>, lo: nat, hi: nat, count: nat, S: set<nat>)
    requires IsRange(S, lo, hi) && Proper(s) && lo <= hi <= |s| == |out| && SegmentFacts(s, out, lo, hi, count) && NoCollision(s, Lanes(out))
    ensures PeakConcurrency(s, S, count)
  {
    forall minute ensures |UnderWay(s, S, minute)| <= count {
      LaneEach(s, Lanes(out), UnderWay(s, S, minute), minute, count);
    }
    var busy, minute :| |busy| == count && AllRunning(s, busy, minute) && forall b :: b in busy ==> lo <= b < hi;
    forall k | 0 <= k < |busy| ensures busy[k] in UnderWay(s, S, minute) {
      assert busy[k] in busy;
    }
    ManyIndices(busy, UnderWay(s, S, minute));
    assert |UnderWay(s, S, minute)| == count;
  }

  lemma {:induction false} SegmentOf(bounds: seq<nat>, i: nat, n: nat) returns (k: nat)
    requires n < |bounds| && bounds[0] == 0 && i < bounds[n]
    ensures k < n && bounds[k] <= i < bounds[k + 1]
  {
    if bounds[n - 1] <= i {
      k := n - 1;
    } else {
      k := SegmentOf(bounds, i, n - 1);
    }
  }

  lemma CutAtEnd(s: seq<LaneItem>, clusters: seq<seq<LaneItem>>, bounds: seq<nat>, k: nat)
    requires Cutting(s, clusters, bounds, |s|) && k < |clusters|
    ensures Segment(s, bounds[k], bounds[k + 1]) && CutAt(s, bounds[k + 1])
  {
    if k + 1 < |clusters| {
      assert Segment(s, bounds[k + 1], bounds[k + 2]);
    }
  }

  lemma LaidOut(s: seq<LaneItem>, out: seq<LaneAssignment>, clusters: seq<seq<LaneItem>>, bounds: seq<nat>)
    requires Proper(s) && ByStart(s) && Cutting(s, clusters, bounds, |s|) && |out| == |s|
    requires LaidUpTo(s, out, bounds, |clusters|)
    ensures Layout(s, out)
  {
    forall i, j | 0 <= i < j < |s| && Overlap(s[i], s[j]) ensures out[i].lane != out[j].lane {
      var k := SegmentOf(bounds, i, |clusters|);
      CutAtEnd(s, clusters, bounds, k);
      SegmentFactsHold(s, out, bounds[k], bounds[k + 1]);
    }
    assert NoCollision(s, Lanes(out));
    forall i: nat, l: nat | i < |s| && l < Lanes(out)[i] ensures Taken(s, Lanes(out), i, l) {
      var k := SegmentOf(bounds, i, |clusters|);
      SegmentFactsHold(s, out, bounds[k], bounds[k + 1]);
    }
    forall i | 0 <= i < |s|
      ensures out[i].id == s[i].id && out[i].lane < out[i].laneCount
      ensures PeakConcurrency(s, Component(s, i), out[i].laneCount)
    {
      var k := SegmentOf(bounds, i, |clusters|);
      CutAtEnd(s, clusters, bounds, k);
      SegmentFactsHold(s, out, bounds[k], bounds[k + 1]);
      var count: nat :| SegmentFacts(s, out, bounds[k], bounds[k + 1], count);
      ClusterIsComponent(s, bounds[k], bounds[k + 1], i);
      SegmentPeak(s, out, bounds[k], bounds[k + 1], count, Component(s, i));
    }
  }

  // ----- The layout is the best possible -----

  /** Every input block appears exactly once. */
  lemma EveryBlockOnce(items: seq<LaneItem>, out: seq<LaneAssignment>)
    requires Layout(Sorting.Sort(Before, items), out)
    ensures multiset(Sorting.Map((o: LaneAssignment) => o.id, out)) == multiset(Sorting.Map((a: LaneItem) => a.id, items))
  {
    Sorting.SortMapped(Before, (a: LaneItem) => a.id, items);
    assert Sorting.Map((o: LaneAssignment) => o.id, out) == Sorting.Map((a: LaneItem) => a.id, Sorting.Sort(Before, items));
  }

  /** Blocks are taken by start, and those that start together by end. */
  lemma BlockOrder(items: seq<LaneItem>, i: nat, j: nat)
    requires i < j < |items|
    ensures var s := Sorting.Sort(Before, items); s[i].start < s[j].start || (s[i].start == s[j].start && s[i].end <= s[j].end)
  {
    Sorting.SortSorted(Before, items);
    assert Before(Sorting.Sort(Before, items)[i], Sorting.Sort(Before, items)[j]);
  }

  /** Blocks of one interval are taken in the order given. */
  lemma AlikeInOrder(items: seq<LaneItem>, start: int, end: int)
    ensures Sorting.Filter(Lasting(start, end), Sorting.Sort(Before, items)) == Sorting.Filter(Lasting(start, end), items)
  {
    Sorting.SortStable(Before, Lasting(start, end), items);
  }

  function Lasting(start: int, end: int): LaneItem -> bool {
    (a: LaneItem) => a.start == start && a.end == end
  }

  /** Of two blocks that start together the shorter one is further left. */
  lemma ShorterFurtherLeft(items: seq<LaneItem>, out: seq<LaneAssignment>, i: nat, j: nat)
    requires Proper(items) && Layout(Sorting.Sort(Before, items), out) && i < |out| && j < |out|
    requires var s := Sorting.Sort(Before, items); s[i].start == s[j].start && s[i].end < s[j].end
    ensures out[i].lane < out[j].lane
  {
    SortedDay(items);
    if j < i {
      BlockOrder(items, j, i);
    }
    EarlierFurtherLeft(Sorting.Sort(Before, items), Lanes(out), i, j);
  }

  lemma EarlierFurtherLeft(s: seq<LaneItem>, lane: seq<nat>, i: nat, j: nat)
    requires |lane| == |s| && Proper(s) && ByStart(s) && NoCollision(s, lane) && Leftmost(s, lane)
    requires i < j < |s| && s[i].start == s[j].start
    ensures lane[i] < lane[j]
  {
    assert Overlap(s[i], s[j]) && lane[i] != lane[j];
    if lane[j] < lane[i] {
      assert Taken(s, lane, i, lane[j]);
      var k :| 0 <= k < i && lane[k] == lane[j] && Overlap(s[k], s[i]);
      assert Overlap(s[k], s[j]);
      assert false;
    }
  }

  /** No collision-free assignment gets by with fewer lanes on the component of block `i`. */
  lemma FewestLanes(s: seq<LaneItem>, out: seq<LaneAssignment>, i: nat, lane: seq<nat>, lanes: nat)
    requires Layout(s, out) && i < |s|
    requires |lane| == |s| && NoCollision(s, lane)
    requires forall j :: j in Component(s, i) ==> lane[j] < lanes
    ensures out[i].laneCount <= lanes
  {
    var minute :| |UnderWay(s, Component(s, i), minute)| == out[i].laneCount;
    LaneEach(s, lane, UnderWay(s, Component(s, i), minute), minute, lanes);
  }
}
