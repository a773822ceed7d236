/**
 * The LAP (linear assignment problem) particle tracker, after Jaqaman et al.,
 * "Robust single-particle tracking in live-cell time-lapse sequences",
 * Nature Methods 2008. Step 1 links spots of consecutive frames into track
 * segments; step 2 solves a second assignment problem over the segments,
 * whose result the tracker then does not apply.
 */
module LAPTracking {
  import opened Wrappers
  import opened Spots
  import opened Graph
  import opened TimeSortedSet
  import opened TrackSegments

  /** The tracker's thresholds. They are handed to the cost-matrix creators only. */
  datatype Settings = Settings(
    minSegmentLength: int,
    maxDistObjects: real,
    maxDistSegments: real,
    altLinkingCostFactor: real,
    gapClosingTimeWindow: int,
    minIntensityRatio: real,
    maxIntensityRatio: real,
    cutoffPercentile: real)

  const DEFAULT_SETTINGS: Settings := Settings(3, 15.0, 15.0, 1.05, 4, 0.5, 4.0, 0.9)

  const BASE_ERROR_MESSAGE: string := "LAPTracker: "

  /** A dense cost matrix; the costs themselves are only read by the solver. */
  type Matrix = seq<seq<real>>

  /**
   * The linking cost-matrix creator for two frames: None when its
   * checkInput() or process() fails.
   */
  type LinkingCostCreator = (seq<Spot>, seq<Spot>, Settings) -> Option<Matrix>

  /** What the segment cost-matrix creator yields besides its matrix. */
  datatype SegmentCosts = SegmentCosts(matrix: Matrix, splittingMiddlePoints: seq<Spot>, mergingMiddlePoints: seq<Spot>)

  /**
   * The segment cost-matrix creator, handed the segments (None when there
   * are none yet): the matrix and middle points, or its error message.
   */
  type SegmentCostCreator = (Option<seq<seq<Spot>>>, Settings) -> Result<SegmentCosts>

  /** The assignment solver: a list of (row, column) pairs. */
  type Solver = Matrix -> seq<(nat, nat)>

  /** The solver's contract: indices within the matrix, each row and each column used at most once. */
  ghost predicate IsAssignment(m: Matrix, sol: seq<(nat, nat)>) {
    && (forall k :: 0 <= k < |sol| ==> sol[k].0 < |m| && sol[k].1 < |m[sol[k].0]|)
    && (forall k, l :: 0 <= k < l < |sol| ==> sol[k].0 != sol[l].0 && sol[k].1 != sol[l].1)
  }

  /** A solver that keeps that contract on every matrix, as the Hungarian algorithm does. */
  ghost predicate AssignmentSolver(solve: Solver) {
    forall m :: IsAssignment(m, solve(m))
  }

  // ---------------------------------------------------------------------------
  // Step 1, cost matrices: one per pair of consecutive present frame keys.

  /** The creator's answer for the pair of the k-th and (k+1)-th present frames. */
  function PairCost(t: SpotTable, create: LinkingCostCreator, settings: Settings, k: nat): Option<Matrix>
    requires k + 1 < |t|
  {
    create(t[k].spots, t[k + 1].spots, settings)
  }

  /** The first n frame pairs all got a matrix. */
  predicate PairsCreated(t: SpotTable, create: LinkingCostCreator, settings: Settings, n: nat)
    requires n < |t|
  {
    forall k :: 0 <= k < n ==> PairCost(t, create, settings, k).Some?
  }

  /** The linking matrices of the first n frame pairs, each keyed by the earlier frame's key. */
  function CostsOfPairs(t: SpotTable, create: LinkingCostCreator, settings: Settings, n: nat): map<int, Matrix>
    requires n < |t| && PairsCreated(t, create, settings, n)
  {
    if n == 0 then map[]
    else CostsOfPairs(t, create, settings, n - 1)[t[n - 1].key := PairCost(t, create, settings, n - 1).value]
  }

  /**
   * How many frame pairs, counted from the first, get a matrix before the
   * creator first fails (all |t|-1 pairs when it never does).
   */
  function CreatedPairs(t: SpotTable, create: LinkingCostCreator, settings: Settings, from: nat): (n: nat)
    requires from < |t| && PairsCreated(t, create, settings, from)
    ensures from <= n < |t| && PairsCreated(t, create, settings, n)
    ensures n + 1 < |t| ==> PairCost(t, create, settings, n).None?
    decreases |t| - from
  {
    if from + 1 == |t| || PairCost(t, create, settings, from).None? then from
    else CreatedPairs(t, create, settings, from + 1)
  }

  /** When every pair got its matrix, every frame but the last has one. */
  lemma CreatedCostsCover(t: SpotTable, create: LinkingCostCreator, settings: Settings)
    requires KeysAscending(t) && |t| > 0 && PairsCreated(t, create, settings, |t| - 1)
    ensures CostsCover(t, CostsOfPairs(t, create, settings, |t| - 1))
  {
    CostsOfPairsKeyed(t, create, settings, |t| - 1);
  }

  /** The count stops at the first pair without a matrix, or at the last pair. */
  lemma {:induction false} CreatedPairsStop(t: SpotTable, create: LinkingCostCreator, settings: Settings, from: nat, n: nat)
    requires from <= n < |t| && PairsCreated(t, create, settings, n)
    requires n + 1 == |t| || PairCost(t, create, settings, n).None?
    ensures CreatedPairs(t, create, settings, from) == n
    decreases n - from
  {
    if from < n {
      assert PairCost(t, create, settings, from).Some?;
      CreatedPairsStop(t, create, settings, from + 1, n);
    }
  }

  /** The keys of the first n present frames. */
  function EarlierKeys(t: SpotTable, n: nat): set<int>
    requires n <= |t|
  {
    if n == 0 then {} else EarlierKeys(t, n - 1) + {t[n - 1].key}
  }

  lemma {:induction false} EarlierKeysBelow(t: SpotTable, n: nat, j: nat)
    requires KeysAscending(t) && n <= j < |t|
    ensures forall x :: x in EarlierKeys(t, n) ==> x < t[j].key
  {
    if n > 0 {
      EarlierKeysBelow(t, n - 1, j);
    }
  }

  lemma {:induction false} EarlierKeysContain(t: SpotTable, n: nat, k: nat)
    requires k < n <= |t|
    ensures t[k].key in EarlierKeys(t, n)
  {
    if k < n - 1 {
      EarlierKeysContain(t, n - 1, k);
    }
  }

  /**
   * With ascending keys, the first n pairs give exactly n matrices: the
   * matrix of pair k sits at the key of frame k, whatever the gap between
   * the keys of frames k and k+1.
   */
  lemma {:induction false} CostsOfPairsKeyed(t: SpotTable, create: LinkingCostCreator, settings: Settings, n: nat)
    requires KeysAscending(t) && n < |t| && PairsCreated(t, create, settings, n)
    ensures CostsOfPairs(t, create, settings, n).Keys == EarlierKeys(t, n)
    ensures |CostsOfPairs(t, create, settings, n)| == n
    ensures forall k :: 0 <= k < n ==> t[k].key in CostsOfPairs(t, create, settings, n)
    ensures forall k :: 0 <= k < n ==> CostsOfPairs(t, create, settings, n)[t[k].key] == PairCost(t, create, settings, k).value
  {
    if n > 0 {
      CostsOfPairsKeyed(t, create, settings, n - 1);
      var prev := CostsOfPairs(t, create, settings, n - 1);
      var key, m := t[n - 1].key, PairCost(t, create, settings, n - 1).value;
      assert key !in prev.Keys by {
        EarlierKeysBelow(t, n - 1, n - 1);
      }
      var cur := prev[key := m];
      assert cur == CostsOfPairs(t, create, settings, n);
      assert cur.Keys == prev.Keys + {key};
      assert |cur| == |prev| + 1;
      forall k | 0 <= k < n
        ensures t[k].key in cur && cur[t[k].key] == PairCost(t, create, settings, k).value
      {
        EarlierKeysContain(t, n, k);
        if k < n - 1 {
          assert t[k].key < key;
        }
      }
    }
  }

  // ---------------------------------------------------------------------------
  // Step 1, links: solution pairs in the upper-left quadrant become graph edges.

  /** The pair lies in the link block: a spot of the earlier frame and one of the later. */
  predicate InLinkQuadrant(n0: nat, n1: nat, p: (nat, nat)) {
    p.0 < n0 && p.1 < n1
  }

  /** The edge one solution pair adds: none outside the link block. */
  function QuadrantLink(t0: seq<Spot>, t1: seq<Spot>, p: (nat, nat)): Edges {
    if InLinkQuadrant(|t0|, |t1|, p) then {{t0[p.0], t1[p.1]}} else {}
  }

  /** The edges added for one frame pair, solution by solution. */
  function PairEdges(t0: seq<Spot>, t1: seq<Spot>, sol: seq<(nat, nat)>): Edges
    decreases |sol|
  {
    if sol == [] then {} else PairEdges(t0, t1, sol[..|sol| - 1]) + QuadrantLink(t0, t1, sol[|sol| - 1])
  }

  /** An edge is added for a frame pair exactly when a solution pair in the link block names its two spots. */
  lemma {:induction false} PairEdgesExactly(t0: seq<Spot>, t1: seq<Spot>, sol: seq<(nat, nat)>, l: set<Spot>)
    ensures l in PairEdges(t0, t1, sol) <==>
      exists i :: 0 <= i < |sol| && InLinkQuadrant(|t0|, |t1|, sol[i]) && l == {t0[sol[i].0], t1[sol[i].1]}
    decreases |sol|
  {
    if sol != [] {
      var n := |sol| - 1;
      PairEdgesExactly(t0, t1, sol[..n], l);
      if l in PairEdges(t0, t1, sol) && l !in QuadrantLink(t0, t1, sol[n]) {
        var i :| 0 <= i < n && InLinkQuadrant(|t0|, |t1|, sol[..n][i]) && l == {t0[sol[..n][i].0], t1[sol[..n][i].1]};
        assert sol[i] == sol[..n][i];
      }
      if exists i :: 0 <= i < |sol| && InLinkQuadrant(|t0|, |t1|, sol[i]) && l == {t0[sol[i].0], t1[sol[i].1]} {
        var i :| 0 <= i < |sol| && InLinkQuadrant(|t0|, |t1|, sol[i]) && l == {t0[sol[i].0], t1[sol[i].1]};
        if i < n {
          assert sol[..n][i] == sol[i];
        }
      }
    }
  }

  lemma RowUsedOnce(m: Matrix, sol: seq<(nat, nat)>, i: nat, j: nat)
    requires IsAssignment(m, sol) && i < |sol| && j < |sol| && sol[i].0 == sol[j].0
    ensures i == j
  {
  }

  lemma ColumnUsedOnce(m: Matrix, sol: seq<(nat, nat)>, i: nat, j: nat)
    requires IsAssignment(m, sol) && i < |sol| && j < |sol| && sol[i].1 == sol[j].1
    ensures i == j
  {
  }

  /**
   * When the solution is an assignment and the two frames list distinct
   * spots, every spot of the earlier frame is linked to at most one spot of
   * the later frame, and every spot of the later frame to at most one of the
   * earlier.
   */
  lemma PairEdgesOneToOne(t0: seq<Spot>, t1: seq<Spot>, m: Matrix, sol: seq<(nat, nat)>)
    requires NoDuplicates(t0) && NoDuplicates(t1) && Elems(t0) !! Elems(t1)
    requires IsAssignment(m, sol)
    ensures forall a, b, c ::
      (a in Elems(t0) && b in Elems(t1) && c in Elems(t1) &&
       {a, b} in PairEdges(t0, t1, sol) && {a, c} in PairEdges(t0, t1, sol)) ==> b == c
    ensures forall a, b, c ::
      (a in Elems(t1) && b in Elems(t0) && c in Elems(t0) &&
       {b, a} in PairEdges(t0, t1, sol) && {c, a} in PairEdges(t0, t1, sol)) ==> b == c
  {
    forall a, b, c | a in Elems(t0) && b in Elems(t1) && c in Elems(t1) &&
      {a, b} in PairEdges(t0, t1, sol) && {a, c} in PairEdges(t0, t1, sol)
      ensures b == c
    {
      PairEdgesExactly(t0, t1, sol, {a, b});
      PairEdgesExactly(t0, t1, sol, {a, c});
      var i :| 0 <= i < |sol| && InLinkQuadrant(|t0|, |t1|, sol[i]) && {a, b} == {t0[sol[i].0], t1[sol[i].1]};
      var j :| 0 <= j < |sol| && InLinkQuadrant(|t0|, |t1|, sol[j]) && {a, c} == {t0[sol[j].0], t1[sol[j].1]};
      assert a == t0[sol[i].0] && b == t1[sol[i].1];
      assert a == t0[sol[j].0] && c == t1[sol[j].1];
      assert sol[i].0 == sol[j].0;
      RowUsedOnce(m, sol, i, j);
    }
    forall a, b, c | a in Elems(t1) && b in Elems(t0) && c in Elems(t0) &&
      {b, a} in PairEdges(t0, t1, sol) && {c, a} in PairEdges(t0, t1, sol)
      ensures b == c
    {
      PairEdgesExactly(t0, t1, sol, {b, a});
      PairEdgesExactly(t0, t1, sol, {c, a});
      var i :| 0 <= i < |sol| && InLinkQuadrant(|t0|, |t1|, sol[i]) && {b, a} == {t0[sol[i].0], t1[sol[i].1]};
      var j :| 0 <= j < |sol| && InLinkQuadrant(|t0|, |t1|, sol[j]) && {c, a} == {t0[sol[j].0], t1[sol[j].1]};
      assert b == t0[sol[i].0] && a == t1[sol[i].1];
      assert c == t0[sol[j].0] && a == t1[sol[j].1];
      assert sol[i].1 == sol[j].1;
      ColumnUsedOnce(m, sol, i, j);
    }
  }

  /** Every present frame but the last has its linking matrix. */
  predicate CostsCover(t: SpotTable, costs: map<int, Matrix>) {
    forall k :: 0 <= k < |t| - 1 ==> t[k].key in costs
  }

  /** The edges step 1 adds for the first n frame pairs. */
  function StepOneEdges(t: SpotTable, costs: map<int, Matrix>, solve: Solver, n: nat): Edges
    requires n < |t| && CostsCover(t, costs)
  {
    if n == 0 then {}
    else StepOneEdges(t, costs, solve, n - 1) + PairEdges(t[n - 1].spots, t[n].spots, solve(costs[t[n - 1].key]))
  }

  /** `l` joins a spot of the k-th present frame with a spot of the (k+1)-th. */
  ghost predicate JoinsFrames(t: SpotTable, k: nat, l: set<Spot>) {
    k + 1 < |t| && exists a, b :: a in t[k].spots && b in t[k + 1].spots && l == {a, b}
  }

  /** Every step-1 edge joins spots of two consecutive present frames. */
  lemma {:induction false} StepOneEdgesConsecutive(t: SpotTable, costs: map<int, Matrix>, solve: Solver, n: nat, l: set<Spot>)
    requires n < |t| && CostsCover(t, costs)
    requires l in StepOneEdges(t, costs, solve, n)
    ensures exists k :: 0 <= k < n && JoinsFrames(t, k, l)
  {
    var prev := StepOneEdges(t, costs, solve, n - 1);
    if l in prev {
      StepOneEdgesConsecutive(t, costs, solve, n - 1, l);
      var k :| 0 <= k < n - 1 && JoinsFrames(t, k, l);
    } else {
      var t0, t1, sol := t[n - 1].spots, t[n].spots, solve(costs[t[n - 1].key]);
      PairEdgesExactly(t0, t1, sol, l);
      var i :| 0 <= i < |sol| && InLinkQuadrant(|t0|, |t1|, sol[i]) && l == {t0[sol[i].0], t1[sol[i].1]};
      assert JoinsFrames(t, n - 1, l);
    }
  }

  /** Step-1 edges of a well-formed table are edges of the graph over its spots. */
  lemma {:induction false} StepOneEdgesSimple(t: SpotTable, costs: map<int, Matrix>, solve: Solver, n: nat)
    requires WellFormedTable(t) && n < |t| && CostsCover(t, costs)
    ensures SimpleGraph(AllSpots(t), StepOneEdges(t, costs, solve, n))
  {
    forall l | l in StepOneEdges(t, costs, solve, n)
      ensures |l| == 2 && l <= AllSpots(t)
    {
      StepOneEdgesConsecutive(t, costs, solve, n, l);
      var k :| 0 <= k < n && JoinsFrames(t, k, l);
      var a, b :| a in t[k].spots && b in t[k + 1].spots && l == {a, b};
      assert a in Elems(t[k].spots) && b in Elems(t[k + 1].spots);
      AllSpotsMembership(t, a);
      AllSpotsMembership(t, b);
    }
  }

  /** The frame pair that added a step-1 edge. */
  lemma {:induction false} StepOneEdgePair(t: SpotTable, costs: map<int, Matrix>, solve: Solver, n: nat, l: set<Spot>) returns (j: nat)
    requires n < |t| && CostsCover(t, costs) && l in StepOneEdges(t, costs, solve, n)
    ensures j < n && l in PairEdges(t[j].spots, t[j + 1].spots, solve(costs[t[j].key]))
  {
    if l in StepOneEdges(t, costs, solve, n - 1) {
      j := StepOneEdgePair(t, costs, solve, n - 1, l);
    } else {
      j := n - 1;
    }
  }

  /** A spot listed in two frames of a well-formed table is listed in one frame only. */
  lemma SameFrame(t: SpotTable, i: nat, j: nat, a: Spot)
    requires DistinctSpots(t) && i < |t| && j < |t| && a in t[i].spots && a in t[j].spots
    ensures i == j
  {
    assert a in Elems(t[i].spots) && a in Elems(t[j].spots);
  }

  /** A step-1 edge between frames k and k+1 of a well-formed table comes from the pair at k. */
  lemma EdgeOfPair(t: SpotTable, costs: map<int, Matrix>, solve: Solver, k: nat, a: Spot, b: Spot)
    requires WellFormedTable(t) && 0 < |t| && CostsCover(t, costs)
    requires k + 1 < |t| && a in t[k].spots && b in t[k + 1].spots
    requires {a, b} in StepOneEdges(t, costs, solve, |t| - 1)
    ensures {a, b} in PairEdges(t[k].spots, t[k + 1].spots, solve(costs[t[k].key]))
  {
    var j := StepOneEdgePair(t, costs, solve, |t| - 1, {a, b});
    var x, y := PairEdgeEnds(t[j].spots, t[j + 1].spots, solve(costs[t[j].key]), {a, b});
    SamePair(t, k, j, a, b, x, y);
  }

  /** Two spots of consecutive frames name their frame pair: a link cannot stand for another pair. */
  lemma SamePair(t: SpotTable, k: nat, j: nat, a: Spot, b: Spot, x: Spot, y: Spot)
    requires DistinctSpots(t) && k + 1 < |t| && j + 1 < |t|
    requires a in t[k].spots && b in t[k + 1].spots && x in t[j].spots && y in t[j + 1].spots
    requires {a, b} == {x, y}
    ensures k == j
  {
    PairSetCases(a, b, x, y);
    if a == x {
      SameFrame(t, k, j, a);
    } else {
      SameFrame(t, k, j + 1, a);
      SameFrame(t, k + 1, j, b);
    }
  }

  lemma PairSetCases(a: Spot, b: Spot, x: Spot, y: Spot)
    requires {a, b} == {x, y}
    ensures (a == x && b == y) || (a == y && b == x)
  {
    assert a in {x, y} && b in {x, y} && x in {a, b} && y in {a, b};
  }

  /** The two spots of an edge of one frame pair, one from each frame. */
  lemma PairEdgeEnds(t0: seq<Spot>, t1: seq<Spot>, sol: seq<(nat, nat)>, l: set<Spot>) returns (x: Spot, y: Spot)
    requires l in PairEdges(t0, t1, sol)
    ensures x in t0 && y in t1 && l == {x, y}
  {
    PairEdgesExactly(t0, t1, sol, l);
    var i :| 0 <= i < |sol| && InLinkQuadrant(|t0|, |t1|, sol[i]) && l == {t0[sol[i].0], t1[sol[i].1]};
    x, y := t0[sol[i].0], t1[sol[i].1];
  }

  /**
   * Every spot of a frame is linked to at most one spot of the next frame,
   * and every spot of the next frame to at most one spot of it.
   */
  ghost predicate OneToOneLinks(t: SpotTable, e: Edges) {
    && (forall k, a, b, c ::
          (0 <= k < |t| - 1 && a in t[k].spots && b in t[k + 1].spots && c in t[k + 1].spots
           && {a, b} in e && {a, c} in e) ==> b == c)
    && (forall k, a, b, c ::
          (0 <= k < |t| - 1 && a in t[k + 1].spots && b in t[k].spots && c in t[k].spots
           && {b, a} in e && {c, a} in e) ==> b == c)
  }

  /** With an assignment solver, step 1 links every spot at most once forward and at most once backward. */
  lemma StepOneEdgesOneToOne(t: SpotTable, costs: map<int, Matrix>, solve: Solver)
    requires WellFormedTable(t) && 0 < |t| && CostsCover(t, costs) && AssignmentSolver(solve)
    ensures OneToOneLinks(t, StepOneEdges(t, costs, solve, |t| - 1))
  {
    var e := StepOneEdges(t, costs, solve, |t| - 1);
    forall k, a, b, c | 0 <= k < |t| - 1 && a in t[k].spots && b in t[k + 1].spots && c in t[k + 1].spots
        && {a, b} in e && {a, c} in e
      ensures b == c
    {
      EdgeOfPair(t, costs, solve, k, a, b);
      EdgeOfPair(t, costs, solve, k, a, c);
      var m := costs[t[k].key];
      assert IsAssignment(m, solve(m));
      assert a in Elems(t[k].spots) && b in Elems(t[k + 1].spots) && c in Elems(t[k + 1].spots);
      PairEdgesOneToOne(t[k].spots, t[k + 1].spots, m, solve(m));
    }
    forall k, a, b, c | 0 <= k < |t| - 1 && a in t[k + 1].spots && b in t[k].spots && c in t[k].spots
        && {b, a} in e && {c, a} in e
      ensures b == c
    {
      EdgeOfPair(t, costs, solve, k, b, a);
      EdgeOfPair(t, costs, solve, k, c, a);
      var m := costs[t[k].key];
      assert IsAssignment(m, solve(m));
      assert a in Elems(t[k + 1].spots) && b in Elems(t[k].spots) && c in Elems(t[k].spots);
      PairEdgesOneToOne(t[k].spots, t[k + 1].spots, m, solve(m));
    }
  }

  // ---------------------------------------------------------------------------
  // Step 2, links: how compileFinalTracks reads a solution pair. The tracker
  // returns before it applies any of them.

  /** The edge one step-2 solution pair stands for. */
  datatype FinalLink =
    | GapClosing(end: Spot, start: Spot)
    | Merging(end: Spot, middle: Spot)
    | Splitting(start: Spot, mother: Spot)
    | NoLink

  /** The last spot of a segment, in time order. */
  function Last(s: seq<Spot>): Spot
    requires |s| > 0
  {
    s[|s| - 1]
  }

  /**
   * Rows index the segments and then the splitting middle points; columns
   * index the segments and then the merging middle points. A segment row
   * against a segment column closes a gap, against a merging column it
   * merges, and a splitting row against a segment column splits.
   */
  function FinalLinkOf(segs: seq<seq<Spot>>, merging: seq<Spot>, splitting: seq<Spot>, p: (nat, nat)): (r: FinalLink)
    requires forall k :: 0 <= k < |segs| ==> |segs[k]| > 0
    ensures r.GapClosing? <==> p.0 < |segs| && p.1 < |segs|
    ensures r.Merging? <==> p.0 < |segs| && |segs| <= p.1 < |segs| + |merging|
    ensures r.Splitting? <==> |segs| <= p.0 < |segs| + |splitting| && p.1 < |segs|
    ensures r.Merging? ==> r.end == Last(segs[p.0]) && r.middle == merging[p.1 - |segs|]
    ensures r.Splitting? ==> r.start == segs[p.1][0] && r.mother == splitting[p.0 - |segs|]
  {
    var i, j := p.0, p.1;
    if i < |segs| then
      if j < |segs| then GapClosing(Last(segs[i]), segs[j][0])
      else if j < |segs| + |merging| then Merging(Last(segs[i]), merging[j - |segs|])
      else NoLink
    else if i < |segs| + |splitting| then
      if j < |segs| then Splitting(segs[j][0], splitting[i - |segs|]) else NoLink
    else NoLink
  }

  /**
   * A gap closing would join the latest spot of segment i to the earliest
   * spot of segment j.
   */
  lemma GapClosingJoinsEnds(segs: seq<seq<Spot>>, merging: seq<Spot>, splitting: seq<Spot>, i: nat, j: nat)
    requires forall k :: 0 <= k < |segs| ==> |segs[k]| > 0 && TimeSorted(segs[k])
    requires i < |segs| && j < |segs|
    ensures var r := FinalLinkOf(segs, merging, splitting, (i, j));
      && r.GapClosing? && r.end in segs[i] && r.start in segs[j]
      && (forall x :: x in segs[i] ==> x.time <= r.end.time)
      && (forall x :: x in segs[j] ==> r.start.time <= x.time)
  {
    var si, sj := segs[i], segs[j];
    forall x | x in si ensures x.time <= Last(si).time {
      var k :| 0 <= k < |si| && si[k] == x;
      if k < |si| - 1 {
        assert si[k].time < si[|si| - 1].time;
      }
    }
    forall x | x in sj ensures sj[0].time <= x.time {
      var k :| 0 <= k < |sj| && sj[k] == x;
      if 0 < k {
        assert sj[0].time < sj[k].time;
      }
    }
  }

  /**
   * One pass over the spots a depth-first walk visited: each is added to a
   * time-ordered set, which keeps the first spot of every time, and is
   * removed from the pool.
   */
  method CollectSegment(visited: seq<Spot>, pool: set<Spot>) returns (segment: seq<Spot>, pool': set<Spot>)
    ensures SegmentOf(segment, Elems(visited))
    ensures pool' == pool - Elems(visited)
  {
    segment, pool' := [], pool;
    for i := 0 to |visited|
      invariant TimeSorted(segment)
      invariant Elems(segment) <= Elems(visited[..i])
      invariant Times(Elems(segment)) == Times(Elems(visited[..i]))
      invariant pool' == pool - Elems(visited[..i])
    {
      var current := visited[i];
      assert visited[..i + 1] == visited[..i] + [current];
      InsertSorted(segment, current);
      InsertTimes(segment, current);
      segment := Insert(segment, current);
      pool' := pool' - {current};
    }
    assert visited[..|visited|] == visited;
  }

  // ---------------------------------------------------------------------------
  // The tracker.

  class LAPTracker {
    /** The spots to track, frame by frame in ascending key order; set once, by the constructor. */
    const spots: SpotTable
    /** Step-1 matrices, keyed by the earlier frame of each pair; None is Java's null. */
    var linkingCosts: Option<map<int, Matrix>>
    /** The step-2 matrix. */
    var segmentCosts: Option<Matrix>
    var errorMessage: Option<string>
    var inputChecked: bool
    var splittingMiddlePoints: Option<seq<Spot>>
    var mergingMiddlePoints: Option<seq<Spot>>
    const settings: Settings
    /** The track graph: its vertex set, fixed by the constructor, and its undirected edges. */
    const vertices: set<Spot>
    var edges: Edges
    /** The segments of the last compileTrackSegments, in time order each. */
    var trackSegments: Option<seq<seq<Spot>>>
    /** The component each of those segments was drawn from. */
    ghost var components: seq<set<Spot>>

    /**
     * The graph holds every spot of the table as a vertex and only edges
     * among them; a checked tracker has at least one spot.
     */
    ghost predicate Valid()
      reads this
    {
      && WellFormedTable(spots)
      && vertices == AllSpots(spots)
      && SimpleGraph(vertices, edges)
      && (inputChecked ==> HasSpot(spots))
    }

    /** Every spot becomes a vertex of an edgeless graph. */
    constructor (table: SpotTable, linkingCosts: Option<map<int, Matrix>>, settings: Settings)
      requires WellFormedTable(table)
      ensures Valid()
      ensures spots == table && this.linkingCosts == linkingCosts && this.settings == settings
      ensures vertices == AllSpots(table) && edges == {}
      ensures !inputChecked && errorMessage == None && segmentCosts == None && trackSegments == None
      ensures splittingMiddlePoints == None && mergingMiddlePoints == None
    {
      var vs: set<Spot> := {};
      for k := 0 to |table|
        invariant vs == AllSpots(table[..k])
      {
        var frame := table[k].spots;
        for i := 0 to |frame|
          invariant vs == AllSpots(table[..k]) + Elems(frame[..i])
        {
          assert frame[..i + 1] == frame[..i] + [frame[i]];
          vs := vs + {frame[i]};
        }
        assert frame[..|frame|] == frame;
        assert table[..k + 1][..k] == table[..k];
      }
      assert table[..|table|] == table;
      spots := table;
      this.linkingCosts := linkingCosts;
      this.settings := settings;
      vertices := vs;
      edges := {};
      segmentCosts := None;
      errorMessage := None;
      inputChecked := false;
      splittingMiddlePoints := None;
      mergingMiddlePoints := None;
      trackSegments := None;
      components := [];
    }

    /**
     * The input is accepted exactly when some frame holds a spot; otherwise
     * the error message is set and the checked flag keeps its value.
     */
    method CheckInput() returns (ok: bool)
      requires Valid()
      modifies this`errorMessage, this`inputChecked
      ensures Valid()
      ensures ok <==> HasSpot(spots)
      ensures ok ==> inputChecked && errorMessage == old(errorMessage)
      ensures !ok ==> inputChecked == old(inputChecked) && errorMessage == Some(BASE_ERROR_MESSAGE + "The spot list is empty.")
    {
      if |spots| == 0 {
        errorMessage := Some(BASE_ERROR_MESSAGE + "The spot list is empty.");
        return false;
      }
      var empty := true;
      var k := 0;
      while k < |spots|
        invariant 0 <= k <= |spots|
        invariant empty ==> forall j :: 0 <= j < k ==> |spots[j].spots| == 0
        invariant !empty ==> HasSpot(spots)
      {
        if |spots[k].spots| > 0 {
          empty := false;
          break;
        }
        k := k + 1;
      }
      if empty {
        errorMessage := Some(BASE_ERROR_MESSAGE + "The spot list is empty.");
        return false;
      }
      inputChecked := true;
      return true;
    }

    /**
     * Resets the linking matrices, then asks the creator for one matrix per
     * pair of consecutive present frames, in ascending key order, and stops
     * at its first failure.
     */
    method CreateLinkingCostMatrices(create: LinkingCostCreator) returns (ok: bool)
      requires Valid() && |spots| > 0
      modifies this`linkingCosts
      ensures Valid()
      ensures ok <==> PairsCreated(spots, create, settings, |spots| - 1)
      ensures linkingCosts == Some(CostsOfPairs(spots, create, settings, CreatedPairs(spots, create, settings, 0)))
      ensures ok ==> linkingCosts == Some(CostsOfPairs(spots, create, settings, |spots| - 1))
    {
      linkingCosts := Some(map[]);
      var k := 0;
      while k + 1 < |spots|
        invariant 0 <= k < |spots|
        invariant PairsCreated(spots, create, settings, k)
        invariant linkingCosts == Some(CostsOfPairs(spots, create, settings, k))
      {
        var costMatrix := create(spots[k].spots, spots[k + 1].spots, settings);
        if costMatrix.None? {
          CreatedPairsStop(spots, create, settings, 0, k);
          return false;
        }
        linkingCosts := Some(linkingCosts.value[spots[k].key := costMatrix.value]);
        k := k + 1;
      }
      CreatedPairsStop(spots, create, settings, 0, k);
      return true;
    }

    /**
     * The solution of one frame pair: every pair in the link block, a spot
     * of the earlier frame and one of the later, becomes an edge.
     */
    method LinkFramePair(t0: seq<Spot>, t1: seq<Spot>, solutions: seq<(nat, nat)>)
      modifies this`edges
      ensures edges == old(edges) + PairEdges(t0, t1, solutions)
    {
      for i := 0 to |solutions|
        invariant edges == old(edges) + PairEdges(t0, t1, solutions[..i])
      {
        assert solutions[..i + 1][..i] == solutions[..i];
        var i0, i1 := solutions[i].0, solutions[i].1;
        if i0 < |t0| && i1 < |t1| {
          edges := edges + {{t0[i0], t1[i1]}};
        }
      }
      assert solutions[..|solutions|] == solutions;
    }

    /** The frame pairs in order of their keys, each linked from its own matrix. */
    method LinkFramePairs(t: SpotTable, costs: map<int, Matrix>, solve: Solver)
      requires |t| > 0 && CostsCover(t, costs)
      modifies this`edges
      ensures edges == old(edges) + StepOneEdges(t, costs, solve, |t| - 1)
    {
      var k := 0;
      while k + 1 < |t|
        invariant 0 <= k < |t|
        invariant edges == old(edges) + StepOneEdges(t, costs, solve, k)
      {
        LinkFramePair(t[k].spots, t[k + 1].spots, solve(costs[t[k].key]));
        k := k + 1;
      }
    }

    /**
     * For every pair of consecutive present frames, solves the assignment
     * problem of its matrix and adds an edge for every solution pair in the
     * link block; nothing else of the tracker changes.
     */
    method SolveLAPForTrackSegments(solve: Solver)
      requires Valid() && |spots| > 0 && linkingCosts.Some? && CostsCover(spots, linkingCosts.value)
      requires AssignmentSolver(solve)
      modifies this`edges
      ensures Valid() && errorMessage == old(errorMessage)
      ensures edges == old(edges) + StepOneEdges(spots, linkingCosts.value, solve, |spots| - 1)
      ensures OneToOneLinks(spots, StepOneEdges(spots, linkingCosts.value, solve, |spots| - 1))
    {
      var t, costs := spots, linkingCosts.value;
      ghost var added := StepOneEdges(t, costs, solve, |t| - 1);
      StepOneEdgesSimple(t, costs, solve, |t| - 1);
      StepOneEdgesOneToOne(t, costs, solve);
      SimpleGraphUnion(vertices, edges, added);
      LinkFramePairs(t, costs, solve);
    }

    /**
     * Splits the graph into its connected components: while spots remain in
     * the pool, the component of one of them is walked depth first, every
     * visited spot is added to a time-ordered set and leaves the pool.
     */
    method CompileTrackSegments()
      requires Valid()
      modifies this`trackSegments, this`components
      ensures Valid() && edges == old(edges) && errorMessage == old(errorMessage)
      ensures trackSegments.Some? && IsSegmentation(trackSegments.value, components, vertices, edges)
    {
      var segments: seq<seq<Spot>> := [];
      ghost var comps: seq<set<Spot>> := [];
      var spotPool := vertices;
      while spotPool != {}
        invariant spotPool <= vertices
        invariant PartialSegmentation(segments, comps, vertices, edges, spotPool)
        decreases spotPool
      {
        var source :| source in spotPool;
        var visited := DepthFirstComponent(vertices, edges, source);
        ghost var pool0 := spotPool;
        var trackSegment;
        trackSegment, spotPool := CollectSegment(visited, spotPool);
        AddComponent(segments, comps, vertices, edges, pool0, trackSegment, Elems(visited), source);
        segments := segments + [trackSegment];
        comps := comps + [Elems(visited)];
      }
      trackSegments := Some(segments);
      components := comps;
    }

    /**
     * Step 1 as a whole: fails with an error when there are no linking
     * matrices, and otherwise adds the step-1 edges and compiles the segments.
     */
    method LinkObjectsToTrackSegments(solve: Solver) returns (ok: bool)
      requires Valid()
      requires linkingCosts.Some? ==> |spots| > 0 && CostsCover(spots, linkingCosts.value)
      requires AssignmentSolver(solve)
      modifies this`errorMessage, this`edges, this`trackSegments, this`components
      ensures Valid()
      ensures ok <==> linkingCosts.Some?
      ensures !ok ==> errorMessage == Some("The linking cost matrix is null.")
      ensures !ok ==> edges == old(edges) && trackSegments == old(trackSegments)
      ensures ok ==> errorMessage == old(errorMessage)
      ensures ok ==> edges == old(edges) + StepOneEdges(spots, linkingCosts.value, solve, |spots| - 1)
      ensures ok ==> OneToOneLinks(spots, StepOneEdges(spots, linkingCosts.value, solve, |spots| - 1))
      ensures ok ==> trackSegments.Some? && IsSegmentation(trackSegments.value, components, vertices, edges)
    {
      if linkingCosts.None? {
        errorMessage := Some("The linking cost matrix is null.");
        return false;
      }
      SolveLAPForTrackSegments(solve);
      CompileTrackSegments();
      return true;
    }

    /**
     * Asks the segment creator for the step-2 matrix and the middle points;
     * on failure its message, prefixed, becomes the error message.
     */
    method CreateTrackSegmentCostMatrix(segCreate: SegmentCostCreator) returns (ok: bool)
      requires Valid()
      modifies this`errorMessage, this`segmentCosts, this`splittingMiddlePoints, this`mergingMiddlePoints
      ensures Valid()
      ensures var r := segCreate(trackSegments, settings);
        && (ok <==> r.Ok?)
        && (r.Err? ==> errorMessage == Some(BASE_ERROR_MESSAGE + r.message))
        && (r.Err? ==> segmentCosts == old(segmentCosts) && splittingMiddlePoints == old(splittingMiddlePoints)
                       && mergingMiddlePoints == old(mergingMiddlePoints))
        && (r.Ok? ==> errorMessage == old(errorMessage) && segmentCosts == Some(r.value.matrix)
                      && splittingMiddlePoints == Some(r.value.splittingMiddlePoints)
                      && mergingMiddlePoints == Some(r.value.mergingMiddlePoints))
    {
      var segCosts := segCreate(trackSegments, settings);
      if segCosts.Err? {
        errorMessage := Some(BASE_ERROR_MESSAGE + segCosts.message);
        return false;
      }
      segmentCosts := Some(segCosts.value.matrix);
      splittingMiddlePoints := Some(segCosts.value.splittingMiddlePoints);
      mergingMiddlePoints := Some(segCosts.value.mergingMiddlePoints);
      return true;
    }

    /** The solver's assignment for the step-2 matrix. */
    method SolveLAPForFinalTracks(solve: Solver) returns (solutions: seq<(nat, nat)>)
      requires segmentCosts.Some? && AssignmentSolver(solve)
      ensures solutions == solve(segmentCosts.value)
      ensures IsAssignment(segmentCosts.value, solutions)
    {
      solutions := solve(segmentCosts.value);
    }

    /**
     * Would join segments by gap closing, merging and splitting, but returns
     * before doing anything: the graph stays as step 1 left it.
     */
    method CompileFinalTracks(solutions: seq<(nat, nat)>)
      ensures edges == old(edges) && trackSegments == old(trackSegments)
    {
    }

    /**
     * Step 2's solve: fails when there are no segments or no step-2 matrix,
     * and otherwise solves and compiles, leaving the graph unchanged.
     */
    method LinkTrackSegmentsToFinalTracks(solve: Solver) returns (ok: bool)
      requires Valid() && AssignmentSolver(solve)
      modifies this`errorMessage
      ensures Valid()
      ensures ok <==> trackSegments.Some? && |trackSegments.value| >= 1 && segmentCosts.Some?
      ensures (trackSegments.None? || |trackSegments.value| < 1) ==> errorMessage == Some("There are no track segments to link.")
      ensures trackSegments.Some? && |trackSegments.value| >= 1 && segmentCosts.None? ==>
        errorMessage == Some("The segment cost matrix (step 2) does not exists.")
      ensures ok ==> errorMessage == old(errorMessage)
      ensures edges == old(edges)
    {
      if trackSegments.None? || |trackSegments.value| < 1 {
        errorMessage := Some("There are no track segments to link.");
        return false;
      }
      if segmentCosts.None? {
        errorMessage := Some("The segment cost matrix (step 2) does not exists.");
        return false;
      }
      var finalTrackSolutions := SolveLAPForFinalTracks(solve);
      CompileFinalTracks(finalTrackSolutions);
      return true;
    }

    method SetLinkingCosts(linkingCosts: Option<map<int, Matrix>>)
      modifies this`linkingCosts
      ensures this.linkingCosts == linkingCosts
    {
      this.linkingCosts := linkingCosts;
    }

    method SetSegmentCosts(segmentCosts: Option<Matrix>)
      modifies this`segmentCosts
      ensures this.segmentCosts == segmentCosts
    {
      this.segmentCosts := segmentCosts;
    }

    /** Step 1 of process(): the linking matrices, then the links and the segments. */
    method StepOne(create: LinkingCostCreator, solve: Solver) returns (ok: bool)
      requires Valid() && inputChecked && AssignmentSolver(solve)
      modifies this`errorMessage, this`linkingCosts, this`edges, this`trackSegments, this`components
      ensures Valid()
      ensures linkingCosts == Some(CostsOfPairs(spots, create, settings, CreatedPairs(spots, create, settings, 0)))
      ensures ok <==> PairsCreated(spots, create, settings, |spots| - 1)
      ensures errorMessage == old(errorMessage)
      ensures !ok ==> edges == old(edges) && trackSegments == old(trackSegments)
      ensures ok ==>
        && CostsCover(spots, linkingCosts.value)
        && edges == old(edges) + StepOneEdges(spots, linkingCosts.value, solve, |spots| - 1)
        && OneToOneLinks(spots, StepOneEdges(spots, linkingCosts.value, solve, |spots| - 1))
        && trackSegments.Some? && |trackSegments.value| > 0
        && IsSegmentation(trackSegments.value, components, vertices, edges)
    {
      HasSpotNonEmpty(spots);
      ok := CreateLinkingCostMatrices(create);
      if !ok {
        return false;
      }
      CreatedCostsCover(spots, create, settings);
      ok := LinkObjectsToTrackSegments(solve);
      SegmentationNonEmpty(trackSegments.value, components, vertices, edges);
    }

    /** Step 2 of process(): the segment matrix, then its solve; the graph does not change. */
    method StepTwo(segCreate: SegmentCostCreator, solve: Solver) returns (ok: bool)
      requires Valid() && trackSegments.Some? && |trackSegments.value| > 0 && AssignmentSolver(solve)
      modifies this`errorMessage, this`segmentCosts, this`splittingMiddlePoints, this`mergingMiddlePoints
      ensures Valid()
      ensures ok <==> segCreate(trackSegments, settings).Ok?
      ensures ok ==> errorMessage == old(errorMessage) && segmentCosts == Some(segCreate(trackSegments, settings).value.matrix)
      ensures ok ==>
        && splittingMiddlePoints == Some(segCreate(trackSegments, settings).value.splittingMiddlePoints)
        && mergingMiddlePoints == Some(segCreate(trackSegments, settings).value.mergingMiddlePoints)
      ensures !ok ==> errorMessage == Some(BASE_ERROR_MESSAGE + segCreate(trackSegments, settings).message)
      ensures !ok ==>
        && segmentCosts == old(segmentCosts)
        && splittingMiddlePoints == old(splittingMiddlePoints)
        && mergingMiddlePoints == old(mergingMiddlePoints)
    {
      ok := CreateTrackSegmentCostMatrix(segCreate);
      if !ok {
        return false;
      }
      ok := LinkTrackSegmentsToFinalTracks(solve);
    }

    /**
     * Both steps in order, after checkInput() only. Once the input is
     * checked, the step-2 checks always pass: the run succeeds exactly when
     * every frame pair gets a linking matrix and the segment creator succeeds.
     */
    method Process(create: LinkingCostCreator, segCreate: SegmentCostCreator, solve: Solver) returns (ok: bool)
      requires Valid() && AssignmentSolver(solve)
      modifies this`errorMessage, this`linkingCosts, this`edges, this`trackSegments, this`components
      modifies this`segmentCosts, this`splittingMiddlePoints, this`mergingMiddlePoints
      ensures Valid()
      ensures !old(inputChecked) ==> !ok && errorMessage == Some(BASE_ERROR_MESSAGE + "checkInput() must be executed before process().")
      ensures !old(inputChecked) ==> linkingCosts == old(linkingCosts) && edges == old(edges) && trackSegments == old(trackSegments)
      ensures !old(inputChecked) ==>
        segmentCosts == old(segmentCosts) && splittingMiddlePoints == old(splittingMiddlePoints) && mergingMiddlePoints == old(mergingMiddlePoints)
      ensures old(inputChecked) ==> linkingCosts == Some(CostsOfPairs(spots, create, settings, CreatedPairs(spots, create, settings, 0)))
      ensures old(inputChecked) && !PairsCreated(spots, create, settings, |spots| - 1) ==>
        !ok && errorMessage == old(errorMessage) && edges == old(edges) && trackSegments == old(trackSegments)
      ensures old(inputChecked) && PairsCreated(spots, create, settings, |spots| - 1) ==>
        && CostsCover(spots, linkingCosts.value)
        && edges == old(edges) + StepOneEdges(spots, linkingCosts.value, solve, |spots| - 1)
        && OneToOneLinks(spots, StepOneEdges(spots, linkingCosts.value, solve, |spots| - 1))
        && trackSegments.Some? && |trackSegments.value| > 0
        && IsSegmentation(trackSegments.value, components, vertices, edges)
      ensures ok <==> old(inputChecked) && PairsCreated(spots, create, settings, |spots| - 1) && segCreate(trackSegments, settings).Ok?
      ensures ok ==> errorMessage == old(errorMessage) && segmentCosts == Some(segCreate(trackSegments, settings).value.matrix)
      ensures ok ==>
        && splittingMiddlePoints == Some(segCreate(trackSegments, settings).value.splittingMiddlePoints)
        && mergingMiddlePoints == Some(segCreate(trackSegments, settings).value.mergingMiddlePoints)
      ensures !ok ==>
        && segmentCosts == old(segmentCosts)
        && splittingMiddlePoints == old(splittingMiddlePoints)
        && mergingMiddlePoints == old(mergingMiddlePoints)
      ensures old(inputChecked) && PairsCreated(spots, create, settings, |spots| - 1) && segCreate(trackSegments, settings).Err? ==>
        errorMessage == Some(BASE_ERROR_MESSAGE + segCreate(trackSegments, settings).message)
    {
      if !inputChecked {
        errorMessage := Some(BASE_ERROR_MESSAGE + "checkInput() must be executed before process().");
        return false;
      }
      ok := StepOne(create, solve);
      if !ok {
        return false;
      }
      ok := StepTwo(segCreate, solve);
    }
  }
}
