/**
 * Track segments: the connected components of the step-1 graph, each kept
 * as a set of spots ordered by time in which spots of equal time collapse
 * to one.
 */
module TrackSegments {
  import opened Spots
  import opened Graph
  import opened TimeSortedSet

  /** All spots of the listed components. */
  function Union(comps: seq<set<Spot>>): set<Spot> {
    if comps == [] then {} else Union(comps[..|comps| - 1]) + comps[|comps| - 1]
  }

  lemma {:induction false} UnionMembership(comps: seq<set<Spot>>, x: Spot)
    ensures x in Union(comps) <==> exists i :: 0 <= i < |comps| && x in comps[i]
  {
    if comps != [] {
      var n := |comps| - 1;
      UnionMembership(comps[..n], x);
      if x in Union(comps[..n]) {
        var i :| 0 <= i < n && x in comps[..n][i];
        assert comps[i] == comps[..n][i];
      }
      if exists i :: 0 <= i < |comps| && x in comps[i] {
        var i :| 0 <= i < |comps| && x in comps[i];
        if i < n {
          assert comps[..n][i] == comps[i];
        }
      }
    }
  }

  /**
   * The segment of a component: ordered by strictly ascending time, made of
   * spots of the component, and holding one spot for every time found in it.
   */
  ghost predicate SegmentOf(s: seq<Spot>, c: set<Spot>) {
    TimeSorted(s) && Elems(s) <= c && Times(Elems(s)) == Times(c)
  }

  /**
   * The segments found so far: one per component, components pairwise
   * disjoint, and `pool` holds exactly the spots of no component yet.
   */
  ghost predicate PartialSegmentation(segs: seq<seq<Spot>>, comps: seq<set<Spot>>, v: set<Spot>, e: Edges, pool: set<Spot>) {
    && |segs| == |comps|
    && (forall i :: 0 <= i < |comps| ==> IsComponent(e, comps[i]) && comps[i] <= v && SegmentOf(segs[i], comps[i]))
    && (forall i, j :: 0 <= i < j < |comps| ==> comps[i] !! comps[j])
    && pool == v - Union(comps)
  }

  /** The segments of every connected component of the graph over `v`, one each. */
  ghost predicate IsSegmentation(segs: seq<seq<Spot>>, comps: seq<set<Spot>>, v: set<Spot>, e: Edges) {
    PartialSegmentation(segs, comps, v, e, {})
  }

  /** A component through a spot of no earlier component shares no spot with any of them. */
  lemma FreshComponentDisjoint(v: set<Spot>, e: Edges, comps: seq<set<Spot>>, c: set<Spot>, source: Spot)
    requires forall i :: 0 <= i < |comps| ==> IsComponent(e, comps[i])
    requires IsComponent(e, c) && source in c && source !in Union(comps)
    ensures forall i :: 0 <= i < |comps| ==> comps[i] !! c
  {
    forall i | 0 <= i < |comps| ensures comps[i] !! c {
      if x :| x in comps[i] && x in c {
        ReachableSym(e, source, x);
        ClosedReach(e, comps[i], x, source);
        UnionMembership(comps, source);
      }
    }
  }

  /** Adding the segment of a fresh component keeps the partial segmentation. */
  lemma AddComponent(segs: seq<seq<Spot>>, comps: seq<set<Spot>>, v: set<Spot>, e: Edges, pool: set<Spot>,
                     seg: seq<Spot>, c: set<Spot>, source: Spot)
    requires PartialSegmentation(segs, comps, v, e, pool)
    requires source in pool && IsComponent(e, c) && source in c && c <= v && SegmentOf(seg, c)
    ensures PartialSegmentation(segs + [seg], comps + [c], v, e, pool - c)
  {
    FreshComponentDisjoint(v, e, comps, c, source);
    var comps' := comps + [c];
    assert comps'[..|comps|] == comps;
  }

  /** A segment of a non-empty component is not empty. */
  lemma SegmentNonEmpty(s: seq<Spot>, c: set<Spot>)
    requires SegmentOf(s, c) && c != {}
    ensures |s| > 0
  {
    var x :| x in c;
    assert x.time in Times(c);
  }

  /** There is at least one segment when there is at least one spot. */
  lemma SegmentationNonEmpty(segs: seq<seq<Spot>>, comps: seq<set<Spot>>, v: set<Spot>, e: Edges)
    requires IsSegmentation(segs, comps, v, e) && v != {}
    ensures |segs| > 0 && forall i :: 0 <= i < |segs| ==> |segs[i]| > 0
  {
    var x :| x in v;
    UnionMembership(comps, x);
    forall i | 0 <= i < |segs| ensures |segs[i]| > 0 {
      SegmentNonEmpty(segs[i], comps[i]);
    }
  }

  /** Every spot lies in exactly one component. */
  lemma SpotInOneComponent(segs: seq<seq<Spot>>, comps: seq<set<Spot>>, v: set<Spot>, e: Edges, x: Spot)
    requires IsSegmentation(segs, comps, v, e) && x in v
    ensures exists i :: 0 <= i < |comps| && x in comps[i]
    ensures forall i, j :: 0 <= i < |comps| && 0 <= j < |comps| && x in comps[i] && x in comps[j] ==> i == j
  {
    assert x !in v - Union(comps);
    UnionMembership(comps, x);
  }

  lemma ComponentsDisjoint(segs: seq<seq<Spot>>, comps: seq<set<Spot>>, v: set<Spot>, e: Edges, i: nat, j: nat)
    requires IsSegmentation(segs, comps, v, e) && i < |comps| && j < |comps| && i != j
    ensures comps[i] !! comps[j]
  {
  }

  /**
   * Every segment holds spots of one component only, so spots of two
   * different segments are never connected in the graph.
   */
  lemma SegmentsNotConnected(segs: seq<seq<Spot>>, comps: seq<set<Spot>>, v: set<Spot>, e: Edges,
                             i: nat, j: nat, a: Spot, b: Spot)
    requires IsSegmentation(segs, comps, v, e)
    requires i < |segs| && j < |segs| && i != j && a in segs[i] && b in segs[j]
    ensures !Reachable(e, a, b)
  {
    assert a in Elems(segs[i]) && b in Elems(segs[j]);
    ComponentsDisjoint(segs, comps, v, e, i, j);
    if Reachable(e, a, b) {
      ClosedReach(e, comps[i], a, b);
    }
  }

  /**
   * When no two spots of a component share a time, its segment holds every
   * spot of the component, so every spot then lies in exactly one segment.
   */
  lemma SegmentKeepsAll(s: seq<Spot>, c: set<Spot>)
    requires SegmentOf(s, c)
    requires forall x, y :: x in c && y in c && x.time == y.time ==> x == y
    ensures Elems(s) == c
  {
    forall x | x in c ensures x in Elems(s) {
      assert x.time in Times(Elems(s));
      var y :| y in Elems(s) && y.time == x.time;
    }
  }
}
