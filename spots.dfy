/**
 * Spots (detected particles) and the frame-indexed table of spots that the
 * tracker and the segmenters exchange.
 */
module Spots {

  /**
   * A detected spot. `id` stands for the object's identity (spots are compared
   * by reference in the tracker's graph); `time` is its POSITION_T feature,
   * taken here as an integer frame time.
   */
  datatype Spot = Spot(id: nat, time: int)

  /** One entry of the ordered map from frame index to the spots of that frame. */
  datatype Frame = Frame(key: int, spots: seq<Spot>)

  /** The ordered map, read in ascending key order as the source's TreeMap is iterated. */
  type SpotTable = seq<Frame>

  function Elems<T>(s: seq<T>): set<T> {
    set x | x in s
  }

  lemma ElemsSplit<T>(s: seq<T>, k: nat)
    requires k <= |s|
    ensures Elems(s) == Elems(s[..k]) + Elems(s[k..])
  {
    assert s == s[..k] + s[k..];
  }

  predicate NoDuplicates<T(==)>(s: seq<T>) {
    forall i, j :: 0 <= i < j < |s| ==> s[i] != s[j]
  }

  /** Keys strictly ascending: the table is a sorted map. */
  predicate KeysAscending(t: SpotTable) {
    forall i, j :: 0 <= i < j < |t| ==> t[i].key < t[j].key
  }

  /** Every spot is a distinct object: no spot is listed twice, in one frame or in two. */
  predicate DistinctSpots(t: SpotTable) {
    && (forall k :: 0 <= k < |t| ==> NoDuplicates(t[k].spots))
    && (forall i, j :: 0 <= i < j < |t| ==> Elems(t[i].spots) !! Elems(t[j].spots))
  }

  predicate WellFormedTable(t: SpotTable) {
    KeysAscending(t) && DistinctSpots(t)
  }

  /** Whether some frame holds at least one spot. */
  predicate HasSpot(t: SpotTable) {
    exists k :: 0 <= k < |t| && |t[k].spots| > 0
  }

  /** All spots of all frames. */
  function AllSpots(t: SpotTable): set<Spot>
  {
    if t == [] then {} else AllSpots(t[..|t| - 1]) + Elems(t[|t| - 1].spots)
  }

  /** A spot belongs to the table exactly when it is listed in one of its frames. */
  lemma {:induction false} AllSpotsMembership(t: SpotTable, x: Spot)
    ensures x in AllSpots(t) <==> exists k :: 0 <= k < |t| && x in t[k].spots
  {
    if t != [] {
      var n := |t| - 1;
      AllSpotsMembership(t[..n], x);
      if x in AllSpots(t) && x !in t[n].spots {
        var k :| 0 <= k < n && x in t[..n][k].spots;
        assert x in t[k].spots;
      }
      if exists k :: 0 <= k < |t| && x in t[k].spots {
        var k :| 0 <= k < |t| && x in t[k].spots;
        if k < n {
          assert x in t[..n][k].spots;
        }
      }
    }
  }

  /** A table with a spot has a spot in its union of frames. */
  lemma HasSpotNonEmpty(t: SpotTable)
    requires HasSpot(t)
    ensures AllSpots(t) != {}
  {
    var k :| 0 <= k < |t| && |t[k].spots| > 0;
    AllSpotsMembership(t, t[k].spots[0]);
  }

  /** The set of times at which some spot of `s` lies. */
  function Times(s: set<Spot>): set<int> {
    set x | x in s :: x.time
  }
}
