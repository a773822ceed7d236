/**
 * A track segment as the source stores it: a sorted set of spots whose
 * comparator looks only at the spot's time. Iteration is in ascending time,
 * and a spot whose time is already present is not added.
 */
module TimeSortedSet {
  import opened Spots

  /** Strictly ascending times: iteration order of the sorted set. */
  predicate TimeSorted(s: seq<Spot>) {
    forall i, j :: 0 <= i < j < |s| ==> s[i].time < s[j].time
  }

  /** `add` on the time-compared sorted set. */
  function Insert(s: seq<Spot>, x: Spot): seq<Spot>
    decreases |s|
  {
    if s == [] then [x]
    else if x.time < s[0].time then [x] + s
    else if x.time == s[0].time then s
    else [s[0]] + Insert(s[1..], x)
  }

  /** In a sorted segment every spot after the first is later than it. */
  lemma HeadEarliest(s: seq<Spot>, y: Spot)
    requires TimeSorted(s) && s != [] && y in Elems(s) && y != s[0]
    ensures s[0].time < y.time
  {
    var k :| 0 <= k < |s| && s[k] == y;
  }

  /** The spots kept: a spot whose time is already present is dropped, any other is added. */
  lemma {:induction false} InsertElems(s: seq<Spot>, x: Spot)
    requires TimeSorted(s)
    ensures x.time in Times(Elems(s)) ==> Insert(s, x) == s
    ensures x.time !in Times(Elems(s)) ==> Elems(Insert(s, x)) == Elems(s) + {x}
    decreases |s|
  {
    if s == [] {
    } else if x.time < s[0].time {
      forall y | y in Elems(s) ensures y.time != x.time {
        if y != s[0] { HeadEarliest(s, y); }
      }
      assert Elems([x] + s) == {x} + Elems(s);
    } else if x.time == s[0].time {
      assert s[0] in Elems(s);
    } else {
      InsertElems(s[1..], x);
      assert Elems(s) == {s[0]} + Elems(s[1..]);
      assert Elems([s[0]] + Insert(s[1..], x)) == {s[0]} + Elems(Insert(s[1..], x));
    }
  }

  /** Putting a spot earlier than all of a sorted segment in front keeps it sorted. */
  lemma ConsSorted(y: Spot, s: seq<Spot>)
    requires TimeSorted(s) && forall z :: z in Elems(s) ==> y.time < z.time
    ensures TimeSorted([y] + s)
  {
    var r := [y] + s;
    forall i, j | 0 <= i < j < |r| ensures r[i].time < r[j].time {
      assert r[j] == s[j - 1] && r[j] in Elems(s);
      if i > 0 { assert r[i] == s[i - 1]; }
    }
  }

  /** Insertion keeps the segment in strictly ascending time order. */
  lemma {:induction false} InsertSorted(s: seq<Spot>, x: Spot)
    requires TimeSorted(s)
    ensures TimeSorted(Insert(s, x))
    decreases |s|
  {
    if s == [] {
    } else if x.time < s[0].time {
      forall z | z in Elems(s) ensures x.time < z.time {
        if z != s[0] { HeadEarliest(s, z); }
      }
      ConsSorted(x, s);
    } else if x.time > s[0].time {
      InsertSorted(s[1..], x);
      InsertElems(s[1..], x);
      var tail := Insert(s[1..], x);
      forall y | y in Elems(tail) ensures s[0].time < y.time {
        if y != x {
          assert y in Elems(s[1..]);
          assert y in Elems(s) && y != s[0];
          HeadEarliest(s, y);
        }
      }
      ConsSorted(s[0], tail);
    }
  }

  /** Adding a spot adds its time: the set of times is all that insertion decides. */
  lemma InsertTimes(s: seq<Spot>, x: Spot)
    requires TimeSorted(s)
    ensures Times(Elems(Insert(s, x))) == Times(Elems(s)) + {x.time}
    ensures Elems(Insert(s, x)) <= Elems(s) + {x}
  {
    InsertElems(s, x);
  }
}
