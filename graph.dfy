/**
 * The tracker's undirected simple graph over spots: a vertex set and a set of
 * two-element edges, so that no pair is ever linked twice and no spot is
 * linked to itself. Also the depth-first search that collects the connected
 * component of a vertex.
 */
module Graph {
  import opened Spots

  type Edges = set<set<Spot>>

  /** `a` and `b` are joined by an edge. */
  predicate Adjacent(e: Edges, a: Spot, b: Spot) {
    a != b && {a, b} in e
  }

  /** Every edge joins two distinct vertices of the graph. */
  predicate SimpleGraph(v: set<Spot>, e: Edges) {
    forall l :: l in e ==> |l| == 2 && l <= v
  }

  lemma SimpleGraphUnion(v: set<Spot>, e1: Edges, e2: Edges)
    requires SimpleGraph(v, e1) && SimpleGraph(v, e2)
    ensures SimpleGraph(v, e1 + e2)
  {
  }

  /** The neighbours of `x` among the vertices `v`. */
  function Neighbours(v: set<Spot>, e: Edges, x: Spot): set<Spot> {
    set y | y in v && Adjacent(e, x, y)
  }

  /** A walk along edges. */
  ghost predicate IsPath(e: Edges, p: seq<Spot>) {
    |p| > 0 && forall i :: 0 <= i < |p| - 1 ==> Adjacent(e, p[i], p[i + 1])
  }

  ghost predicate Reachable(e: Edges, a: Spot, b: Spot) {
    exists p :: IsPath(e, p) && p[0] == a && p[|p| - 1] == b
  }

  /** No edge leaves `c`. */
  ghost predicate Closed(e: Edges, c: set<Spot>) {
    forall a, b :: a in c && Adjacent(e, a, b) ==> b in c
  }

  /** `c` is a connected component: non-empty, closed, and internally connected. */
  ghost predicate IsComponent(e: Edges, c: set<Spot>) {
    && c != {}
    && Closed(e, c)
    && forall a, b :: a in c && b in c ==> Reachable(e, a, b)
  }

  lemma ReachableRefl(e: Edges, a: Spot)
    ensures Reachable(e, a, a)
  {
    assert IsPath(e, [a]);
  }

  /** A walk extended by one edge. */
  lemma ReachableStep(e: Edges, a: Spot, b: Spot, c: Spot)
    requires Reachable(e, a, b) && Adjacent(e, b, c)
    ensures Reachable(e, a, c)
  {
    var p :| IsPath(e, p) && p[0] == a && p[|p| - 1] == b;
    var q := p + [c];
    forall i | 0 <= i < |q| - 1
      ensures Adjacent(e, q[i], q[i + 1])
    {
      assert q[i] == p[i];
      if i + 1 < |p| {
        assert q[i + 1] == p[i + 1];
      }
    }
    assert IsPath(e, q);
  }

  function Reverse(p: seq<Spot>): (r: seq<Spot>)
    ensures |r| == |p|
    ensures forall i :: 0 <= i < |p| ==> r[i] == p[|p| - 1 - i]
  {
    if p == [] then [] else Reverse(p[1..]) + [p[0]]
  }

  /** Edges are undirected, so reachability is symmetric. */
  lemma ReachableSym(e: Edges, a: Spot, b: Spot)
    requires Reachable(e, a, b)
    ensures Reachable(e, b, a)
  {
    var p :| IsPath(e, p) && p[0] == a && p[|p| - 1] == b;
    var r := Reverse(p);
    forall i | 0 <= i < |r| - 1
      ensures Adjacent(e, r[i], r[i + 1])
    {
      var j := |p| - 2 - i;
      assert r[i] == p[j + 1] && r[i + 1] == p[j];
      assert Adjacent(e, p[j], p[j + 1]);
      assert {p[j + 1], p[j]} == {p[j], p[j + 1]};
    }
    assert IsPath(e, r);
  }

  lemma ReachableTrans(e: Edges, a: Spot, b: Spot, c: Spot)
    requires Reachable(e, a, b) && Reachable(e, b, c)
    ensures Reachable(e, a, c)
  {
    var p :| IsPath(e, p) && p[0] == a && p[|p| - 1] == b;
    var q :| IsPath(e, q) && q[0] == b && q[|q| - 1] == c;
    var r := p + q[1..];
    forall i | 0 <= i < |r| - 1
      ensures Adjacent(e, r[i], r[i + 1])
    {
      if i < |p| - 1 {
        assert r[i] == p[i] && r[i + 1] == p[i + 1];
      } else {
        var j := i - (|p| - 1);
        assert r[i] == q[j] && r[i + 1] == q[j + 1];
      }
    }
    assert IsPath(e, r);
  }

  /** A walk that starts in a closed set stays in it. */
  lemma {:induction false} ClosedPath(e: Edges, c: set<Spot>, p: seq<Spot>)
    requires Closed(e, c) && IsPath(e, p) && p[0] in c
    ensures p[|p| - 1] in c
    decreases |p|
  {
    if |p| > 1 {
      var q := p[..|p| - 1];
      assert IsPath(e, q) by {
        forall i | 0 <= i < |q| - 1 ensures Adjacent(e, q[i], q[i + 1]) {
          assert q[i] == p[i] && q[i + 1] == p[i + 1];
        }
      }
      ClosedPath(e, c, q);
      assert Adjacent(e, p[|p| - 2], p[|p| - 1]);
    }
  }

  /** Nothing outside a closed set is reachable from inside it. */
  lemma ClosedReach(e: Edges, c: set<Spot>, a: Spot, b: Spot)
    requires Closed(e, c) && a in c && Reachable(e, a, b)
    ensures b in c
  {
    var p :| IsPath(e, p) && p[0] == a && p[|p| - 1] == b;
    ClosedPath(e, c, p);
  }

  /** Every visited vertex is still to be expanded or has all its neighbours visited. */
  ghost predicate Expanded(v: set<Spot>, e: Edges, visited: set<Spot>, stack: seq<Spot>) {
    forall x :: x in visited ==> x in stack || Neighbours(v, e, x) <= visited
  }

  ghost predicate AllReachable(e: Edges, source: Spot, s: set<Spot>) {
    forall x :: x in s ==> Reachable(e, source, x)
  }

  /** One expansion step: every not yet visited neighbour of `x` is visited and pushed. */
  method PushUnseen(v: set<Spot>, e: Edges, x: Spot, order: seq<Spot>, stack: seq<Spot>)
    returns (order': seq<Spot>, stack': seq<Spot>)
    requires NoDuplicates(order)
    ensures NoDuplicates(order') && |order'| >= |order| && order'[..|order|] == order
    ensures Elems(order') == Elems(order) + Neighbours(v, e, x)
    ensures |stack'| >= |stack| && stack'[..|stack|] == stack
    ensures Elems(stack'[|stack|..]) == Elems(order') - Elems(order)
    ensures Elems(order') == Elems(order) ==> stack' == stack
  {
    order', stack' := order, stack;
    var unseen := Neighbours(v, e, x) - Elems(order);
    while unseen != {}
      invariant NoDuplicates(order') && |order'| >= |order| && order'[..|order|] == order
      invariant unseen !! Elems(order')
      invariant Elems(order') + unseen == Elems(order) + Neighbours(v, e, x)
      invariant |stack'| >= |stack| && stack'[..|stack|] == stack
      invariant Elems(stack'[|stack|..]) == Elems(order') - Elems(order)
      invariant Elems(order') == Elems(order) ==> stack' == stack
      decreases unseen
    {
      var y :| y in unseen;
      assert y !in Elems(order) by {
        assert Elems(order) <= Elems(order') by {
          forall z | z in Elems(order) ensures z in Elems(order') {
            var k :| 0 <= k < |order| && order[k] == z;
            assert order'[k] == z;
          }
        }
      }
      assert stack'[|stack|..] + [y] == (stack' + [y])[|stack|..];
      assert Elems(order' + [y]) == Elems(order') + {y};
      assert Elems(stack'[|stack|..] + [y]) == Elems(stack'[|stack|..]) + {y};
      order' := order' + [y];
      stack' := stack' + [y];
      unseen := unseen - {y};
    }
  }

  /** Expanding the top vertex `x` of the stack keeps the search invariants. */
  lemma ExpandKeepsInvariants(v: set<Spot>, e: Edges, source: Spot, x: Spot,
                              before: set<Spot>, after: set<Spot>, stack0: seq<Spot>, stack: seq<Spot>)
    requires |stack0| > 0 && x == stack0[|stack0| - 1] && x in before
    requires Expanded(v, e, before, stack0) && AllReachable(e, source, before)
    requires after == before + Neighbours(v, e, x)
    requires |stack| >= |stack0| - 1 && stack[..|stack0| - 1] == stack0[..|stack0| - 1]
    requires Elems(stack[|stack0| - 1..]) == after - before
    ensures Expanded(v, e, after, stack) && AllReachable(e, source, after)
  {
    var n := |stack0| - 1;
    forall y | y in after
      ensures Reachable(e, source, y)
    {
      if y !in before {
        ReachableStep(e, source, x, y);
      }
    }
    forall z | z in after
      ensures z in stack || Neighbours(v, e, z) <= after
    {
      if z !in before {
        assert z in Elems(stack[n..]);
        var k :| n <= k < |stack| && stack[k] == z;
      } else if z != x && z in stack0 {
        var k :| 0 <= k < |stack0| && stack0[k] == z;
        assert k < n && stack[k] == z;
      }
    }
  }

  /** When the stack is empty, the visited set is the component of the source. */
  lemma SearchedIsComponent(v: set<Spot>, e: Edges, source: Spot, c: set<Spot>)
    requires SimpleGraph(v, e) && source in c && c <= v
    requires Expanded(v, e, c, []) && AllReachable(e, source, c)
    ensures IsComponent(e, c)
  {
    forall a, b | a in c && Adjacent(e, a, b)
      ensures b in c
    {
      assert {a, b} <= v;
      assert b in Neighbours(v, e, a);
    }
    forall a, b | a in c && b in c
      ensures Reachable(e, a, b)
    {
      ReachableSym(e, source, a);
      ReachableTrans(e, a, source, b);
    }
  }

  /**
   * The vertices met by a depth-first traversal started at `source`, in the
   * order they are met: exactly the connected component of `source`.
   */
  method DepthFirstComponent(v: set<Spot>, e: Edges, source: Spot) returns (order: seq<Spot>)
    requires SimpleGraph(v, e) && source in v
    ensures |order| > 0 && order[0] == source
    ensures NoDuplicates(order) && Elems(order) <= v
    ensures IsComponent(e, Elems(order))
  {
    order := [source];
    var stack := [source];
    ReachableRefl(e, source);
    while stack != []
      invariant Elems(order) <= v
      invariant |order| > 0 && order[0] == source && NoDuplicates(order)
      invariant Elems(stack) <= Elems(order)
      invariant Expanded(v, e, Elems(order), stack)
      invariant AllReachable(e, source, Elems(order))
      decreases v - Elems(order), |stack|
    {
      var x := stack[|stack| - 1];
      var rest := stack[..|stack| - 1];
      ghost var before, stack0 := Elems(order), stack;
      var order', stack' := PushUnseen(v, e, x, order, rest);
      assert order'[0] == order[0];
      ElemsSplit(order', |order|);
      ElemsSplit(stack', |rest|);
      ElemsSplit(stack0, |rest|);
      ExpandKeepsInvariants(v, e, source, x, before, Elems(order'), stack0, stack');
      ghost var after := Elems(order');
      if after - before != {} {
        var y :| y in after - before;
        assert y in (v - before) - (v - after);
      }
      order, stack := order', stack';
    }
    SearchedIsComponent(v, e, source, Elems(order));
  }
}
