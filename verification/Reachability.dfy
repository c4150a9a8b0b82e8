/** Reachability in a finite directed graph, the reference definition that every traversal
    and every run in this project is measured against. */
module Reachability {
  import opened Values

  type Edges<T(==)> = set<(T, T)>

  /** A walk from one of `starts`, listed vertex by vertex. */
  ghost predicate Walk<T>(starts: set<T>, edges: Edges<T>, p: seq<T>) {
    && p != []
    && p[0] in starts
    && forall i :: 0 < i < |p| ==> (p[i - 1], p[i]) in edges
  }

  ghost predicate Reachable<T(!new)>(starts: set<T>, edges: Edges<T>, x: T) {
    exists p: seq<T> :: Walk(starts, edges, p) && p[|p| - 1] == x
  }

  ghost predicate Closed<T(!new)>(edges: Edges<T>, s: set<T>) {
    forall e :: e in edges && e.0 in s ==> e.1 in s
  }

  /** The reachable vertices, as a finite set. */
  ghost function Reach<T(!new)>(starts: set<T>, edges: Edges<T>): (r: set<T>)
    ensures forall x :: x in r <==> Reachable(starts, edges, x)
  {
    var candidates := starts + (set e | e in edges :: e.1);
    var r := set x | x in candidates && Reachable(starts, edges, x);
    assert forall x :: Reachable(starts, edges, x) ==> x in candidates by {
      forall x | Reachable(starts, edges, x) ensures x in candidates {
        var p :| Walk(starts, edges, p) && p[|p| - 1] == x;
        if |p| > 1 { assert (p[|p| - 2], p[|p| - 1]) in edges; }
      }
    }
    r
  }

  lemma ReachStarts<T(!new)>(starts: set<T>, edges: Edges<T>)
    ensures starts <= Reach(starts, edges)
  {
    forall x | x in starts ensures Reachable(starts, edges, x) {
      assert Walk(starts, edges, [x]);
    }
  }

  lemma ReachStep<T(!new)>(starts: set<T>, edges: Edges<T>, x: T, y: T)
    requires x in Reach(starts, edges) && (x, y) in edges
    ensures y in Reach(starts, edges)
  {
    var p :| Walk(starts, edges, p) && p[|p| - 1] == x;
    var q := p + [y];
    assert Walk(starts, edges, q) && q[|q| - 1] == y;
  }

  lemma {:induction false} WalkStaysInside<T(!new)>(starts: set<T>, edges: Edges<T>, s: set<T>, p: seq<T>)
    requires starts <= s && Closed(edges, s) && Walk(starts, edges, p)
    ensures p[|p| - 1] in s
  {
    if |p| > 1 {
      var q := p[..|p| - 1];
      assert Walk(starts, edges, q);
      WalkStaysInside(starts, edges, s, q);
      assert (p[|p| - 2], p[|p| - 1]) in edges;
    }
  }

  /** `Reach` is the least set that contains the starts and is closed under the edges. */
  lemma ReachIsLeast<T(!new)>(starts: set<T>, edges: Edges<T>)
    ensures starts <= Reach(starts, edges) && Closed(edges, Reach(starts, edges))
    ensures forall s :: starts <= s && Closed(edges, s) ==> Reach(starts, edges) <= s
  {
    ReachStarts(starts, edges);
    forall e | e in edges && e.0 in Reach(starts, edges) ensures e.1 in Reach(starts, edges) {
      ReachStep(starts, edges, e.0, e.1);
    }
    forall s | starts <= s && Closed(edges, s) ensures Reach(starts, edges) <= s {
      forall x | x in Reach(starts, edges) ensures x in s {
        var p :| Walk(starts, edges, p) && p[|p| - 1] == x;
        WalkStaysInside(starts, edges, s, p);
      }
    }
  }

  lemma ReachMonotone<T(!new)>(starts: set<T>, edges: Edges<T>, moreStarts: set<T>, moreEdges: Edges<T>)
    requires starts <= moreStarts && edges <= moreEdges
    ensures Reach(starts, edges) <= Reach(moreStarts, moreEdges)
  {
    ReachIsLeast(moreStarts, moreEdges);
    ReachIsLeast(starts, edges);
  }
}
