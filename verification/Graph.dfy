/** Directed graphs over identifiers. Edges may lead out of the graph; reachability and
    cycles are about the edges inside it. */
module Graph {
  type Id = string

  type Graph = map<Id, seq<Id>>

  predicate Edge(g: Graph, v: Id, w: Id) { v in g && w in g && w in g[v] }

  predicate IsPath(g: Graph, p: seq<Id>) {
    && p != [] && (forall i :: 0 <= i < |p| ==> p[i] in g)
    && forall i :: 0 <= i < |p| - 1 ==> Edge(g, p[i], p[i + 1])
  }

  predicate Joins(g: Graph, p: seq<Id>, v: Id, w: Id) {
    IsPath(g, p) && p[0] == v && p[|p| - 1] == w
  }

  ghost predicate Reaches(g: Graph, v: Id, w: Id) { exists p :: Joins(g, p, v, w) }

  /** `v` lies on a cycle: one of its edges leads back to it. */
  ghost predicate OnCycle(g: Graph, v: Id) { exists w :: Edge(g, v, w) && Reaches(g, w, v) }

  ghost predicate Acyclic(g: Graph) { forall v :: v in g ==> !OnCycle(g, v) }

  /** No edge leads out of the graph. */
  predicate Closed(g: Graph) { forall v :: v in g ==> forall w :: w in g[v] ==> w in g }

  /** The strongly connected component of `v`. */
  ghost function Component(g: Graph, v: Id): set<Id> { set w | w in g && Reaches(g, v, w) && Reaches(g, w, v) }

  // ----- reachability -----

  lemma ReachSelf(g: Graph, v: Id)
    requires v in g
    ensures Reaches(g, v, v)
  {
    assert Joins(g, [v], v, v);
  }

  lemma ReachEdge(g: Graph, v: Id, w: Id)
    requires Edge(g, v, w)
    ensures Reaches(g, v, w)
  {
    assert Joins(g, [v, w], v, w);
  }

  lemma ReachTrans(g: Graph, u: Id, v: Id, w: Id)
    requires Reaches(g, u, v) && Reaches(g, v, w)
    ensures Reaches(g, u, w)
  {
    var p :| Joins(g, p, u, v);
    var q :| Joins(g, q, v, w);
    var r := p + q[1..];
    forall i | 0 <= i < |r| - 1 ensures Edge(g, r[i], r[i + 1]) {
      if i < |p| - 1 {
        assert Edge(g, p[i], p[i + 1]);
      } else {
        var j := i - (|p| - 1);
        assert r[i] == q[j] && r[i + 1] == q[j + 1];
        assert Edge(g, q[j], q[j + 1]);
      }
    }
    assert Joins(g, r, u, w);
  }

  lemma ReachInside(g: Graph, v: Id, w: Id)
    requires Reaches(g, v, w)
    ensures v in g && w in g
  {
    var p :| Joins(g, p, v, w);
    assert p[0] in g && p[|p| - 1] in g;
  }

  /** Nothing leaves a set that is closed under edges. */
  ghost predicate Trap(g: Graph, s: set<Id>) { forall v, w :: v in s && Edge(g, v, w) ==> w in s }

  lemma {:induction false} TrappedPath(g: Graph, s: set<Id>, p: seq<Id>, i: nat)
    requires Trap(g, s) && IsPath(g, p) && p[0] in s && i < |p|
    ensures p[i] in s
  {
    if i > 0 {
      TrappedPath(g, s, p, i - 1);
      assert Edge(g, p[i - 1], p[i - 1 + 1]);
    }
  }

  lemma Trapped(g: Graph, s: set<Id>, v: Id, w: Id)
    requires Trap(g, s) && v in s && Reaches(g, v, w)
    ensures w in s
  {
    var p :| Joins(g, p, v, w);
    TrappedPath(g, s, p, |p| - 1);
  }

  /** A path that goes somewhere else starts with an edge. */
  lemma FirstStep(g: Graph, v: Id, w: Id) returns (x: Id)
    requires Reaches(g, v, w) && v != w
    ensures Edge(g, v, x) && Reaches(g, x, w)
  {
    var p :| Joins(g, p, v, w);
    x := p[1];
    assert Edge(g, p[0], p[0 + 1]);
    var q := p[1..];
    forall i | 0 <= i < |q| - 1 ensures Edge(g, q[i], q[i + 1]) { assert Edge(g, p[i + 1], p[i + 1 + 1]); }
    assert Joins(g, q, x, w);
  }

  /** Mutual reachability with another node is a cycle. */
  lemma MutualIsCycle(g: Graph, v: Id, w: Id)
    requires v != w && Reaches(g, v, w) && Reaches(g, w, v)
    ensures OnCycle(g, v)
  {
    var x := FirstStep(g, v, w);
    ReachTrans(g, x, w, v);
  }

  // ----- sorted lists of identifiers -----

  predicate Less(a: Id, b: Id) {
    if b == "" then false
    else if a == "" then true
    else a[0] < b[0] || (a[0] == b[0] && Less(a[1..], b[1..]))
  }

  lemma {:induction false} LessTotal(a: Id, b: Id)
    ensures a != b ==> Less(a, b) || Less(b, a)
    ensures Less(a, b) ==> a != b && !Less(b, a)
  {
    if a != "" && b != "" && a[0] == b[0] {
      LessTotal(a[1..], b[1..]);
      if a[1..] == b[1..] { assert a == [a[0]] + a[1..] && b == [b[0]] + b[1..]; }
    }
  }

  lemma {:induction false} LessTrans(a: Id, b: Id, c: Id)
    requires Less(a, b) && Less(b, c)
    ensures Less(a, c)
  {
    if a != "" && a[0] == b[0] == c[0] { LessTrans(a[1..], b[1..], c[1..]); }
  }

  predicate Increasing(xs: seq<Id>) { forall i, j :: 0 <= i < j < |xs| ==> Less(xs[i], xs[j]) }

  function InsertId(x: Id, xs: seq<Id>): seq<Id> {
    if xs == [] || Less(x, xs[0]) then [x] + xs else [xs[0]] + InsertId(x, xs[1..])
  }

  function SortIds(xs: seq<Id>): seq<Id> {
    if xs == [] then [] else InsertId(xs[0], SortIds(xs[1..]))
  }

  lemma {:induction false} InsertIdHolds(x: Id, xs: seq<Id>)
    requires Increasing(xs) && x !in xs
    ensures Increasing(InsertId(x, xs)) && forall y :: y in InsertId(x, xs) <==> y == x || y in xs
  {
    if xs == [] {
    } else if Less(x, xs[0]) {
      forall j | 0 <= j < |xs| ensures Less(x, xs[j]) {
        if j > 0 { LessTrans(x, xs[0], xs[j]); }
      }
    } else {
      LessTotal(x, xs[0]);
      InsertIdHolds(x, xs[1..]);
      var r := InsertId(x, xs[1..]);
      forall j | 0 <= j < |r| ensures Less(xs[0], r[j]) {
        assert r[j] in r;
        if r[j] != x {
          var k :| 0 <= k < |xs[1..]| && xs[1..][k] == r[j];
          assert Less(xs[0], xs[k + 1]);
        }
      }
      assert xs == [xs[0]] + xs[1..];
    }
  }

  predicate Distinct(xs: seq<Id>) { forall i, j :: 0 <= i < j < |xs| ==> xs[i] != xs[j] }

  lemma {:induction false} SortIdsHolds(xs: seq<Id>)
    requires Distinct(xs)
    ensures Increasing(SortIds(xs)) && forall y :: y in SortIds(xs) <==> y in xs
  {
    if xs != [] {
      SortIdsHolds(xs[1..]);
      forall i | 0 <= i < |xs[1..]| ensures xs[1..][i] != xs[0] {}
      InsertIdHolds(xs[0], SortIds(xs[1..]));
      assert xs == [xs[0]] + xs[1..];
    }
  }
}
