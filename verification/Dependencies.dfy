/** The two other graph searches: the check of one ticket's proposed dependencies, and
    the check of a whole set of releases. */
module Dependencies {
  import opened Graph

  datatype Refused = SelfCycle | Missing(id: Id) | Cycle

  datatype Verdict = Accepted | Rejected(why: Refused)

  /** The graph with the proposed edges in place of the ticket's own. */
  function Overlay(g: Graph, target: Id, deps: seq<Id>): Graph { g[target := deps] }

  /** A dependency from which the graph already leads to the target. */
  ghost predicate LeadsBack(g: Graph, target: Id, deps: seq<Id>) {
    exists d :: d in deps && Leads(g, d, target)
  }

  /** `w` can be walked to from `v`, the last step perhaps out of the graph. */
  ghost predicate Leads(g: Graph, v: Id, w: Id) {
    v == w || exists u :: Reaches(g, v, u) && w in g[u]
  }

  lemma LeadsOn(g: Graph, v: Id, u: Id, w: Id)
    requires Leads(g, v, u) && u in g && w in g[u]
    ensures Leads(g, v, w)
  {
    if v == u {
      ReachSelf(g, v);
    } else {
      var x :| Reaches(g, v, x) && u in g[x];
      ReachInside(g, v, x);
      ReachEdge(g, x, u);
      ReachTrans(g, v, x, u);
    }
  }

  // ----- the search for a way back -----

  /** Whatever a visited node leads to next is visited or waiting. */
  ghost predicate Frontier(g: Graph, target: Id, deps: seq<Id>, visited: set<Id>, stack: seq<Id>) {
    && target !in visited
    && (forall d :: d in deps ==> d in visited || d in stack)
    && (forall v, w :: v in visited && v in g && w in g[v] ==> w in visited || w in stack)
    && (forall v :: v in visited || v in stack ==> exists d :: d in deps && Leads(g, d, v))
  }

  lemma PopNew(g: Graph, target: Id, deps: seq<Id>, visited: set<Id>, stack: seq<Id>, v: Id, next: seq<Id>)
    requires stack != [] && v == stack[|stack| - 1] && v != target && Frontier(g, target, deps, visited, stack)
    requires next == if v in g then g[v] else []
    ensures Frontier(g, target, deps, visited + {v}, stack[..|stack| - 1] + next)
  {
    hide Leads;
    var s := stack[..|stack| - 1] + next;
    assert stack == stack[..|stack| - 1] + [v];
    assert v in stack;
    var d0 :| d0 in deps && Leads(g, d0, v);
    forall x | x in visited + {v} || x in s ensures exists d :: d in deps && Leads(g, d, x) {
      if x in next { LeadsOn(g, d0, v, x); }
    }
  }

  lemma PopSeen(g: Graph, target: Id, deps: seq<Id>, visited: set<Id>, stack: seq<Id>)
    requires stack != [] && stack[|stack| - 1] in visited && Frontier(g, target, deps, visited, stack)
    ensures Frontier(g, target, deps, visited, stack[..|stack| - 1])
  {
    hide Leads;
    var s := stack[..|stack| - 1];
    assert stack == s + [stack[|stack| - 1]];
    forall x | x in visited || x in s ensures exists d :: d in deps && Leads(g, d, x) { assert x in visited || x in stack; }
  }

  /** Nothing waiting and no target seen: no way back. */
  lemma NoWayBack(g: Graph, target: Id, deps: seq<Id>, visited: set<Id>)
    requires Frontier(g, target, deps, visited, [])
    ensures !LeadsBack(g, target, deps)
  {
    assert Trap(g, visited);
    forall d | d in deps ensures !Leads(g, d, target) {
      if Leads(g, d, target) {
        var u :| Reaches(g, d, u) && target in g[u];
        ReachInside(g, d, u);
        Trapped(g, visited, d, u);
        assert false;
      }
    }
  }

  /** The check of one proposed record: each dependency exists and is not the ticket
      itself, and none leads back to the ticket over the existing graph. */
  method CheckDependencies(g: Graph, target: Id, deps: seq<Id>) returns (r: Verdict)
    ensures r.Accepted? <==> target !in deps && (forall d :: d in deps ==> d in g) && !LeadsBack(g, target, deps)
    ensures r == Rejected(Cycle) ==> LeadsBack(g, target, deps)
    ensures r.Rejected? && r.why.Missing? ==> r.why.id in deps && r.why.id !in g
    ensures r == Rejected(SelfCycle) ==> target in deps
  {
    var i := 0;
    while i < |deps|
      invariant i <= |deps| && forall j :: 0 <= j < i ==> deps[j] != target && deps[j] in g
    {
      if deps[i] == target { return Rejected(SelfCycle); }
      if deps[i] !in g { return Rejected(Missing(deps[i])); }
      i := i + 1;
    }
    var found := SearchBack(g, target, deps);
    return if found then Rejected(Cycle) else Accepted;
  }

  /** Depth-first from the dependencies, over an explicit stack. */
  method SearchBack(g: Graph, target: Id, deps: seq<Id>) returns (found: bool)
    ensures found <==> LeadsBack(g, target, deps)
  {
    hide Leads, Frontier;
    var visited: set<Id> := {};
    var stack := deps;
    FrontierStarts(g, target, deps);
    while stack != []
      invariant Frontier(g, target, deps, visited, stack)
      decreases |g.Keys - visited|, |stack|
    {
      var v := stack[|stack| - 1];
      assert v in stack;
      if v == target {
        FrontierLeads(g, target, deps, visited, stack, v);
        return true;
      }
      if v in visited {
        PopSeen(g, target, deps, visited, stack);
        stack := stack[..|stack| - 1];
      } else {
        var next := if v in g then g[v] else [];
        PopNew(g, target, deps, visited, stack, v, next);
        LeftToVisit(g.Keys, visited, v);
        stack := stack[..|stack| - 1] + next;
        visited := visited + {v};
      }
    }
    NoWayBack(g, target, deps, visited);
    found := false;
  }

  lemma FrontierStarts(g: Graph, target: Id, deps: seq<Id>)
    ensures Frontier(g, target, deps, {}, deps)
  {
    forall v | v in deps ensures exists d :: d in deps && Leads(g, d, v) { assert Leads(g, v, v); }
  }

  lemma FrontierLeads(g: Graph, target: Id, deps: seq<Id>, visited: set<Id>, stack: seq<Id>, v: Id)
    requires Frontier(g, target, deps, visited, stack) && v in stack
    ensures exists d :: d in deps && Leads(g, d, v)
  {
  }

  lemma LeftToVisit(all: set<Id>, visited: set<Id>, v: Id)
    requires v !in visited
    ensures if v in all then |all - (visited + {v})| < |all - visited| else all - (visited + {v}) == all - visited
  {
    if v in all { assert all - visited == all - (visited + {v}) + {v}; }
  }

  // ----- what acceptance means -----

  /** A path of the overlay that stays off the target is a path of the graph, and the
      other way round. */
  lemma {:induction false} OffTarget(g: Graph, h: Graph, target: Id, p: seq<Id>)
    requires IsPath(g, p) && target !in p && forall v :: v in g && v != target ==> v in h && h[v] == g[v]
    ensures IsPath(h, p)
  {
    forall i | 0 <= i < |p| - 1 ensures Edge(h, p[i], p[i + 1]) { assert Edge(g, p[i], p[i + 1]); }
  }

  /** The part of a path up to its first visit of the target. */
  lemma {:induction false} UpTo(g: Graph, p: seq<Id>, target: Id) returns (k: nat)
    requires target in p
    ensures k < |p| && p[k] == target && target !in p[..k]
  {
    k := 0;
    while p[k] != target
      invariant k < |p| && target !in p[..k] && target in p[k..]
      decreases |p| - k
    {
      assert p[k..] == [p[k]] + p[k + 1..] && p[..k + 1] == p[..k] + [p[k]];
      k := k + 1;
    }
  }

  lemma PathPart(g: Graph, p: seq<Id>, k: nat)
    requires IsPath(g, p) && 0 < k <= |p|
    ensures Joins(g, p[..k], p[0], p[k - 1])
  {
    var q := p[..k];
    forall i | 0 <= i < |q| - 1 ensures Edge(g, q[i], q[i + 1]) { assert Edge(g, p[i], p[i + 1]); }
  }

  lemma PathRest(g: Graph, p: seq<Id>, k: nat)
    requires IsPath(g, p) && k < |p|
    ensures Joins(g, p[k..], p[k], p[|p| - 1])
  {
    var q := p[k..];
    forall i | 0 <= i < |q| - 1 ensures Edge(g, q[i], q[i + 1]) { assert Edge(g, p[k + i], p[k + i + 1]); }
  }

  /** Walking to the target in one graph means reaching it in the other, up to the first
      time it is met. */
  lemma MeetsTarget(g: Graph, h: Graph, target: Id, v: Id)
    requires v != target && v in g && target in g && (forall x :: x in g && x != target ==> x in h && h[x] == g[x])
    requires Reaches(g, v, target)
    ensures Leads(h, v, target)
  {
    var p :| Joins(g, p, v, target);
    assert p[|p| - 1] in p;
    var k := UpTo(g, p, target);
    PathPart(g, p, k);
    var q := p[..k];
    OffTarget(g, h, target, q);
    assert Joins(h, q, v, q[|q| - 1]) && Reaches(h, v, q[|q| - 1]);
    assert Edge(g, p[k - 1], p[k - 1 + 1]);
    assert q[k - 1] in q;
  }

  /** What the overlay must satisfy is what the check looks for. */
  lemma AcceptsAcyclic(g: Graph, target: Id, deps: seq<Id>)
    requires Closed(g) && Acyclic(g)
    ensures target !in deps && (forall d :: d in deps ==> d in g) && !LeadsBack(g, target, deps)
      <==> Closed(Overlay(g, target, deps)) && Acyclic(Overlay(g, target, deps))
  {
    var h := Overlay(g, target, deps);
    if target !in deps && (forall d :: d in deps ==> d in g) && !LeadsBack(g, target, deps) {
      OverlayAcyclic(g, target, deps);
    }
    if Closed(h) && Acyclic(h) { AcyclicAccepted(g, target, deps); }
  }

  lemma AcyclicAccepted(g: Graph, target: Id, deps: seq<Id>)
    requires Closed(Overlay(g, target, deps)) && Acyclic(Overlay(g, target, deps))
    ensures target !in deps && (forall d :: d in deps ==> d in g) && !LeadsBack(g, target, deps)
  {
    var h := Overlay(g, target, deps);
    assert h[target] == deps;
    if target in deps {
      ReachSelf(h, target);
      assert Edge(h, target, target);
      assert OnCycle(h, target);
      assert false;
    }
    forall d | d in deps ensures d in g { assert d in h; }
    if LeadsBack(g, target, deps) {
      var d :| d in deps && Leads(g, d, target);
      LeadsReaches(g, h, target, d);
      assert Edge(h, target, d);
      assert OnCycle(h, target);
      assert false;
    }
  }

  /** Leading to the target in the graph, one reaches it in the overlay. */
  lemma LeadsReaches(g: Graph, h: Graph, target: Id, d: Id)
    requires d != target && d in g && target in h && (forall x :: x in g && x != target ==> x in h && h[x] == g[x])
    requires Leads(g, d, target)
    ensures Reaches(h, d, target)
  {
    var u :| Reaches(g, d, u) && target in g[u];
    var p :| Joins(g, p, d, u);
    if target in p {
      var k := UpTo(g, p, target);
      PathPart(g, p, k);
      WalksOver(g, h, target, p[..k], p[k - 1]);
      assert Edge(g, p[k - 1], p[k - 1 + 1]);
      assert p[..k][k - 1] == p[k - 1] && p[k - 1] != target by { assert p[..k][k - 1] in p[..k]; }
      ReachEdge(h, p[k - 1], target);
      ReachTrans(h, d, p[k - 1], target);
    } else {
      WalksOver(g, h, target, p, u);
      assert p[|p| - 1] in p;
      ReachEdge(h, u, target);
      ReachTrans(h, d, u, target);
    }
  }

  lemma WalksOver(g: Graph, h: Graph, target: Id, p: seq<Id>, u: Id)
    requires IsPath(g, p) && target !in p && p[|p| - 1] == u && (forall x :: x in g && x != target ==> x in h && h[x] == g[x])
    ensures Reaches(h, p[0], u)
  {
    OffTarget(g, h, target, p);
    assert Joins(h, p, p[0], u);
  }

  lemma OverlayAcyclic(g: Graph, target: Id, deps: seq<Id>)
    requires Closed(g) && Acyclic(g)
    requires target !in deps && (forall d :: d in deps ==> d in g) && !LeadsBack(g, target, deps)
    ensures Closed(Overlay(g, target, deps)) && Acyclic(Overlay(g, target, deps))
  {
    var h := Overlay(g, target, deps);
    forall v | v in h ensures !OnCycle(h, v) {
      if OnCycle(h, v) {
        var w :| Edge(h, v, w) && Reaches(h, w, v);
        var p :| Joins(h, p, w, v);
        CycleThrough(g, target, deps, v, p);
        assert false;
      }
    }
  }

  /** A cycle of the overlay would be a cycle of the graph, or a way back. */
  lemma CycleThrough(g: Graph, target: Id, deps: seq<Id>, v: Id, p: seq<Id>)
    requires Closed(g) && Acyclic(g)
    requires target !in deps && (forall d :: d in deps ==> d in g)
    requires p != [] && v in Overlay(g, target, deps) && Edge(Overlay(g, target, deps), v, p[0]) && Joins(Overlay(g, target, deps), p, p[0], v)
    ensures LeadsBack(g, target, deps)
  {
    var h := Overlay(g, target, deps);
    if target in p {
      var k := UpTo(h, p, target);
      PathRest(h, p, k);
      PathPart(h, p, k + 1);
      ReachEdge(h, v, p[0]);
      assert Joins(h, p[..k + 1], p[0], target) && Joins(h, p[k..], target, v);
      ReachTrans(h, target, v, p[0]);
      if p[0] == target {
        TargetCycle(g, target, deps, v);
      } else {
        TargetCycle(g, target, deps, p[0]);
      }
    } else {
      OffTarget(h, g, target, p);
      assert p[|p| - 1] in p && p[0] in p;
      assert Edge(g, v, p[0]) && Joins(g, p, p[0], v);
      assert OnCycle(g, v);
      assert false;
    }
  }

  /** A round trip from the target in the overlay is a way back in the graph. */
  lemma TargetCycle(g: Graph, target: Id, deps: seq<Id>, x: Id)
    requires Closed(g) && target !in deps && forall d :: d in deps ==> d in g
    requires Reaches(Overlay(g, target, deps), target, x) && Reaches(Overlay(g, target, deps), x, target) && x != target
    ensures LeadsBack(g, target, deps)
  {
    var h := Overlay(g, target, deps);
    var d := FirstStep(h, target, x);
    assert d in deps;
    ReachTrans(h, d, x, target);
    MeetsTarget(h, g, target, d);
  }

  // ----- runs -----

  /** One accepted change of one ticket's dependencies: a creation, a SET_DEPENDENCIES or
      an adopted file, each of which runs the check when the dependencies change. */
  ghost predicate Changes(g: Graph, h: Graph) {
    || h == g
    || exists target, deps :: h == Overlay(g, target, deps)
         && target !in deps && (forall d :: d in deps ==> d in g) && !LeadsBack(g, target, deps)
  }

  /** Over every run of accepted changes the graph stays closed and acyclic. */
  lemma {:induction false} RunsStayAcyclic(run: seq<Graph>, n: nat)
    requires n < |run| && Closed(run[0]) && Acyclic(run[0])
    requires forall i {:trigger run[i]} :: 0 < i < |run| ==> Changes(run[i - 1], run[i])
    ensures Closed(run[n]) && Acyclic(run[n])
  {
    if n > 0 {
      RunsStayAcyclic(run, n - 1);
      var g, h := run[n - 1], run[n];
      assert Changes(g, h);
      if h != g {
        var target, deps :| h == Overlay(g, target, deps)
          && target !in deps && (forall d :: d in deps ==> d in g) && !LeadsBack(g, target, deps);
        OverlayAcyclic(g, target, deps);
      }
    }
  }

  // ----- releases -----

  datatype Release = Release(releaseId: Id, queueId: string, predecessors: seq<Id>)

  /** The predecessor graph of some releases. */
  function PredecessorGraph(rs: seq<Release>): Graph {
    if rs == [] then map[] else PredecessorGraph(rs[..|rs| - 1])[rs[|rs| - 1].releaseId := rs[|rs| - 1].predecessors]
  }

  predicate OneQueue(rs: seq<Release>) { forall i, j :: 0 <= i < j < |rs| ==> rs[i].queueId == rs[j].queueId }

  predicate UniqueIds(rs: seq<Release>) { forall i, j :: 0 <= i < j < |rs| ==> rs[i].releaseId != rs[j].releaseId }

  /** Finished releases: their predecessors are finished, and none is on a cycle. */
  ghost predicate Finished(g: Graph, done: set<Id>) {
    && (forall v :: v in done ==> v in g && !OnCycle(g, v))
    && (forall v, w :: v in done && w in g[v] ==> w in done)
  }

  /** The visits under way, each a predecessor of the one before. */
  predicate Trail(g: Graph, trail: seq<Id>) {
    && (forall i :: 0 <= i < |trail| ==> trail[i] in g)
    && forall i :: 0 <= i < |trail| - 1 ==> Edge(g, trail[i], trail[i + 1])
  }

  lemma TrailCycle(g: Graph, trail: seq<Id>, v: Id)
    requires trail != [] && Trail(g, trail) && v in trail && Edge(g, trail[|trail| - 1], v)
    ensures !Acyclic(g)
  {
    var i :| 0 <= i < |trail| && trail[i] == v;
    var q, last := trail[i..], trail[|trail| - 1];
    forall j | 0 <= j < |q| - 1 ensures Edge(g, q[j], q[j + 1]) { assert Edge(g, trail[i + j], trail[i + j + 1]); }
    assert Joins(g, q, v, last);
    assert OnCycle(g, last);
  }

  /** A release whose predecessors are all finished is on no cycle. */
  lemma FinishOne(g: Graph, done: set<Id>, v: Id)
    requires Finished(g, done) && v in g && v !in done && forall w :: w in g[v] ==> w in done
    ensures Finished(g, done + {v})
  {
    if OnCycle(g, v) {
      var w :| Edge(g, v, w) && Reaches(g, w, v);
      assert Trap(g, done);
      Trapped(g, done, w, v);
      assert false;
    }
  }

  predicate AllVisited(xs: seq<Id>, n: nat, after: set<Id>) {
    forall j :: 0 <= j < n && j < |xs| ==> xs[j] in after
  }

  lemma NoneVisited(xs: seq<Id>, after: set<Id>)
    ensures AllVisited(xs, 0, after)
  {
  }

  lemma VisitedMore(xs: seq<Id>, n: nat, before: set<Id>, after: set<Id>)
    requires n < |xs| && AllVisited(xs, n, before) && before <= after && xs[n] in after
    ensures AllVisited(xs, n + 1, after)
  {
  }

  lemma EachVisited(xs: seq<Id>, after: set<Id>)
    requires AllVisited(xs, |xs|, after)
    ensures forall x :: x in xs ==> x in after
  {
  }


  /** Depth-first colouring: `done` releases are finished, those on `trail` under way. */
  method VisitRelease(g: Graph, v: Id, done: set<Id>, trail: seq<Id>) returns (ok: bool, after: set<Id>)
    requires v in g && Trail(g, trail) && (trail != [] ==> Edge(g, trail[|trail| - 1], v))
    requires Finished(g, done) && (forall x :: x in trail ==> x !in done)
    ensures ok ==> Finished(g, after) && done <= after && v in after && forall x :: x in trail ==> x !in after
    ensures !ok ==> !(Closed(g) && Acyclic(g))
    decreases |g.Keys - (set x | x in trail)|
  {
    hide Finished, Trail, Acyclic, AllVisited;
    after := done;
    if v in trail {
      TrailCycle(g, trail, v);
      return false, after;
    }
    if v in done { return true, after; }
    var here := trail + [v];
    TrailGrows(g, trail, v);
    var i := 0;
    NoneVisited(g[v], after);
    while i < |g[v]|
      invariant i <= |g[v]| && Finished(g, after) && done <= after
      invariant AllVisited(g[v], i, after)
      invariant forall x :: x in here ==> x !in after
    {
      if g[v][i] !in g {
        assert g[v][i] in g[v];
        return false, after;
      }
      assert Edge(g, v, g[v][i]);
      ghost var before := after;
      ok, after := VisitRelease(g, g[v][i], after, here);
      if !ok { return; }
      VisitedMore(g[v], i, before, after);
      i := i + 1;
    }
    assert v in here;
    EachVisited(g[v], after);
    FinishOne(g, after, v);
    after := after + {v};
    ok := true;
  }

  lemma TrailOn(g: Graph, trail: seq<Id>, v: Id)
    requires v in g && Trail(g, trail) && (trail != [] ==> Edge(g, trail[|trail| - 1], v))
    ensures Trail(g, trail + [v])
  {
    hide Edge;
    var here := trail + [v];
    forall i | 0 <= i < |here| - 1 ensures Edge(g, here[i], here[i + 1]) {
      if i < |trail| - 1 { assert Edge(g, trail[i], trail[i + 1]); }
    }
  }

  lemma TrailGrows(g: Graph, trail: seq<Id>, v: Id)
    requires v in g && v !in trail && Trail(g, trail) && (trail != [] ==> Edge(g, trail[|trail| - 1], v))
    ensures Trail(g, trail + [v])
    ensures |g.Keys - (set x | x in trail + [v])| < |g.Keys - (set x | x in trail)|
  {
    TrailOn(g, trail, v);
    TrailMembers(trail, v);
    Shrinks(g.Keys, (set x | x in trail), (set x | x in trail + [v]), v);
  }

  lemma TrailMembers(trail: seq<Id>, v: Id)
    ensures (set x | x in trail + [v]) == (set x | x in trail) + {v}
  {
  }

  lemma Shrinks(all: set<Id>, s: set<Id>, t: set<Id>, v: Id)
    requires v in all && v !in s && t == s + {v}
    ensures |all - t| < |all - s|
  {
    assert all - s == (all - t) + {v};
  }

  lemma GraphMore(rs: seq<Release>, i: nat)
    requires i < |rs|
    ensures PredecessorGraph(rs[..i + 1]) == PredecessorGraph(rs[..i])[rs[i].releaseId := rs[i].predecessors]
  {
    assert rs[..i + 1][..i] == rs[..i];
  }

  /** The whole set: one queue, distinct identifiers, every predecessor known, no cycle. */
  method ValidateGraph(rs: seq<Release>) returns (ok: bool)
    ensures ok <==> OneQueue(rs) && UniqueIds(rs) && Closed(PredecessorGraph(rs)) && Acyclic(PredecessorGraph(rs))
  {
    assert PredecessorGraph(rs[..0]) == map[];
    hide PredecessorGraph, Closed, Acyclic;
    var g: Graph := map[];
    var i := 0;
    while i < |rs|
      invariant i <= |rs| && g == PredecessorGraph(rs[..i])
      invariant OneQueue(rs[..i]) && UniqueIds(rs[..i])
      invariant forall v :: v in g <==> exists j :: 0 <= j < i && rs[j].releaseId == v
    {
      GraphMore(rs, i);
      if rs[i].queueId != rs[0].queueId {
        assert rs[0].queueId != rs[i].queueId && i > 0;
        return false;
      }
      if rs[i].releaseId in g { return false; }
      g := g[rs[i].releaseId := rs[i].predecessors];
      i := i + 1;
    }
    assert rs[..i] == rs;
    ok := Colour(g);
  }

  method Colour(g: Graph) returns (ok: bool)
    ensures ok <==> Closed(g) && Acyclic(g)
  {
    var done: set<Id> := {};
    var rest := g.Keys;
    while rest != {}
      invariant rest <= g.Keys && Finished(g, done) && forall v :: v in g && v !in rest ==> v in done
      decreases |rest|
    {
      var v :| v in rest;
      rest := rest - {v};
      ok, done := VisitRelease(g, v, done, []);
      if !ok { return; }
    }
    ok := true;
  }
}
