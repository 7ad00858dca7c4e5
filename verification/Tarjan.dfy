/** Tarjan's algorithm as the inventory runs it: one recursive visit over a stack, an
    index and a low link, and the component each ticket on a cycle belongs to. */
module Tarjan {
  import opened Graph

  /** The state of a search: visit numbers, the stack, and the visits under way. */
  datatype Snap = Snap(indices: map<Id, nat>, next: nat, stack: seq<Id>, grays: set<Id>)

  predicate Numbered(g: Graph, s: Snap) {
    && s.indices.Keys <= g.Keys
    && (forall v :: v in s.indices ==> s.indices[v] < s.next)
    && (forall v, w :: v in s.indices && w in s.indices && v != w ==> s.indices[v] != s.indices[w])
  }

  /** The stack holds visited nodes in visit order; visits under way are on it. */
  predicate Stacked(s: Snap) {
    && (forall v :: v in s.stack ==> v in s.indices)
    && (forall i, j :: 0 <= i < j < |s.stack| ==> s.stack[i] in s.indices && s.stack[j] in s.indices && s.indices[s.stack[i]] < s.indices[s.stack[j]])
    && (forall v :: v in s.grays ==> v in s.stack)
  }

  /** A finished visit leaves no successor unvisited. */
  ghost predicate Darkened(g: Graph, s: Snap) {
    forall v, w :: v in s.indices && v !in s.grays && Edge(g, v, w) ==> w in s.indices
  }

  predicate Sealed(s: Snap, v: Id) { v in s.indices && v !in s.stack }

  /** Nothing leads back from a popped component to the stack, or to what is unvisited. */
  ghost predicate SealsHold(g: Graph, s: Snap) {
    forall v, w :: Sealed(s, v) && Edge(g, v, w) ==> Sealed(s, w)
  }

  /** Every stacked node reaches a visit under way at or below it. */
  ghost predicate RootedAt(g: Graph, s: Snap, y: Id) {
    y in s.indices && exists x :: x in s.grays && x in s.indices && s.indices[x] <= s.indices[y] && Reaches(g, y, x)
  }

  ghost predicate Rooted(g: Graph, s: Snap) { forall y :: y in s.stack ==> RootedAt(g, s, y) }

  /** Every visit under way reaches whatever is stacked at or above it. */
  ghost predicate Spread(g: Graph, s: Snap) {
    forall x, y :: x in s.grays && y in s.stack && x in s.indices && y in s.indices && s.indices[x] <= s.indices[y] ==> Reaches(g, x, y)
  }

  ghost predicate Sound(g: Graph, s: Snap) {
    Numbered(g, s) && Stacked(s) && Darkened(g, s) && SealsHold(g, s) && Rooted(g, s) && Spread(g, s)
  }

  /** `t` came after `s` with the same visits under way. */
  predicate Extends(s: Snap, t: Snap) {
    && (forall v :: v in s.indices ==> v in t.indices && t.indices[v] == s.indices[v])
    && s.stack <= t.stack && s.next <= t.next
    && (forall v :: v in t.indices && v !in s.indices ==> t.indices[v] >= s.next)
  }

  // ----- the transitions -----

  function Pushed(s: Snap, v: Id): Snap { Snap(s.indices[v := s.next], s.next + 1, s.stack + [v], s.grays + {v}) }

  ghost predicate Pushable(g: Graph, s: Snap, v: Id) {
    Sound(g, s) && v in g && v !in s.indices && forall x :: x in s.grays ==> Reaches(g, x, v)
  }

  lemma PushRooted(g: Graph, s: Snap, v: Id)
    requires Rooted(g, s) && v in g && v !in s.indices
    ensures Rooted(g, Pushed(s, v))
  {
    var t := Pushed(s, v);
    ReachSelf(g, v);
    forall y | y in t.stack ensures RootedAt(g, t, y) {
      if y == v {
        assert v in t.grays;
      } else {
        assert y in s.stack && RootedAt(g, s, y);
        var x :| x in s.grays && x in s.indices && s.indices[x] <= s.indices[y] && Reaches(g, y, x);
        assert x in t.grays && t.indices[x] == s.indices[x];
      }
    }
  }

  lemma PushSpread(g: Graph, s: Snap, v: Id)
    requires Spread(g, s) && Numbered(g, s) && Stacked(s) && v in g && v !in s.indices && forall x :: x in s.grays ==> Reaches(g, x, v)
    ensures Spread(g, Pushed(s, v))
  {
    var t := Pushed(s, v);
    ReachSelf(g, v);
    forall x, y | x in t.grays && y in t.stack && x in t.indices && y in t.indices && t.indices[x] <= t.indices[y] ensures Reaches(g, x, y) {
      assert y in s.stack || y == v;
      assert y in s.stack ==> s.indices[y] < s.next;
      assert x == v || x in s.grays;
    }
  }

  lemma PushSound(g: Graph, s: Snap, v: Id)
    requires Pushable(g, s, v)
    ensures Sound(g, Pushed(s, v))
  {
    hide Rooted, Spread, Reaches;
    var t := Pushed(s, v);
    PushRooted(g, s, v);
    PushSpread(g, s, v);
    forall a, b | Sealed(t, a) && Edge(g, a, b) ensures Sealed(t, b) { assert Sealed(s, a) && Sealed(s, b); }
  }

  /** The visit of `v` is the innermost one. */
  predicate Innermost(s: Snap, v: Id) {
    v in s.indices && v in s.grays && forall x :: x in s.grays && x in s.indices && x != v ==> s.indices[x] < s.indices[v]
  }

  ghost predicate Explored(g: Graph, s: Snap, v: Id) { forall w :: Edge(g, v, w) ==> w in s.indices }

  function Blackened(s: Snap, v: Id): Snap { s.(grays := s.grays - {v}) }

  lemma BlackenRooted(g: Graph, s: Snap, v: Id, y0: Id)
    requires Rooted(g, s) && Innermost(s, v)
    requires y0 in s.stack && y0 in s.indices && s.indices[y0] < s.indices[v] && Reaches(g, v, y0)
    ensures Rooted(g, Blackened(s, v))
  {
    var t := Blackened(s, v);
    assert RootedAt(g, s, y0);
    var x0 :| x0 in s.grays && x0 in s.indices && s.indices[x0] <= s.indices[y0] && Reaches(g, y0, x0);
    assert x0 in t.grays;
    forall y | y in t.stack ensures RootedAt(g, t, y) {
      assert RootedAt(g, s, y);
      var x :| x in s.grays && x in s.indices && s.indices[x] <= s.indices[y] && Reaches(g, y, x);
      if x == v {
        ReachTrans(g, y, v, y0);
        ReachTrans(g, y, y0, x0);
      } else {
        assert x in t.grays;
      }
    }
  }

  /** A visit that found a way further down ends, and its nodes stay stacked. */
  lemma BlackenSound(g: Graph, s: Snap, v: Id, y0: Id)
    requires Sound(g, s) && Innermost(s, v) && Explored(g, s, v)
    requires y0 in s.stack && y0 in s.indices && s.indices[y0] < s.indices[v] && Reaches(g, v, y0)
    ensures Sound(g, Blackened(s, v))
  {
    hide Rooted, Reaches;
    var t := Blackened(s, v);
    BlackenRooted(g, s, v, y0);
    forall a, b | Sealed(t, a) && Edge(g, a, b) ensures Sealed(t, b) { assert Sealed(s, a) && Sealed(s, b); }
  }

  // ----- popping a component -----

  /** The stack from `v` up, when the visit of `v` found no way further down. */
  ghost predicate Complete(g: Graph, s: Snap, n: nat) {
    && n < |s.stack| && Innermost(s, s.stack[n]) && Explored(g, s, s.stack[n])
    && forall x, y :: x in s.stack[n..] && y in s.stack[..n] ==> !Edge(g, x, y)
  }

  lemma StackSides(s: Snap, n: nat, y: Id)
    requires Stacked(s) && n < |s.stack| && y in s.stack
    ensures y in s.indices && s.stack[n] in s.indices
    ensures y in s.stack[n..] <==> s.indices[y] >= s.indices[s.stack[n]]
    ensures y in s.stack[..n] <==> s.indices[y] < s.indices[s.stack[n]]
  {
    var j :| 0 <= j < |s.stack| && s.stack[j] == y;
    if j < n {
      assert s.stack[..n][j] == y;
      assert forall k :: n <= k < |s.stack| ==> s.stack[k] != y;
    } else {
      assert s.stack[n..][j - n] == y;
      assert forall k :: 0 <= k < n ==> s.stack[k] != y;
    }
  }

  /** From the top part, every edge stays in it or goes to what is popped already. */
  lemma TopIsTrap(g: Graph, s: Snap, n: nat)
    requires Sound(g, s) && Complete(g, s, n)
    ensures Trap(g, set x | x in s.indices && (x in s.stack[n..] || x !in s.stack))
  {
    var v := s.stack[n];
    var top := set x | x in s.indices && (x in s.stack[n..] || x !in s.stack);
    forall a, b | a in top && Edge(g, a, b) ensures b in top {
      if a in s.stack[n..] {
        assert a in s.stack;
        StackSides(s, n, a);
        assert a != v ==> a !in s.grays;
        assert b in s.indices;
        if b in s.stack { StackSides(s, n, b); }
      } else {
        assert Sealed(s, a);
        assert Sealed(s, b);
      }
    }
  }

  lemma SealsAreTrap(g: Graph, s: Snap)
    requires SealsHold(g, s)
    ensures Trap(g, set x | x in s.indices && x !in s.stack)
  {
    var z := set x | x in s.indices && x !in s.stack;
    forall a, b | a in z && Edge(g, a, b) ensures b in z {
      assert Sealed(s, a);
      assert Sealed(s, b);
    }
  }

  /** The top part is exactly the component of its root. */
  lemma TopIsComponent(g: Graph, s: Snap, n: nat)
    requires Sound(g, s) && Complete(g, s, n)
    ensures forall w :: w in s.stack[n..] <==> w in Component(g, s.stack[n])
  {
    var v := s.stack[n];
    forall w | w in s.stack[n..] ensures w in Component(g, v) { TopReaches(g, s, n, w); }
    forall w | w in Component(g, v) ensures w in s.stack[n..] {
      TopIsTrap(g, s, n);
      var top := set x | x in s.indices && (x in s.stack[n..] || x !in s.stack);
      var sealed := set x | x in s.indices && x !in s.stack;
      assert v in s.stack && v == s.stack[n..][0];
      Trapped(g, top, v, w);
      SealsAreTrap(g, s);
      if w in sealed {
        Trapped(g, sealed, w, v);
        assert false;
      }
    }
  }

  lemma TopReaches(g: Graph, s: Snap, n: nat, w: Id)
    requires Sound(g, s) && Complete(g, s, n) && w in s.stack[n..]
    ensures w in g && Reaches(g, s.stack[n], w) && Reaches(g, w, s.stack[n])
  {
    hide Darkened, SealsHold;
    hide Reaches;
    var v := s.stack[n];
    assert w in s.stack && v in s.stack;
    StackSides(s, n, w);
    assert Reaches(g, v, w);
    assert RootedAt(g, s, w);
    var x :| x in s.grays && x in s.indices && s.indices[x] <= s.indices[w] && Reaches(g, w, x);
    if x != v {
      assert x in s.stack && Reaches(g, x, v);
      ReachTrans(g, w, x, v);
    }
  }

  function Popped(s: Snap, n: nat): Snap
    requires n < |s.stack|
  {
    Snap(s.indices, s.next, s.stack[..n], s.grays - {s.stack[n]})
  }

  lemma PopGrays(s: Snap, n: nat)
    requires Stacked(s) && n < |s.stack| && Innermost(s, s.stack[n])
    ensures forall x :: x in Popped(s, n).grays ==> x in Popped(s, n).stack
  {
    forall x | x in Popped(s, n).grays ensures x in Popped(s, n).stack { StackSides(s, n, x); }
  }

  lemma RootStays(g: Graph, s: Snap, n: nat, y: Id)
    requires n < |s.stack| && RootedAt(g, s, y) && s.stack[n] in s.indices && s.indices[y] < s.indices[s.stack[n]]
    ensures RootedAt(g, Popped(s, n), y)
  {
    hide Reaches;
    var x :| x in s.grays && x in s.indices && s.indices[x] <= s.indices[y] && Reaches(g, y, x);
    assert x in Popped(s, n).grays;
  }

  lemma PopRooted(g: Graph, s: Snap, n: nat)
    requires Rooted(g, s) && Stacked(s) && n < |s.stack|
    ensures Rooted(g, Popped(s, n))
  {
    hide RootedAt;
    var t := Popped(s, n);
    forall y | y in t.stack ensures RootedAt(g, t, y) {
      assert y in s.stack;
      StackSides(s, n, y);
      RootStays(g, s, n, y);
    }
  }

  lemma PopSealed(g: Graph, s: Snap, n: nat)
    requires Sound(g, s) && Complete(g, s, n)
    ensures SealsHold(g, Popped(s, n))
    ensures forall x :: Sealed(Popped(s, n), x) <==> Sealed(s, x) || x in s.stack[n..]
  {
    var t := Popped(s, n);
    TopIsTrap(g, s, n);
    var top := set x | x in s.indices && (x in s.stack[n..] || x !in s.stack);
    forall x ensures Sealed(t, x) <==> x in top {
      if x in s.stack { StackSides(s, n, x); }
    }
    forall a, b | Sealed(t, a) && Edge(g, a, b) ensures Sealed(t, b) { assert a in top && b in top; }
  }

  lemma PopSound(g: Graph, s: Snap, n: nat)
    requires Sound(g, s) && Complete(g, s, n)
    ensures Sound(g, Popped(s, n))
  {
    hide Rooted, Reaches, SealsHold;
    PopGrays(s, n);
    PopRooted(g, s, n);
    PopSealed(g, s, n);
  }

  // ----- what a visit promises -----

  /** `n` is the low link of `v` when its visit, entered at `s`, has ended at `t`. */
  ghost predicate Returned(g: Graph, s: Snap, t: Snap, v: Id, n: nat) {
    && v in t.indices && n <= t.indices[v]
    && (n == t.indices[v] ==> t.stack == s.stack)
    && (n < t.indices[v] ==> Linked(g, t, s.stack, v, n))
    && NoEdgeBelow(g, t, |s.stack|, s.stack, n)
  }

  /** `v` reaches the node of `among` that was visited `n`-th. */
  ghost predicate Linked(g: Graph, t: Snap, among: seq<Id>, v: Id, n: nat) {
    exists y :: y in among && y in t.indices && t.indices[y] == n && Reaches(g, v, y)
  }

  /** No edge from the stack above `from` leads into `below` under `n`. */
  ghost predicate NoEdgeBelow(g: Graph, t: Snap, from: nat, below: seq<Id>, n: nat) {
    from <= |t.stack| && forall x, y :: x in t.stack[from..] && y in below && Edge(g, x, y) ==> y in t.indices && n <= t.indices[y]
  }

  /** The visit of `v`, entered at `s`, has looked at its first `i` edges. */
  ghost predicate Visiting(g: Graph, s: Snap, t: Snap, v: Id, n: nat, deps: seq<Id>, i: nat) {
    && Extends(Pushed(s, v), t) && t.grays == s.grays + {v}
    && v in t.indices && t.indices[v] == s.next && n <= s.next && i <= |deps|
    && Linked(g, t, t.stack, v, n)
    && NoEdgeBelow(g, t, |s.stack| + 1, s.stack, n)
    && forall j :: 0 <= j < i && deps[j] in g ==> deps[j] in t.indices && (deps[j] in s.stack ==> n <= t.indices[deps[j]])
  }

  lemma ExtendsTrans(s: Snap, t: Snap, u: Snap)
    requires Extends(s, t) && Extends(t, u)
    ensures Extends(s, u)
  {
    assert s.stack <= u.stack by { assert forall i :: 0 <= i < |s.stack| ==> s.stack[i] == t.stack[i] == u.stack[i]; }
  }

  lemma VisitStarts(g: Graph, s: Snap, v: Id, deps: seq<Id>)
    requires Pushable(g, s, v)
    ensures Visiting(g, s, Pushed(s, v), v, s.next, deps, 0)
  {
    var t := Pushed(s, v);
    ReachSelf(g, v);
    assert v in t.stack;
    assert t.stack[|s.stack| + 1..] == [];
  }

  /** Every visit under way reaches the next edge's end. */
  lemma GraysReach(g: Graph, t: Snap, v: Id, w: Id)
    requires Spread(g, t) && Stacked(t) && Innermost(t, v) && Edge(g, v, w)
    ensures forall x :: x in t.grays ==> Reaches(g, x, w)
  {
    ReachEdge(g, v, w);
    forall x | x in t.grays ensures Reaches(g, x, w) {
      assert x in t.stack && v in t.stack;
      assert Reaches(g, x, v);
      ReachTrans(g, x, v, w);
    }
  }

  lemma VisitingInnermost(g: Graph, s: Snap, t: Snap, v: Id, n: nat, deps: seq<Id>, i: nat)
    requires Numbered(g, s) && Stacked(s) && v !in s.indices && Visiting(g, s, t, v, n, deps, i)
    ensures Innermost(t, v)
  {
    hide Linked, NoEdgeBelow;
  }

  function Min(a: nat, b: nat): nat { if b < a then b else a }

  /** After a child visit. */
  lemma AfterChild(g: Graph, s: Snap, t: Snap, u: Snap, v: Id, n: nat, m: nat, deps: seq<Id>, i: nat)
    requires Visiting(g, s, t, v, n, deps, i) && i < |deps| && deps[i] !in t.indices && Edge(g, v, deps[i])
    requires Sound(g, t) && Sound(g, u) && Extends(t, u) && u.grays == t.grays && Returned(g, t, u, deps[i], m)
    ensures Visiting(g, s, u, v, Min(n, m), deps, i + 1)
  {
    hide Sound, Reaches, Linked, NoEdgeBelow;
    ExtendsTrans(Pushed(s, v), t, u);
    StackKept(s, t, v);
    StackedVisited(g, t);
    ChildLink(g, s, t, u, v, n, m, deps, i);
    ChildEdges(g, s, t, u, v, n, m, deps, i);
    forall j | 0 <= j < i + 1 && deps[j] in g ensures deps[j] in u.indices && (deps[j] in s.stack ==> Min(n, m) <= u.indices[deps[j]]) {
      assert deps[i] !in t.stack;
    }
  }

  lemma StackKept(s: Snap, t: Snap, v: Id)
    requires Extends(Pushed(s, v), t)
    ensures forall x :: x in s.stack ==> x in t.stack
  {
    forall x | x in s.stack ensures x in t.stack {
      var i :| 0 <= i < |s.stack| && s.stack[i] == x;
      assert Pushed(s, v).stack[i] == x && t.stack[i] == x;
    }
  }

  lemma StackedVisited(g: Graph, t: Snap)
    requires Sound(g, t)
    ensures forall x :: x in t.stack ==> x in t.indices
  {
  }

  lemma ChildLink(g: Graph, s: Snap, t: Snap, u: Snap, v: Id, n: nat, m: nat, deps: seq<Id>, i: nat)
    requires Visiting(g, s, t, v, n, deps, i) && i < |deps| && deps[i] !in t.indices && Edge(g, v, deps[i])
    requires Sound(g, t) && Extends(t, u) && Returned(g, t, u, deps[i], m)
    ensures Linked(g, u, u.stack, v, Min(n, m))
  {
    hide Sound, NoEdgeBelow;
    var w := deps[i];
    if m < n {
      assert u.indices[w] >= t.next >= s.next + 1 > n;
      assert Linked(g, u, t.stack, w, m);
      var y :| y in t.stack && y in u.indices && u.indices[y] == m && Reaches(g, w, y);
      ReachEdge(g, v, w);
      ReachTrans(g, v, w, y);
      assert y in u.stack;
    } else {
      var y :| y in t.stack && y in t.indices && t.indices[y] == n && Reaches(g, v, y);
      assert y in u.stack;
    }
  }

  lemma ChildEdges(g: Graph, s: Snap, t: Snap, u: Snap, v: Id, n: nat, m: nat, deps: seq<Id>, i: nat)
    requires Visiting(g, s, t, v, n, deps, i) && i < |deps|
    requires Extends(t, u) && Returned(g, t, u, deps[i], m)
    ensures NoEdgeBelow(g, u, |s.stack| + 1, s.stack, Min(n, m))
  {
    hide Reaches, Linked;
    var k := |s.stack| + 1;
    assert |Pushed(s, v).stack| == k && k <= |t.stack| <= |u.stack|;
    forall x, y | x in u.stack[k..] && y in s.stack && Edge(g, x, y) ensures y in u.indices && Min(n, m) <= u.indices[y] {
      var j :| 0 <= j < |u.stack[k..]| && u.stack[k..][j] == x;
      if k + j < |t.stack| {
        assert t.stack[k + j] == x && t.stack[k..][j] == x;
      } else {
        assert u.stack[|t.stack|..][k + j - |t.stack|] == x;
        var l :| 0 <= l < |s.stack| && s.stack[l] == y;
        assert Pushed(s, v).stack[l] == y && t.stack[l] == y;
      }
    }
  }

  /** After an edge to a node already visited. */
  lemma AfterSeen(g: Graph, s: Snap, t: Snap, v: Id, n: nat, deps: seq<Id>, i: nat)
    requires Visiting(g, s, t, v, n, deps, i) && i < |deps| && Edge(g, v, deps[i]) && deps[i] in t.indices
    ensures Visiting(g, s, t, v, if deps[i] in t.stack then Min(n, t.indices[deps[i]]) else n, deps, i + 1)
  {
    var w := deps[i];
    ReachEdge(g, v, w);
    StackKept(s, t, v);
  }

  /** After an edge out of the graph. */
  lemma AfterMissing(g: Graph, s: Snap, t: Snap, v: Id, n: nat, deps: seq<Id>, i: nat)
    requires Visiting(g, s, t, v, n, deps, i) && i < |deps| && deps[i] !in g
    ensures Visiting(g, s, t, v, n, deps, i + 1)
  {
  }

  /** All edges seen: the visit is innermost and explored. */
  lemma VisitEnds(g: Graph, s: Snap, t: Snap, v: Id, n: nat)
    requires Sound(g, s) && v in g && v !in s.indices && Visiting(g, s, t, v, n, g[v], |g[v]|)
    ensures Innermost(t, v) && Explored(g, t, v)
    ensures |s.stack| < |t.stack| && t.stack[|s.stack|] == v && t.stack[..|s.stack|] == s.stack
  {
    hide Rooted, Spread, SealsHold, Linked, NoEdgeBelow;
    assert Pushed(s, v).stack[|s.stack|] == v;
    forall w | Edge(g, v, w) ensures w in t.indices {
      var j :| 0 <= j < |g[v]| && g[v][j] == w;
    }
  }

  lemma FoundRoot(g: Graph, s: Snap, t: Snap, v: Id, n: nat)
    requires Sound(g, s) && Sound(g, t) && v in g && v !in s.indices && Visiting(g, s, t, v, n, g[v], |g[v]|) && n == s.next
    ensures Complete(g, t, |s.stack|)
  {
    hide Numbered, Reaches;
    hide Rooted, Spread, SealsHold, Linked, Darkened;
    VisitEnds(g, s, t, v, n);
    var k := |s.stack|;
    forall x, y | x in t.stack[k..] && y in t.stack[..k] ensures !Edge(g, x, y) {
      assert y in s.stack && y in s.indices && t.indices[y] == s.indices[y] < s.next;
      var j :| 0 <= j < |t.stack[k..]| && t.stack[k..][j] == x;
      if j == 0 {
        assert x == v;
      } else {
        assert t.stack[k + 1..][j - 1] == x;
      }
    }
  }

  lemma FoundLower(g: Graph, s: Snap, t: Snap, v: Id, n: nat)
    requires Sound(g, s) && Sound(g, t) && v in g && v !in s.indices && Visiting(g, s, t, v, n, g[v], |g[v]|) && n < s.next
    ensures Sound(g, Blackened(t, v)) && Returned(g, s, Blackened(t, v), v, n)
  {
    hide Sound, NoEdgeBelow, Explored, Innermost, Linked;
    VisitEnds(g, s, t, v, n);
    SoundIsStacked(g, t);
    LowerLink(g, s, t, v, n);
    LowerEdges(g, s, t, v, n);
    LowerSound(g, s, t, v, n);
  }

  lemma SoundIsStacked(g: Graph, t: Snap)
    requires Sound(g, t)
    ensures Stacked(t)
  {
  }

  lemma LowerSound(g: Graph, s: Snap, t: Snap, v: Id, n: nat)
    requires Sound(g, t) && Innermost(t, v) && Explored(g, t, v) && Linked(g, t, s.stack, v, n) && n < t.indices[v]
    requires s.stack <= t.stack
    ensures Sound(g, Blackened(t, v))
  {
    hide Sound, Explored, Innermost, Reaches;
    var y :| y in s.stack && y in t.indices && t.indices[y] == n && Reaches(g, v, y);
    assert y in t.stack;
    BlackenSound(g, t, v, y);
  }

  lemma LowerLink(g: Graph, s: Snap, t: Snap, v: Id, n: nat)
    requires Stacked(t) && |s.stack| < |t.stack| && t.stack[|s.stack|] == v && t.stack[..|s.stack|] == s.stack
    requires Linked(g, t, t.stack, v, n) && v in t.indices && n < t.indices[v]
    ensures Linked(g, t, s.stack, v, n) && Linked(g, Blackened(t, v), s.stack, v, n)
  {
    var y :| y in t.stack && y in t.indices && t.indices[y] == n && Reaches(g, v, y);
    StackSides(t, |s.stack|, y);
    assert y in s.stack;
  }

  lemma LowerEdges(g: Graph, s: Snap, t: Snap, v: Id, n: nat)
    requires v in g && Visiting(g, s, t, v, n, g[v], |g[v]|)
    requires |s.stack| < |t.stack| && t.stack[|s.stack|] == v
    ensures NoEdgeBelow(g, Blackened(t, v), |s.stack|, s.stack, n)
  {
    hide Linked, Reaches;
    var k := |s.stack|;
    forall x, y | x in t.stack[k..] && y in s.stack && Edge(g, x, y) ensures y in t.indices && n <= t.indices[y] {
      var j :| 0 <= j < |t.stack[k..]| && t.stack[k..][j] == x;
      if j == 0 {
        var l :| 0 <= l < |g[v]| && g[v][l] == y;
      } else {
        assert t.stack[k + 1..][j - 1] == x;
      }
    }
  }

  // ----- what is recorded -----

  ghost predicate ListsComponent(g: Graph, v: Id, xs: seq<Id>) {
    Increasing(xs) && forall w :: w in xs <==> w in Component(g, v)
  }

  /** Exactly the popped nodes that lie on a cycle are recorded, each with its component. */
  ghost predicate CyclesFound(g: Graph, s: Snap, c: map<Id, seq<Id>>) {
    && (forall v :: v in c <==> Sealed(s, v) && OnCycle(g, v))
    && (forall v :: v in c ==> ListsComponent(g, v, c[v]))
  }

  lemma SameComponent(g: Graph, v: Id, w: Id)
    requires w in Component(g, v)
    ensures Component(g, w) == Component(g, v)
  {
    forall x ensures x in Component(g, w) <==> x in Component(g, v) {
      if x in Component(g, w) { ReachTrans(g, v, w, x); ReachTrans(g, x, w, v); }
      if x in Component(g, v) { ReachTrans(g, w, v, x); ReachTrans(g, x, v, w); }
    }
  }

  /** A component is on a cycle when it has two members, or one with an edge to itself. */
  lemma WhenOnCycle(g: Graph, v: Id, comp: seq<Id>, m: Id)
    requires v in g && Distinct(comp) && (forall w :: w in comp <==> w in Component(g, v)) && m in comp
    ensures OnCycle(g, m) <==> |comp| > 1 || v in g[v]
  {
    ReachSelf(g, v);
    assert v in comp;
    if |comp| > 1 {
      var a, b := comp[0], comp[1];
      assert a in comp && b in comp && a != b;
      var o := if a == m then b else a;
      assert o in comp && o != m;
      ReachTrans(g, m, v, o);
      ReachTrans(g, o, v, m);
      MutualIsCycle(g, m, o);
    } else {
      assert comp == [v] by { assert |comp| == 1 && comp[0] == v; }
      assert m == v;
      if v in g[v] { assert Edge(g, v, v); }
      if OnCycle(g, v) {
        var w :| Edge(g, v, w) && Reaches(g, w, v);
        ReachEdge(g, v, w);
        assert w in Component(g, v);
      }
    }
  }

  // ----- the search -----

  class Search {
    const g: Graph
    var index: nat
    var indices: map<Id, nat>
    var low: map<Id, nat>
    var onStack: set<Id>
    var stack: seq<Id>
    var inCycle: map<Id, seq<Id>>
    ghost var grays: set<Id>

    constructor (g: Graph)
      ensures this.g == g && Ready() && grays == {} && indices == map[] && fresh(this)
    {
      this.g, index, indices, low, onStack, stack, inCycle, grays := g, 0, map[], map[], {}, [], map[], {};
    }

    ghost function Now(): Snap
      reads this
    {
      Snap(indices, index, stack, grays)
    }

    ghost predicate Ready()
      reads this
    {
      && Sound(g, Now()) && CyclesFound(g, Now(), inCycle)
      && (forall v :: v in onStack <==> v in stack)
      && low.Keys == indices.Keys
    }

    /** Visit `v` and everything it reaches that is not yet visited. */
    method Visit(v: Id)
      requires Ready() && v in g && v !in indices && forall x :: x in grays ==> Reaches(g, x, v)
      modifies this
      ensures Ready() && grays == old(grays) && Extends(old(Now()), Now())
      ensures v in low && Returned(g, old(Now()), Now(), v, low[v])
      ensures forall u :: u in old(low) ==> u in low && low[u] == old(low)[u]
      decreases |g.Keys - indices.Keys|, 0
    {
      hide Sound, CyclesFound, Visiting, Returned, Complete, Extends, Innermost, Explored;
      ghost var s := Now();
      FewerLeft(g.Keys, indices.Keys, v);
      GrayIsVisited(g, s);
      Enter(v);
      assert indices == s.indices[v := s.next] && indices.Keys == s.indices.Keys + {v};
      var self := Explore(s, v);
      Leave(s, v, self);
    }

    method Enter(v: Id)
      requires Ready() && v in g && v !in indices && forall x :: x in grays ==> Reaches(g, x, v)
      modifies this
      ensures Ready() && Now() == Pushed(old(Now()), v) && low == old(low)[v := old(index)]
      ensures Visiting(g, old(Now()), Now(), v, old(index), g[v], 0)
    {
      hide Sound, CyclesFound, Visiting;
      ghost var s := Now();
      PushSound(g, s, v);
      VisitStarts(g, s, v, g[v]);
      PushKeepsCycles(g, s, v, inCycle);
      indices := indices[v := index];
      low := low[v := index];
      index := index + 1;
      stack := stack + [v];
      onStack := onStack + {v};
      grays := grays + {v};
    }

    /** The end of a visit: pop the component it is the root of, or leave it stacked. */
    method Leave(ghost s: Snap, v: Id, self: bool)
      requires Ready() && Sound(g, s) && v in g && v !in s.indices && v !in s.grays && (self <==> v in g[v])
      requires v in low && Visiting(g, s, Now(), v, low[v], g[v], |g[v]|)
      modifies this`stack, this`onStack, this`inCycle, this`grays
      ensures Ready() && grays == s.grays && Extends(s, Now()) && Returned(g, s, Now(), v, low[v])
    {
      hide Sound, CyclesFound, Visiting, Returned, Complete, Extends, Innermost, Explored;
      ghost var t := Now();
      VisitEnds(g, s, t, v, low[v]);
      VisitNumber(g, s, t, v, low[v]);
      if low[v] == indices[v] {
        FoundRoot(g, s, t, v, low[v]);
        PopComponent(v, |s.stack|, self);
        PopReturns(g, s, t, v, low[v]);
      } else {
        FoundLower(g, s, t, v, low[v]);
        BlackenKeepsCycles(g, t, v, inCycle);
        grays := grays - {v};
        BlackenExtends(g, s, t, v, low[v]);
      }
    }

    /** The edges of `v`; whether one leads back to `v` itself. */
    method Explore(ghost s: Snap, v: Id) returns (self: bool)
      requires Ready() && v in g && v !in s.indices && Sound(g, s)
      requires Visiting(g, s, Now(), v, s.next, g[v], 0) && v in low && low[v] == s.next
      modifies this
      ensures Ready() && v in low && Visiting(g, s, Now(), v, low[v], g[v], |g[v]|)
      ensures (forall u :: u in old(low) && u != v ==> u in low && low[u] == old(low)[u])
      ensures self <==> v in g[v]
      decreases |g.Keys - indices.Keys|, 2
    {
      hide Sound, CyclesFound, Visiting;
      var i := 0;
      self := false;
      while i < |g[v]|
        invariant i <= |g[v]| && Ready() && v in low
        invariant Visiting(g, s, Now(), v, low[v], g[v], i)
        invariant forall u :: u in old(low) && u != v ==> u in low && low[u] == old(low)[u]
        invariant self <==> v in g[v][..i]
        invariant old(indices).Keys <= indices.Keys
      {
        var w := g[v][i];
        assert g[v][..i + 1] == g[v][..i] + [w];
        if w == v { self := true; }
        NoMoreLeft(g.Keys, old(indices).Keys, indices.Keys);
        FollowEdge(s, v, i);
        i := i + 1;
      }
      assert g[v][..i] == g[v];
    }

    /** One edge: into the graph or out of it, to a node visited or not. */
    method FollowEdge(ghost s: Snap, v: Id, i: nat)
      requires Ready() && v in g && i < |g[v]| && v !in s.indices && Sound(g, s)
      requires v in low && Visiting(g, s, Now(), v, low[v], g[v], i)
      modifies this
      ensures Ready() && v in low && Visiting(g, s, Now(), v, low[v], g[v], i + 1)
      ensures forall u :: u in old(low) && u != v ==> u in low && low[u] == old(low)[u]
      ensures old(indices).Keys <= indices.Keys
      decreases |g.Keys - indices.Keys|, 1
    {
      hide Sound, CyclesFound, Visiting, Returned;
      var w := g[v][i];
      ghost var t, n := Now(), low[v];
      if w !in g {
        AfterMissing(g, s, t, v, n, g[v], i);
        return;
      }
      assert Edge(g, v, w);
      if w !in indices {
        SoundParts(g, s);
        SoundParts(g, t);
        VisitingInnermost(g, s, t, v, n, g[v], i);
        GraysReach(g, t, v, w);
        Visit(w);
        AfterChild(g, s, t, Now(), v, n, low[w], g[v], i);
        if low[w] < low[v] { low := low[v := low[w]]; }
      } else {
        AfterSeen(g, s, t, v, n, g[v], i);
        if w in onStack && indices[w] < low[v] { low := low[v := indices[w]]; }
      }
    }

    /** Pop the stack down to `v`; the popped nodes are its component. */
    method PopComponent(v: Id, ghost n: nat, self: bool)
      requires Ready() && Complete(g, Now(), n) && stack[n] == v && v in g && (self <==> v in g[v])
      modifies this`stack, this`onStack, this`inCycle, this`grays
      ensures Ready() && Now() == Popped(old(Now()), n)
    {
      hide Sound, CyclesFound, Component, OnCycle;
      ghost var s := Now();
      TopIsComponent(g, s, n);
      PopSound(g, s, n);
      ghost var was := inCycle;
      SoundParts(g, s);
      var comp := PopDown(v, n);
      ComponentPopped(g, s, n, comp);
      if |comp| > 1 || self { Record(comp); }
      PopKeepsCycles(g, s, n, comp, was, inCycle);
      grays := grays - {v};
    }

    method PopDown(v: Id, ghost n: nat) returns (comp: seq<Id>)
      requires Stacked(Now()) && n < |stack| && stack[n] == v && forall x :: x in onStack <==> x in stack
      modifies this`stack, this`onStack
      ensures stack == old(stack)[..n] && comp == Reverse(old(stack)[n..])
      ensures forall x :: x in onStack <==> x in stack
    {
      comp := [];
      ghost var all := stack;
      var w := "";
      StackDistinct(Now());
      while true
        invariant n < |stack| <= |all| && stack == all[..|stack|] && comp == Reverse(all[|stack|..])
        invariant forall x :: x in onStack <==> x in stack
        decreases |stack|
      {
        w := stack[|stack| - 1];
        ghost var k := |stack| - 1;
        TopOut(all, k);
        stack := stack[..|stack| - 1];
        onStack := onStack - {w};
        comp := comp + [w];
        if w == v { break; }
      }
      assert stack == all[..n];
    }

    method Record(comp: seq<Id>)
      requires Distinct(comp)
      modifies this`inCycle
      ensures forall x :: x in inCycle <==> x in old(inCycle) || x in comp
      ensures forall x :: x in inCycle ==> inCycle[x] == if x in comp then SortIds(comp) else old(inCycle)[x]
    {
      var sorted := SortIds(comp);
      var i := 0;
      while i < |comp|
        invariant i <= |comp|
        invariant forall x :: x in inCycle <==> x in old(inCycle) || x in comp[..i]
        invariant forall x :: x in inCycle ==> inCycle[x] == if x in comp[..i] then sorted else old(inCycle)[x]
      {
        assert comp[..i + 1] == comp[..i] + [comp[i]];
        inCycle := inCycle[comp[i] := sorted];
        i := i + 1;
      }
      assert comp[..i] == comp;
    }
  }

  function Reverse(xs: seq<Id>): (r: seq<Id>)
    ensures |r| == |xs| && forall i :: 0 <= i < |xs| ==> r[i] == xs[|xs| - 1 - i]
  {
    if xs == [] then [] else Reverse(xs[1..]) + [xs[0]]
  }

  lemma StackDistinct(s: Snap)
    requires Stacked(s)
    ensures Distinct(s.stack)
  {
  }

  /** Taking the top off a stack without repetition. */
  lemma TopOut(all: seq<Id>, k: nat)
    requires Distinct(all) && k < |all|
    ensures all[..k + 1][..k] == all[..k] && Reverse(all[k..]) == Reverse(all[k + 1..]) + [all[k]]
    ensures forall x :: x in all[..k + 1] && x != all[k] <==> x in all[..k]
  {
    assert all[k..][1..] == all[k + 1..] && all[k..][0] == all[k];
    assert all[..k + 1] == all[..k] + [all[k]];
  }

  // ----- what the steps keep of the record -----

  lemma PushKeepsCycles(g: Graph, s: Snap, v: Id, c: map<Id, seq<Id>>)
    requires CyclesFound(g, s, c) && v !in s.indices
    ensures CyclesFound(g, Pushed(s, v), c)
  {
    forall x ensures Sealed(Pushed(s, v), x) <==> Sealed(s, x) {}
  }

  lemma BlackenKeepsCycles(g: Graph, s: Snap, v: Id, c: map<Id, seq<Id>>)
    requires CyclesFound(g, s, c)
    ensures CyclesFound(g, Blackened(s, v), c)
  {
    forall x ensures Sealed(Blackened(s, v), x) <==> Sealed(s, x) {}
  }

  lemma ComponentPopped(g: Graph, s: Snap, n: nat, comp: seq<Id>)
    requires Sound(g, s) && n < |s.stack| && comp == Reverse(s.stack[n..])
    requires forall w :: w in s.stack[n..] <==> w in Component(g, s.stack[n])
    ensures Distinct(comp) && forall w :: w in comp <==> w in Component(g, s.stack[n])
  {
    hide Component, Reverse;
    StackDistinct(s);
    var top := s.stack[n..];
    forall w ensures w in comp <==> w in top {
      if w in top {
        var i :| 0 <= i < |top| && top[i] == w;
        assert comp[|top| - 1 - i] == w;
      }
    }
  }

  ghost predicate Recorded(comp: seq<Id>, cyclic: bool, was: map<Id, seq<Id>>, now: map<Id, seq<Id>>) {
    if !cyclic then now == was
    else
      && (forall x :: x in now <==> x in was || x in comp)
      && (forall x :: x in now ==> now[x] == if x in comp then SortIds(comp) else was[x])
  }

  /** The popped component is recorded exactly when it is a cycle. */
  lemma PopKeepsCycles(g: Graph, s: Snap, n: nat, comp: seq<Id>, was: map<Id, seq<Id>>, now: map<Id, seq<Id>>)
    requires Sound(g, s) && Complete(g, s, n) && CyclesFound(g, s, was) && s.stack[n] in g
    requires Distinct(comp) && forall w :: w in comp <==> w in Component(g, s.stack[n])
    requires forall w :: w in s.stack[n..] <==> w in Component(g, s.stack[n])
    requires Recorded(comp, |comp| > 1 || s.stack[n] in g[s.stack[n]], was, now)
    ensures CyclesFound(g, Popped(s, n), now)
  {
    var v, t := s.stack[n], Popped(s, n);
    PopSealed(g, s, n);
    SortIdsHolds(comp);
    forall m | m in comp ensures (OnCycle(g, m) <==> |comp| > 1 || v in g[v]) && ListsComponent(g, m, SortIds(comp)) {
      WhenOnCycle(g, v, comp, m);
      SameComponent(g, v, m);
    }
  }

  // ----- the end of a visit -----

  lemma VisitNumber(g: Graph, s: Snap, t: Snap, v: Id, n: nat)
    requires v in g && Visiting(g, s, t, v, n, g[v], |g[v]|)
    ensures v in t.indices && t.indices[v] == s.next && n <= s.next
  {
  }

  lemma PopReturns(g: Graph, s: Snap, t: Snap, v: Id, n: nat)
    requires v in g && v !in s.indices && v !in s.grays && Visiting(g, s, t, v, n, g[v], |g[v]|) && n == s.next
    requires |s.stack| < |t.stack| && t.stack[|s.stack|] == v && t.stack[..|s.stack|] == s.stack
    ensures Returned(g, s, Popped(t, |s.stack|), v, n) && Extends(s, Popped(t, |s.stack|)) && Popped(t, |s.stack|).grays == s.grays
  {
    hide Linked, Reaches;
    assert Popped(t, |s.stack|).stack[|s.stack|..] == [];
    assert t.grays - {v} == s.grays;
  }

  lemma BlackenExtends(g: Graph, s: Snap, t: Snap, v: Id, n: nat)
    requires v in g && v !in s.indices && v !in s.grays && Visiting(g, s, t, v, n, g[v], |g[v]|)
    ensures Extends(s, Blackened(t, v)) && Blackened(t, v).grays == s.grays
  {
    hide Linked, NoEdgeBelow;
    assert t.grays - {v} == s.grays;
    assert s.stack <= t.stack by { assert forall i :: 0 <= i < |s.stack| ==> s.stack[i] == Pushed(s, v).stack[i] == t.stack[i]; }
  }

  lemma GrayIsVisited(g: Graph, s: Snap)
    requires Sound(g, s)
    ensures forall x :: x in s.grays ==> x in s.indices
  {
  }

  lemma SoundParts(g: Graph, s: Snap)
    requires Sound(g, s)
    ensures Numbered(g, s) && Stacked(s) && Spread(g, s)
  {
  }

  // ----- how much is left to visit -----

  lemma FewerLeft(all: set<Id>, seen: set<Id>, v: Id)
    requires v in all && v !in seen
    ensures |all - (seen + {v})| < |all - seen|
  {
    assert all - seen == (all - (seen + {v})) + {v};
  }

  lemma NoMoreLeft(all: set<Id>, seen: set<Id>, more: set<Id>)
    requires seen <= more
    ensures |all - more| <= |all - seen|
  {
    var a, b := all - more, all - seen;
    assert b == a + (b - a);
    assert |b| == |a| + |b - a|;
  }

  /** Every ticket on a dependency cycle inside the graph, and no other, is recorded, each
      with the sorted members of its strongly connected component. */
  method FindCycles(g: Graph, ids: seq<Id>) returns (inCycle: map<Id, seq<Id>>)
    requires forall v :: v in ids <==> v in g
    ensures forall v :: v in inCycle <==> v in g && OnCycle(g, v)
    ensures forall v :: v in inCycle ==> ListsComponent(g, v, inCycle[v])
  {
    var s := new Search(g);
    var i := 0;
    while i < |ids|
      invariant i <= |ids| && s.g == g && s.Ready() && s.grays == {}
      invariant forall j :: 0 <= j < i ==> ids[j] in s.indices
    {
      if ids[i] !in s.indices { s.Visit(ids[i]); }
      i := i + 1;
    }
    AllSealed(g, s.Now(), ids);
    inCycle := s.inCycle;
  }

  /** When no visit is under way, everything visited has been popped. */
  lemma AllSealed(g: Graph, s: Snap, ids: seq<Id>)
    requires Sound(g, s) && s.grays == {} && (forall v :: v in ids <==> v in g) && forall j :: 0 <= j < |ids| ==> ids[j] in s.indices
    ensures forall v :: Sealed(s, v) <==> v in g
  {
    forall v ensures !RootedAt(g, s, v) {}
    forall v | v in g ensures v in s.indices {
      var j :| 0 <= j < |ids| && ids[j] == v;
    }
  }

  /** Nothing is recorded exactly when the graph is acyclic. */
  lemma NoCycles(g: Graph, c: map<Id, seq<Id>>)
    requires forall v :: v in c <==> v in g && OnCycle(g, v)
    ensures c == map[] <==> Acyclic(g)
  {
    if c != map[] {
      var v :| v in c;
      assert v in g && OnCycle(g, v);
    }
  }
}
