/** What holds of a queue's releases over every run of release mutations. */
module Promotions {
  import opened Wrappers
  import opened Graph
  import opened Dependencies
  import opened Releases

  type Queue = map<Id, Releases.Release>

  function PredecessorsOf(s: Queue): map<Id, seq<Id>> { map id | id in s :: s[id].definition.body.predecessors }

  function PromotionsOf(s: Queue): map<Id, Promotion> { map id | id in s && s[id].promotion.Some? :: s[id].promotion.value }

  function Current(s: Queue, id: Id): Option<Releases.Release> { if id in s then Some(s[id]) else None }

  /** One accepted mutation: planned against the promotions as they stand, and accepted
      only if the whole graph stays closed and acyclic. */
  ghost predicate Mutates(s: Queue, c: Releases.Context, q: Request, post: Releases.Release, t: Queue) {
    && c.observation.promotions == PromotionsOf(s)
    && Releases.Applies(c, Current(s, c.target), q, post) && t == s[c.target := post]
    && Closed(PredecessorsOf(t)) && Acyclic(PredecessorsOf(t))
  }

  ghost predicate ReleaseStep(s: Queue, t: Queue) { exists c, q, post :: Mutates(s, c, q, post, t) }

  /** Every attestation names the candidate the release has now. */
  predicate NamesCurrent(r: Releases.Release) {
    forall a :: a in r.attestations ==> r.candidate.Some? && a.candidate == Of(r.candidate.value)
  }

  /** A promoted release binds each of its predecessors to that one's promotion. */
  predicate Bound(s: Queue, r: Releases.Release) {
    r.promotion.Some? ==>
      var d := r.definition.body.predecessors;
      && |r.promotion.value.predecessors| == |d|
      && forall i :: 0 <= i < |d| ==>
           d[i] in s && s[d[i]].promotion.Some? && r.promotion.value.predecessors[i] == PredecessorBinding(d[i], Of(s[d[i]].promotion.value))
  }

  ghost predicate SoundReleases(s: Queue) {
    && (forall id :: id in s ==> s[id].definition.releaseId == id && Releases.Valid(s[id]) && NamesCurrent(s[id]) && Bound(s, s[id]))
    && Closed(PredecessorsOf(s)) && Acyclic(PredecessorsOf(s))
  }

  // ----- one mutation -----

  lemma StaysCurrent(c: Releases.Context, current: Option<Releases.Release>, q: Request, post: Releases.Release)
    requires Releases.Applies(c, current, q, post) && (current.Some? ==> NamesCurrent(current.value) && current.value.definition.releaseId == c.target)
    ensures NamesCurrent(post) && post.definition.releaseId == c.target && Releases.Valid(post)
  {
    hide Ready;
  }

  /** A promotion binds what the observation shows promoted. */
  lemma PromoteBinds(s: Queue, c: Releases.Context, q: Request, post: Releases.Release)
    requires c.observation.promotions == PromotionsOf(s) && Releases.Applies(c, Current(s, c.target), q, post) && post.promotion.Some?
    ensures q.Promote? && Bound(s, post)
  {
    hide Releases.Valid;
    if q.Promote? {
      var r := s[c.target];
      var k := r.candidate.value;
      assert !Lacks(r, c.gates, c.observation, Scope);
      forall i | 0 <= i < |k.predecessors| ensures PredecessorHolds(c.observation, k.predecessors[i]) {
        assert !Lacks(r, c.gates, c.observation, Predecessor(k.predecessors[i].releaseId));
      }
    }
  }

  lemma OpenStill(c: Releases.Context, s: Queue, q: Request, post: Releases.Release)
    requires Releases.Applies(c, Current(s, c.target), q, post)
    ensures c.target in s ==> s[c.target].promotion.None?
  {
    hide Releases.Valid, Ready;
  }

  lemma KeepsBound(s: Queue, id: Id, post: Releases.Release, r: Releases.Release)
    requires Bound(s, r) && (id in s ==> s[id].promotion.None?)
    ensures Bound(s[id := post], r)
  {
  }

  lemma StepSound(s: Queue, t: Queue)
    requires SoundReleases(s) && ReleaseStep(s, t)
    ensures SoundReleases(t) && forall id :: id in s ==> id in t
    ensures forall id :: id in s && s[id].promotion.Some? ==> id in t && t[id] == s[id]
  {
    hide Acyclic, Closed, Releases.Valid, Releases.Applies, NamesCurrent, Bound;
    var c, q, post :| Mutates(s, c, q, post, t);
    StaysCurrent(c, Current(s, c.target), q, post);
    OpenStill(c, s, q, post);
    if post.promotion.Some? { PromoteBinds(s, c, q, post); } else { Unbound(s, post); }
    forall id | id in t ensures Bound(t, t[id]) { KeepsBound(s, c.target, post, t[id]); }
  }

  lemma Unbound(s: Queue, r: Releases.Release)
    requires r.promotion.None?
    ensures Bound(s, r)
  {
  }

  // ----- runs -----

  ghost predicate Run(run: seq<Queue>) {
    run != [] && SoundReleases(run[0]) && forall i {:trigger run[i]} :: 0 < i < |run| ==> ReleaseStep(run[i - 1], run[i])
  }

  /** Over every run each attestation names the current candidate, each promoted release
      binds its predecessors' promotions, and the graph stays closed and acyclic. */
  lemma {:induction false} RunStaysSound(run: seq<Queue>, n: nat)
    requires Run(run) && n < |run|
    ensures SoundReleases(run[n])
  {
    hide SoundReleases, ReleaseStep;
    if n > 0 {
      RunStaysSound(run, n - 1);
      assert ReleaseStep(run[n - 1], run[n]);
      StepSound(run[n - 1], run[n]);
    }
  }

  /** A promoted release never changes again. */
  lemma {:induction false} PromotedForGood(run: seq<Queue>, i: nat, k: nat, id: Id)
    requires Run(run) && i <= k < |run| && id in run[i] && run[i][id].promotion.Some?
    ensures id in run[k] && run[k][id] == run[i][id]
  {
    hide SoundReleases, ReleaseStep;
    if i < k {
      PromotedForGood(run, i, k - 1, id);
      RunStaysSound(run, k - 1);
      assert ReleaseStep(run[k - 1], run[k]);
      StepSound(run[k - 1], run[k]);
    }
  }

  /** Everything a promoted release rests on, however far back, is promoted. */
  lemma PromotedAncestors(s: Queue, id: Id, p: Id)
    requires SoundReleases(s) && id in s && s[id].promotion.Some? && Reaches(PredecessorsOf(s), id, p)
    ensures p in s && s[p].promotion.Some?
  {
    hide Acyclic, Releases.Valid;
    var g, promoted := PredecessorsOf(s), PromotionsOf(s).Keys;
    forall v, w | v in promoted && Edge(g, v, w) ensures w in promoted {
      assert Bound(s, s[v]);
      var i :| 0 <= i < |g[v]| && g[v][i] == w;
    }
    assert Trap(g, promoted);
    Trapped(g, promoted, id, p);
  }

  /** The binding still names the predecessor's promotion at every later time. */
  lemma BindingsStand(run: seq<Queue>, i: nat, k: nat, id: Id, j: nat)
    requires Run(run) && i <= k < |run| && id in run[i] && run[i][id].promotion.Some? && j < |run[i][id].definition.body.predecessors|
    ensures var p := run[i][id].definition.body.predecessors[j];
      && p in run[k] && run[k][p].promotion.Some? && j < |run[i][id].promotion.value.predecessors|
      && run[i][id].promotion.value.predecessors[j] == PredecessorBinding(p, Of(run[k][p].promotion.value))
  {
    hide Acyclic, Closed, Releases.Valid, ReleaseStep;
    RunStaysSound(run, i);
    assert Bound(run[i], run[i][id]);
    PromotedForGood(run, i, k, run[i][id].definition.body.predecessors[j]);
  }

  // ----- when a promotion is accepted -----

  function Promoted(c: Releases.Context, r: Releases.Release, k: Candidate): Releases.Release {
    r.(revision := r.revision + 1, previous := Some(Releases.Link(r)),
       promotion := Some(Promotion(Of(k), PassingDigests(r, k, c.gates), k.predecessors, c.actor, c.now)))
  }

  /** An owner's promotion is accepted exactly when the release lacks nothing and at least
      one attestation passes its candidate. */
  lemma PromotesExactly(c: Releases.Context, r: Releases.Release)
    requires Releases.Valid(r) && NamesCurrent(r) && r.promotion.None? && r.revision == c.expected < MAX_COUNT
    requires Releases.Authorized(c.role, RELEASE_PROMOTE, c.configured)
    requires r.candidate.Some? ==> c.fits(Promoted(c, r, r.candidate.value))
    ensures (exists post :: Releases.Applies(c, Some(r), Promote, post))
            <==> Ready(r, c.gates, c.observation) && r.candidate.Some? && exists a :: a in r.attestations && Passing(a, r.candidate.value, c.gates)
  {
    hide Ready;
    if r.candidate.Some? {
      var k := r.candidate.value;
      var post, ds := Promoted(c, r, k), PassingDigests(r, k, c.gates);
      assert forall a :: Of(a) in ds <==> a in r.attestations && Passing(a, k, c.gates);
      if a :| a in r.attestations && Passing(a, k, c.gates) {
        assert Of(a) in ds;
        if Ready(r, c.gates, c.observation) { assert Releases.Applies(c, Some(r), Promote, post); }
      }
      if x :| Releases.Applies(c, Some(r), Promote, x) {
        assert x.promotion.value.attestations == ds && ds != {};
        var d :| d in ds;
        assert d.Of? && d.value in r.attestations;
      }
    }
  }

  /** Readiness alone does not promote: with no gate required and no criterion, a release
      nobody attested lacks nothing and yet cannot be promoted. */
  lemma ReadyYetRefused(c: Releases.Context, r: Releases.Release)
    requires r.candidate.Some? && r.attestations == {} && Ready(r, c.gates, c.observation)
    ensures forall post :: !Releases.Applies(c, Some(r), Promote, post)
  {
    hide Ready;
    assert PassingDigests(r, r.candidate.value, c.gates) == {};
  }

  function Hex(n: nat): (r: string)
    ensures |r| == n
  {
    seq(n, _ => '0')
  }

  /** A release over nothing, with a candidate and no attestation. */
  function Bare(): Releases.Release {
    var d := Definition("queue:acme:main", "r1", Body("1", "first", [], [], [], []));
    Releases.Release(d, 1, None, Some(Candidate("repo:acme", Hex(40), Hex(40), Hex(64), Of(d), Hex(64), [], [])), {}, None)
  }

  /** One such release: valid, ready under a policy without gates, and not to be promoted. */
  lemma ReadyYetRefusedExample(c: Releases.Context)
    requires c.gates == [] && c.observation == Observation(Hex(40), Hex(64), Hex(64), map[], map[])
    ensures Releases.Valid(Bare()) && Ready(Bare(), c.gates, c.observation)
    ensures forall post :: !Releases.Applies(c, Some(Bare()), Promote, post)
  {
    ReadyYetRefused(c, Bare());
  }
}
