/** Assessing readiness and applying a release mutation, as loops over the record. */
module Assessing {
  import opened Wrappers
  import opened Graph
  import opened Releases

  /** What the gate list says: each gate's kind, the gates this release must pass, and
      the ones it names that nobody defined. */
  method Gates(d: Definition, gates: seq<Gate>) returns (defined: map<string, string>, required: set<string>, unknown: set<string>)
    requires UniqueGates(gates)
    ensures forall id :: id in defined <==> Defined(gates, id)
    ensures forall k :: 0 <= k < |gates| ==> gates[k].gateId in defined && defined[gates[k].gateId] == gates[k].kind
    ensures forall id :: id in required <==> Required(d, gates, id)
    ensures forall id :: id in unknown <==> id in d.body.requiredGates && !Defined(gates, id)
  {
    var always: set<string>;
    defined, always := ListGates(gates);
    required, unknown := NamedGates(d.body.requiredGates, gates, defined, always);
    forall id ensures id in required <==> Required(d, gates, id) {
      assert id in always <==> exists k :: 0 <= k < |gates| && gates[k].gateId == id && gates[k].required;
    }
  }

  method ListGates(gates: seq<Gate>) returns (defined: map<string, string>, always: set<string>)
    requires UniqueGates(gates)
    ensures forall id :: id in defined <==> Defined(gates, id)
    ensures forall k :: 0 <= k < |gates| ==> gates[k].gateId in defined && defined[gates[k].gateId] == gates[k].kind
    ensures forall id :: id in always <==> exists k :: 0 <= k < |gates| && gates[k].gateId == id && gates[k].required
  {
    defined, always := map[], {};
    var i := 0;
    while i < |gates|
      invariant i <= |gates|
      invariant forall id :: id in defined <==> exists k :: 0 <= k < i && gates[k].gateId == id
      invariant forall k :: 0 <= k < i ==> gates[k].gateId in defined && defined[gates[k].gateId] == gates[k].kind
      invariant forall id :: id in always <==> exists k :: 0 <= k < i && gates[k].gateId == id && gates[k].required
    {
      defined := defined[gates[i].gateId := gates[i].kind];
      if gates[i].required { always := always + {gates[i].gateId}; }
      i := i + 1;
    }
  }

  method NamedGates(ids: seq<string>, gates: seq<Gate>, defined: map<string, string>, always: set<string>) returns (required: set<string>, unknown: set<string>)
    requires forall id :: id in defined <==> Defined(gates, id)
    ensures forall id :: id in required <==> id in always || (id in ids && Defined(gates, id))
    ensures forall id :: id in unknown <==> id in ids && !Defined(gates, id)
  {
    hide Defined;
    required, unknown := always, {};
    var i := 0;
    while i < |ids|
      invariant i <= |ids|
      invariant forall id :: id in required <==> id in always || (id in ids[..i] && Defined(gates, id))
      invariant forall id :: id in unknown <==> id in ids[..i] && !Defined(gates, id)
    {
      assert ids[..i + 1] == ids[..i] + [ids[i]];
      if ids[i] in defined { required := required + {ids[i]}; } else { unknown := unknown + {ids[i]}; }
      i := i + 1;
    }
    assert ids[..i] == ids;
  }

  /** The attestations one by one: which required gates pass, which criteria are covered. */
  method Sweep(r: Release, c: Candidate, gates: seq<Gate>, defined: map<string, string>, required: set<string>)
    returns (satisfied: set<string>, covered: set<nat>)
    requires UniqueGates(gates)
    requires forall id :: id in defined <==> Defined(gates, id)
    requires forall k :: 0 <= k < |gates| ==> gates[k].gateId in defined && defined[gates[k].gateId] == gates[k].kind
    ensures forall id :: id in satisfied <==> id in required && exists a :: a in r.attestations && a.gateId == id && Passing(a, c, gates)
    ensures forall i: nat :: i in covered <==> i < |r.definition.body.criteria| && exists a :: a in r.attestations && i in a.criteria && Passing(a, c, gates)
  {
    satisfied, covered := {}, {};
    var rest := r.attestations;
    while rest != {}
      invariant rest <= r.attestations
      invariant forall id :: id in satisfied <==>
                               id in required && exists a :: a in r.attestations - rest && a.gateId == id && Passing(a, c, gates)
      invariant forall i: nat :: i in covered <==>
                                   i < |r.definition.body.criteria| && exists a :: a in r.attestations - rest && i in a.criteria && Passing(a, c, gates)
      decreases |rest|
    {
      var a :| a in rest;
      ghost var was := rest;
      rest := rest - {a};
      assert r.attestations - rest == (r.attestations - was) + {a};
      var compatible := a.gateId in defined && Suits(a.provenance, defined[a.gateId]);
      PassesWhen(a, c, gates, defined);
      if a.candidate == Of(c) && a.pass {
        if a.gateId in required && compatible { satisfied := satisfied + {a.gateId}; }
        if compatible { covered := covered + set i | i in a.criteria && i < |r.definition.body.criteria|; }
      }
    }
    assert r.attestations - rest == r.attestations;
  }

  lemma PassesWhen(a: Attestation, c: Candidate, gates: seq<Gate>, defined: map<string, string>)
    requires UniqueGates(gates)
    requires forall id :: id in defined <==> Defined(gates, id)
    requires forall k :: 0 <= k < |gates| ==> gates[k].gateId in defined && defined[gates[k].gateId] == gates[k].kind
    ensures Passing(a, c, gates) <==> a.candidate == Of(c) && a.pass && a.gateId in defined && Suits(a.provenance, defined[a.gateId])
  {
    if a.gateId in defined {
      var k :| 0 <= k < |gates| && gates[k].gateId == a.gateId;
    }
  }

  method Bindings(c: Candidate, o: Observation) returns (tickets: set<string>, predecessors: set<Id>)
    ensures forall id :: id in tickets <==> exists i :: 0 <= i < |c.tickets| && c.tickets[i].ticketId == id && !TicketHolds(o, c.tickets[i])
    ensures forall id :: id in predecessors <==>
                           exists i :: 0 <= i < |c.predecessors| && c.predecessors[i].releaseId == id && !PredecessorHolds(o, c.predecessors[i])
  {
    tickets, predecessors := {}, {};
    var i := 0;
    while i < |c.tickets|
      invariant i <= |c.tickets|
      invariant forall id :: id in tickets <==> exists k :: 0 <= k < i && c.tickets[k].ticketId == id && !TicketHolds(o, c.tickets[k])
    {
      if !TicketHolds(o, c.tickets[i]) { tickets := tickets + {c.tickets[i].ticketId}; }
      i := i + 1;
    }
    i := 0;
    while i < |c.predecessors|
      invariant i <= |c.predecessors|
      invariant forall id :: id in predecessors <==>
                               exists k :: 0 <= k < i && c.predecessors[k].releaseId == id && !PredecessorHolds(o, c.predecessors[k])
    {
      if !PredecessorHolds(o, c.predecessors[i]) { predecessors := predecessors + {c.predecessors[i].releaseId}; }
      i := i + 1;
    }
  }

  /** Ready exactly when nothing is missing; otherwise exactly what is missing. */
  method Assess(r: Release, gates: seq<Gate>, o: Observation) returns (out: Readiness)
    requires UniqueGates(gates)
    ensures out.ReadyAttested? <==> Ready(r, gates, o)
    ensures out.Blocked? ==> forall m :: m in out.missing <==> Lacks(r, gates, o, m)
  {
    hide Required, Defined, Passing, TicketHolds, PredecessorHolds, ValidCandidate, UniqueGates;
    if r.candidate.None? {
      assert Lacks(r, gates, o, NoCandidate);
      return Blocked({NoCandidate});
    }
    var c := r.candidate.value;
    var missing: set<Missing> := {};
    if !ValidCandidate(r.definition, c) { missing := missing + {Scope}; }
    if c.definition != Of(r.definition) { missing := missing + {DefinitionMoved}; }
    if c.policy != o.policy || c.headCommit != o.headCommit || c.source != o.source { missing := missing + {SourceOrPolicy}; }
    var tickets, predecessors := Bindings(c, o);
    var defined, required, unknown := Gates(r.definition, gates);
    var satisfied, covered := Sweep(r, c, gates, defined, required);
    var unmet, uncovered := required - satisfied, set i: nat | i < |r.definition.body.criteria| && i !in covered;
    ghost var plain := missing;
    missing := missing + Listed(tickets, predecessors, unknown, unmet, uncovered);
    forall m ensures m in missing <==> Lacks(r, gates, o, m) {
      InList(tickets, predecessors, unknown, unmet, uncovered, m);
      hide Listed;
      match m
      case TicketOpen(_) => assert m !in plain;
      case Predecessor(_) => assert m !in plain;
      case GateUndefined(_) => assert m !in plain;
      case GateOpen(_) => assert m !in plain;
      case Criterion(_) => assert m !in plain;
      case _ =>
    }
    if missing == {} { return ReadyAttested; }
    ghost var m :| m in missing;
    assert Lacks(r, gates, o, m);
    return Blocked(missing);
  }

  function Listed(tickets: set<string>, predecessors: set<Id>, unknown: set<string>, unmet: set<string>, uncovered: set<nat>): set<Missing> {
    (set id | id in tickets :: TicketOpen(id)) + (set id | id in predecessors :: Predecessor(id))
    + (set id | id in unknown :: GateUndefined(id)) + (set id | id in unmet :: GateOpen(id)) + (set i | i in uncovered :: Criterion(i))
  }

  predicate Named(tickets: set<string>, predecessors: set<Id>, unknown: set<string>, unmet: set<string>, uncovered: set<nat>, m: Missing) {
    match m
    case TicketOpen(id) => id in tickets
    case Predecessor(id) => id in predecessors
    case GateUndefined(id) => id in unknown
    case GateOpen(id) => id in unmet
    case Criterion(i) => i in uncovered
    case _ => false
  }

  lemma InList(tickets: set<string>, predecessors: set<Id>, unknown: set<string>, unmet: set<string>, uncovered: set<nat>, m: Missing)
    ensures m in Listed(tickets, predecessors, unknown, unmet, uncovered) <==> Named(tickets, predecessors, unknown, unmet, uncovered, m)
  {
  }

  /** The digests of the attestations that pass the candidate. */
  method PassingOnes(r: Release, k: Candidate, gates: seq<Gate>) returns (ds: set<Digest<Attestation>>)
    ensures ds == PassingDigests(r, k, gates)
  {
    hide Passing;
    ds := {};
    var rest := r.attestations;
    while rest != {}
      invariant rest <= r.attestations
      invariant ds == set a | a in r.attestations - rest && Passing(a, k, gates) :: Of(a)
      decreases |rest|
    {
      var a :| a in rest;
      ghost var was := rest;
      rest := rest - {a};
      assert r.attestations - rest == (r.attestations - was) + {a};
      if Passing(a, k, gates) { ds := ds + {Of(a)}; }
    }
    assert r.attestations - rest == r.attestations;
  }

  /** One release mutation: the record it yields, or none when no record is acceptable. */
  method Apply(c: Context, current: Option<Release>, q: Request) returns (r: Option<Release>)
    requires UniqueGates(c.gates)
    ensures r.Some? ==> Applies(c, current, q, r.value)
    ensures r.None? ==> forall post :: !Applies(c, current, q, post)
  {
    hide Ready, Valid, Known, UniqueGates, PassingDigests, Authorized;
    if !Authorized(c.role, OpOf(q), c.configured) { return None; }
    if q.Create? {
      if current.Some? { return None; }
    } else {
      if current.None? || current.value.revision != c.expected { return None; }
    }
    if current.Some? && current.value.promotion.Some? { return None; }
    var made := Make(c, current, q);
    if made.None? { return None; }
    var out := made.value;
    if current.None? {
      out := out.(revision := 1, previous := None);
    } else {
      out := out.(previous := Some(Link(current.value)));
      out := out.(revision := current.value.revision + 1);
    }
    forall post | Makes(c, current, q, post) ensures post == out { Makes1(c, current, q, post, out); }
    return if Valid(out) && c.fits(out) then Some(out) else None;
  }

  /** The chain fields apart. */
  ghost predicate MakesBut(c: Context, current: Option<Release>, q: Request, out: Release) {
    Makes(c, current, q, out.(revision := if current.None? then 1 else current.value.revision + 1,
                              previous := if current.None? then None else Some(Link(current.value))))
  }

  lemma Makes1(c: Context, current: Option<Release>, q: Request, x: Release, y: Release)
    requires Makes(c, current, q, x) && Makes(c, current, q, y)
    ensures x == y
  {
    hide Ready, Known, PassingDigests, Authorized;
  }

  method Make(c: Context, current: Option<Release>, q: Request) returns (r: Option<Release>)
    requires UniqueGates(c.gates) && Authorized(c.role, OpOf(q), c.configured) && (q.Create? <==> current.None?)
    requires current.Some? ==> current.value.revision == c.expected && current.value.promotion.None?
    ensures r.Some? ==> MakesBut(c, current, q, r.value)
    ensures r.None? ==> forall post :: !Makes(c, current, q, post)
  {
    hide Ready, Known, UniqueGates, PassingDigests, Authorized;
    match q {
      case Create(b) => return if Known(c, b) then Some(Release(Definition(c.queueId, c.target, b), 0, None, None, {}, None)) else None;
      case Update(b) => return if Known(c, b) then Some(Release(Definition(c.queueId, c.target, b), 0, None, None, {}, None)) else None;
      case Capture(claimed) =>
        if c.observed.None? { return None; }
        if claimed.Some? && claimed.value != c.observed.value.headCommit { return None; }
        var out := current.value;
        out := out.(candidate := c.observed);
        out := out.(attestations := {});
        return Some(out);
      case AttestExternal(a) => r := Attest(c, current.value, a, EXTERNAL);
      case AttestManual(a) => r := Attest(c, current.value, a, MANUAL);
      case Promote =>
        var ready := Assess(current.value, c.gates, c.observation);
        if ready.Blocked? || current.value.candidate.None? { return None; }
        var out, k := current.value, current.value.candidate.value;
        var ds := PassingOnes(out, k, c.gates);
        out := out.(promotion := Some(Promotion(Of(k), ds, k.predecessors, c.actor, c.now)));
        return Some(out);
    }
  }

  method Attest(c: Context, current: Release, claimed: Attestation, p: Provenance) returns (r: Option<Release>)
    ensures r.Some? ==> r.value.revision == current.revision && r.value.previous == current.previous && Attests(c, current, claimed, p, r.value)
    ensures r.None? ==> forall post :: !Attests(c, current, claimed, p, post)
  {
    if current.candidate.None? || claimed.candidate != Of(current.candidate.value) { return None; }
    var a := claimed.(actor := c.actor, recordedAt := c.now);
    a := a.(provenance := p);
    if a in current.attestations { return None; }
    return Some(current.(attestations := current.attestations + {a}));
  }
}
