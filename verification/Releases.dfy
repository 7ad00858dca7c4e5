/** Release control: candidates, attestations, readiness and promotion. */
module Releases {
  import opened Wrappers
  import opened Graph

  /** The digest of a value, or one that names nothing here. */
  datatype Digest<T> = Of(value: T) | Foreign(hex: string)

  datatype Body = Body(version: string, title: string, predecessors: seq<Id>, tickets: seq<string>, criteria: seq<string>, requiredGates: seq<string>)

  datatype Definition = Definition(queueId: string, releaseId: Id, body: Body)

  datatype TicketBinding = TicketBinding(ticketId: string, record: string, acceptance: nat)

  datatype PredecessorBinding = PredecessorBinding(releaseId: Id, promotion: Digest<Promotion>)

  datatype Candidate = Candidate(repository: string, headCommit: string, headTree: string, source: string, definition: Digest<Definition>,
                                 policy: string, tickets: seq<TicketBinding>, predecessors: seq<PredecessorBinding>)

  datatype Provenance = MANUAL | EXTERNAL

  /** Criteria and evidence are canonically ordered lists without repeats: sets. */
  datatype Attestation = Attestation(attestationId: string, candidate: Digest<Candidate>, gateId: string, provenance: Provenance, actor: string,
                                     recordedAt: string, pass: bool, criteria: set<nat>, evidence: set<string>, sourceIdentity: string)

  datatype Promotion = Promotion(candidate: Digest<Candidate>, attestations: set<Digest<Attestation>>, predecessors: seq<PredecessorBinding>,
                                 actor: string, recordedAt: string)

  datatype Release = Release(definition: Definition, revision: nat, previous: Option<Link>, candidate: Option<Candidate>,
                             attestations: set<Attestation>, promotion: Option<Promotion>)

  datatype Link = Link(prior: Release)


  // ----- what the decoder accepts -----

  predicate Before(a: string, b: string) {
    if b == [] then false else if a == [] then true
    else if a[0] != b[0] then a[0] < b[0] else Before(a[1..], b[1..])
  }

  predicate Ordered(xs: seq<string>) { forall i :: 0 < i < |xs| ==> Before(xs[i - 1], xs[i]) }

  predicate ValidCandidate(d: Definition, c: Candidate) {
    && |c.tickets| == |d.body.tickets| && |c.predecessors| == |d.body.predecessors|
    && (forall i :: 0 <= i < |c.tickets| ==> c.tickets[i].ticketId == d.body.tickets[i])
    && forall i :: 0 <= i < |c.predecessors| ==> c.predecessors[i].releaseId == d.body.predecessors[i]
  }

  predicate ValidAttestations(r: Release) {
    && (forall a, b :: a in r.attestations && b in r.attestations && a.attestationId == b.attestationId ==> a == b)
    && forall a :: a in r.attestations ==>
         a.evidence != {} && a.sourceIdentity != "" && forall i :: i in a.criteria ==> i < |r.definition.body.criteria|
  }

  predicate ValidPromotion(c: Candidate, attestations: set<Attestation>, p: Promotion) {
    && p.candidate == Of(c) && p.predecessors == c.predecessors && p.attestations != {}
    && forall d :: d in p.attestations ==> d.Of? && d.value in attestations && d.value.candidate == Of(c) && d.value.pass
  }

  predicate Valid(r: Release) {
    && 1 <= r.revision <= MAX_COUNT
    && Ordered(r.definition.body.predecessors) && Ordered(r.definition.body.tickets) && Ordered(r.definition.body.requiredGates)
    && (r.candidate.Some? ==> ValidCandidate(r.definition, r.candidate.value))
    && ValidAttestations(r)
    && (r.promotion.Some? ==> r.candidate.Some? && ValidPromotion(r.candidate.value, r.attestations, r.promotion.value))
  }

  // ----- readiness -----

  datatype Gate = Gate(gateId: string, kind: string, required: bool)

  datatype TicketView = TicketView(completed: bool, record: string, acceptance: nat)

  datatype Observation = Observation(headCommit: string, source: string, policy: string, tickets: map<string, TicketView>, promotions: map<Id, Promotion>)

  datatype Missing =
    | NoCandidate | Scope | DefinitionMoved | SourceOrPolicy
    | TicketOpen(ticketId: string) | Predecessor(releaseId: Id) | GateUndefined(gateId: string) | GateOpen(gateId: string) | Criterion(index: nat)

  datatype Readiness = Blocked(missing: set<Missing>) | ReadyAttested

  predicate UniqueGates(gates: seq<Gate>) { forall i, j :: 0 <= i < j < |gates| ==> gates[i].gateId != gates[j].gateId }

  predicate ExternalKind(kind: string) { kind == "COMMAND" || kind == "REVIEW" || kind == "DOCS" || kind == "EXTERNAL" }

  predicate Suits(p: Provenance, kind: string) { (p.MANUAL? && kind == "MANUAL") || (p.EXTERNAL? && ExternalKind(kind)) }

  /** The attestation passes this candidate at a defined gate of the right kind. */
  predicate Passing(a: Attestation, c: Candidate, gates: seq<Gate>) {
    && a.candidate == Of(c) && a.pass
    && exists i :: 0 <= i < |gates| && gates[i].gateId == a.gateId && Suits(a.provenance, gates[i].kind)
  }

  predicate Defined(gates: seq<Gate>, id: string) { exists i :: 0 <= i < |gates| && gates[i].gateId == id }

  predicate Required(d: Definition, gates: seq<Gate>, id: string) {
    exists i :: 0 <= i < |gates| && gates[i].gateId == id && (gates[i].required || id in d.body.requiredGates)
  }

  predicate TicketHolds(o: Observation, b: TicketBinding) {
    b.ticketId in o.tickets && o.tickets[b.ticketId] == TicketView(true, b.record, b.acceptance)
  }

  predicate PredecessorHolds(o: Observation, b: PredecessorBinding) {
    b.releaseId in o.promotions && b.promotion == Of(o.promotions[b.releaseId])
  }

  /** What a release still lacks: `m` is one of the things. */
  predicate Lacks(r: Release, gates: seq<Gate>, o: Observation, m: Missing) {
    if r.candidate.None? then m.NoCandidate?
    else
      var c := r.candidate.value;
      match m
      case NoCandidate => false
      case Scope => !ValidCandidate(r.definition, c)
      case DefinitionMoved => c.definition != Of(r.definition)
      case SourceOrPolicy => c.policy != o.policy || c.headCommit != o.headCommit || c.source != o.source
      case TicketOpen(id) => exists i :: 0 <= i < |c.tickets| && c.tickets[i].ticketId == id && !TicketHolds(o, c.tickets[i])
      case Predecessor(id) => exists i :: 0 <= i < |c.predecessors| && c.predecessors[i].releaseId == id && !PredecessorHolds(o, c.predecessors[i])
      case GateUndefined(id) => id in r.definition.body.requiredGates && !Defined(gates, id)
      case GateOpen(id) => Required(r.definition, gates, id) && forall a :: a in r.attestations && a.gateId == id ==> !Passing(a, c, gates)
      case Criterion(i) => i < |r.definition.body.criteria| && forall a :: a in r.attestations && i in a.criteria ==> !Passing(a, c, gates)
  }

  ghost predicate Ready(r: Release, gates: seq<Gate>, o: Observation) { forall m :: !Lacks(r, gates, o, m) }

  // ----- the operations -----

  datatype Role = OWNER | OPERATOR | WORKER | REVIEWER | IMPORTER | SYSTEM

  datatype Op = RELEASE_CREATE | RELEASE_UPDATE | RELEASE_CANDIDATE | RELEASE_EXTERNAL_ATTEST | RELEASE_MANUAL_ATTEST | RELEASE_PROMOTE

  datatype Request =
    | Create(body: Body) | Update(body: Body) | Capture(claimed: Option<string>)
    | AttestExternal(a: Attestation) | AttestManual(a: Attestation) | Promote

  function OpOf(q: Request): Op {
    match q
    case Create(_) => RELEASE_CREATE
    case Update(_) => RELEASE_UPDATE
    case Capture(_) => RELEASE_CANDIDATE
    case AttestExternal(_) => RELEASE_EXTERNAL_ATTEST
    case AttestManual(_) => RELEASE_MANUAL_ATTEST
    case Promote => RELEASE_PROMOTE
  }

  /** The most a role may do. */
  predicate Matrix(role: Role, op: Op) {
    match role
    case OWNER => true
    case OPERATOR => op.RELEASE_CANDIDATE? || op.RELEASE_CREATE? || op.RELEASE_EXTERNAL_ATTEST? || op.RELEASE_UPDATE?
    case _ => false
  }

  predicate Authorized(role: Role, op: Op, configured: map<Role, set<Op>>) {
    && Matrix(role, op) && (role in configured ==> op in configured[role])
    && (op.RELEASE_MANUAL_ATTEST? || op.RELEASE_PROMOTE? ==> role.OWNER?)
  }

  /** The actor, the request's target and expected revision, what the caller observed. */
  datatype Context = Context(queueId: string, target: Id, expected: nat, actor: string, role: Role, configured: map<Role, set<Op>>,
                             tickets: set<string>, now: string, observed: Option<Candidate>, gates: seq<Gate>, observation: Observation,
                             fits: Release -> bool)

  predicate Known(c: Context, b: Body) {
    && (forall i :: 0 <= i < |b.tickets| ==> b.tickets[i] in c.tickets)
    && forall i :: 0 <= i < |b.requiredGates| ==> Defined(c.gates, b.requiredGates[i])
  }

  function Recorded(c: Context, a: Attestation, p: Provenance): Attestation { a.(actor := c.actor, recordedAt := c.now, provenance := p) }

  function PassingDigests(r: Release, c: Candidate, gates: seq<Gate>): set<Digest<Attestation>> {
    set a | a in r.attestations && Passing(a, c, gates) :: Of(a)
  }

  /** `post` is what the request makes of the release, before the decoder looks at it. */
  ghost predicate Makes(c: Context, current: Option<Release>, q: Request, post: Release) {
    && Authorized(c.role, OpOf(q), c.configured)
    && (q.Create? <==> current.None?)
    && (current.Some? ==> current.value.revision == c.expected && current.value.promotion.None?)
    && post.revision == (if current.None? then 1 else current.value.revision + 1)
    && post.previous == (if current.None? then None else Some(Link(current.value)))
    && match q
       case Create(b) => Known(c, b) && post.definition == Definition(c.queueId, c.target, b) && post.candidate == None && post.attestations == {} && post.promotion == None
       case Update(b) => Known(c, b) && post.definition == Definition(c.queueId, c.target, b) && post.candidate == None && post.attestations == {} && post.promotion == None
       case Capture(claimed) =>
         && c.observed.Some? && (claimed.Some? ==> claimed.value == c.observed.value.headCommit)
         && post.definition == current.value.definition && post.candidate == c.observed && post.attestations == {} && post.promotion == None
       case AttestExternal(a) => Attests(c, current.value, a, EXTERNAL, post)
       case AttestManual(a) => Attests(c, current.value, a, MANUAL, post)
       case Promote =>
         && Ready(current.value, c.gates, c.observation) && current.value.candidate.Some?
         && post.definition == current.value.definition && post.candidate == current.value.candidate && post.attestations == current.value.attestations
         && var k := current.value.candidate.value;
            post.promotion == Some(Promotion(Of(k), PassingDigests(current.value, k, c.gates), k.predecessors, c.actor, c.now))
  }

  predicate Attests(c: Context, r: Release, a: Attestation, p: Provenance, post: Release) {
    && r.candidate.Some? && a.candidate == Of(r.candidate.value)
    && post.definition == r.definition && post.candidate == r.candidate && post.promotion == r.promotion
    && Recorded(c, a, p) !in r.attestations && post.attestations == r.attestations + {Recorded(c, a, p)}
  }

  /** One accepted request. */
  ghost predicate Applies(c: Context, current: Option<Release>, q: Request, post: Release) {
    Makes(c, current, q, post) && Valid(post) && c.fits(post)
  }
}
