/** The operations on one ticket: what each does to the record, and the chain fields
    that are set once per change. */
module Mutation {
  import opened Wrappers
  import opened Tickets
  import opened Graph
  import opened Dependencies

  datatype Refusal =
    | Unauthorized | TicketState | DuplicateId | TooMany | Malformed | AttemptLive
    | DependencyCycle | DependencyMissing | GateUnknown | AdoptUnsupportedField | StaleTicket

  datatype Attempt<+T> = Done(value: T) | Refused(why: Refusal)

  datatype Role = OWNER | OPERATOR | WORKER | IMPORTER | SYSTEM | REVIEWER

  datatype Observation = Satisfied | Unsatisfied | NotObserved

  datatype Op =
    | REFINE | PRIORITIZE | SET_DEPENDENCIES | SET_GATES | SET_EFFECTS | HOLD | RELEASE_HOLD
    | REOPEN | ARCHIVE | RESTORE | COMPLETE_MANUAL | GRANT_APPROVAL | REVOKE_APPROVAL | CREATE

  datatype Field = Title | Body | Kind | Owner | Milestone | Labels | Criteria | Refs | DueDate | Estimate | Supersedes

  /** What one operation carries. A refined field means something only when present. */
  datatype Payload =
    | Refine(present: set<Field>, prose: Prose)
    | Prioritize(priority: string, order: nat)
    | SetDependencies(dependencies: seq<Dependency>)
    | SetGates(gates: seq<string>)
    | SetEffects(effects: Effects, capabilities: seq<string>, executionClass: string)
    | PlaceHold(holdId: string, reason: string)
    | ReleaseHold(holdId: string)
    | Reopen | Archive | Restore
    | CompleteManual(why: string, evidence: seq<string>)
    | GrantApproval(grantId: string, actor: string, operation: string, targetRevision: nat, scope: seq<string>)
    | RevokeApproval(grantId: string)

  function OpOf(p: Payload): Op {
    match p
    case Refine(_, _) => REFINE
    case Prioritize(_, _) => PRIORITIZE
    case SetDependencies(_) => SET_DEPENDENCIES
    case SetGates(_) => SET_GATES
    case SetEffects(_, _, _) => SET_EFFECTS
    case PlaceHold(_, _) => HOLD
    case ReleaseHold(_) => RELEASE_HOLD
    case Reopen => REOPEN
    case Archive => ARCHIVE
    case Restore => RESTORE
    case CompleteManual(_, _) => COMPLETE_MANUAL
    case GrantApproval(_, _, _, _, _) => GRANT_APPROVAL
    case RevokeApproval(_) => REVOKE_APPROVAL
  }

  /** The trusted actor, the clock, the policy's rows, and what the queue holds. `fits`
      is the file bound on an encoded record. */
  datatype Context = Context(actor: string, role: Role, now: string, permitted: set<Op>, inventory: map<Id, seq<Id>>,
                             gates: set<string>, attempt: Observation, fits: Record -> bool)

  // ----- one operation -----

  predicate Opens(p: Prose) { p.acceptanceCriteria != [] || p.kind == "MANUAL" || p.kind == "EXTERNAL" }

  predicate Live(s: Status) { s.DRAFT? || s.OPEN? || s.HELD? }

  predicate Permitted(c: Context, r: Record, p: Payload) {
    && OpOf(p) in c.permitted
    && match c.role
       case WORKER => p.Refine? && p.present == {Body}
       case IMPORTER => r.source.kind == "IMPORT"
       case SYSTEM => p.PlaceHold? && p.holdId == "ESCALATED"
       case OPERATOR => p.GrantApproval? ==> p.operation != "ADJUDICATE"
       case REVIEWER => false
       case OWNER => true
  }

  function Refined(r: Prose, present: set<Field>, p: Prose): Prose {
    Prose(if Title in present then p.title else r.title, if Body in present then p.body else r.body,
          if Kind in present then p.kind else r.kind, if Owner in present then p.owner else r.owner,
          if Milestone in present then p.milestone else r.milestone, if Labels in present then p.labels else r.labels,
          if Criteria in present then p.acceptanceCriteria else r.acceptanceCriteria,
          if Refs in present then p.requirementRefs else r.requirementRefs,
          if DueDate in present then p.dueDate else r.dueDate, if Estimate in present then p.estimateMinutes else r.estimateMinutes,
          if Supersedes in present then p.supersedes else r.supersedes)
  }

  predicate HasHold(hs: seq<Hold>, id: string) { exists i :: 0 <= i < |hs| && hs[i].holdId == id }

  function Without(hs: seq<Hold>, id: string): (r: seq<Hold>)
    ensures |r| <= |hs|
  {
    if hs == [] then [] else if hs[0].holdId == id then Without(hs[1..], id) else [hs[0]] + Without(hs[1..], id)
  }

  predicate HasGrant(gs: seq<Approval>, id: string) { exists i :: 0 <= i < |gs| && gs[i].grantId == id }

  function Revoked(gs: seq<Approval>, id: string): (r: seq<Approval>)
    ensures |r| == |gs| && forall i :: 0 <= i < |gs| ==> r[i] == if gs[i].grantId == id then gs[i].(revoked := true) else gs[i]
  {
    seq(|gs|, i requires 0 <= i < |gs| => if gs[i].grantId == id then gs[i].(revoked := true) else gs[i])
  }

  predicate InForce(gs: seq<Approval>, id: string) { exists i :: 0 <= i < |gs| && gs[i].grantId == id && !gs[i].revoked }

  /** The record after one operation, before the chain fields are set. */
  function StepOf(c: Context, r: Record, p: Payload): Attempt<Record> {
    if !Permitted(c, r, p) then Refused(Unauthorized)
    else if r.status.ARCHIVED? && !p.Restore? then Refused(TicketState)
    else match p
      case Refine(present, prose) =>
        var q := Refined(r.prose, present, prose);
        Done(r.(prose := q, status := if r.status.DRAFT? && Opens(q) then OPEN else r.status))
      case Prioritize(priority, order) => Done(r.(priority := priority, order := order))
      case SetDependencies(ds) => if Live(r.status) then Done(r.(dependencies := ds)) else Refused(TicketState)
      case SetGates(gs) => if Live(r.status) then Done(r.(requiredGates := gs)) else Refused(TicketState)
      case SetEffects(e, caps, class_) =>
        if Live(r.status) then Done(r.(effects := e, capabilities := caps, executionClass := class_)) else Refused(TicketState)
      case PlaceHold(id, reason) =>
        if !r.status.OPEN? && !r.status.HELD? then Refused(TicketState)
        else if HasHold(r.holds, id) then Refused(DuplicateId)
        else if |r.holds| >= MAX_HOLDS then Refused(TooMany)
        else Done(r.(holds := r.holds + [Hold(id, c.actor, reason, c.now)], status := HELD))
      case ReleaseHold(id) =>
        if !r.status.HELD? then Refused(TicketState)
        else if !HasHold(r.holds, id) then Refused(Malformed)
        else Done(r.(holds := Without(r.holds, id), status := if Without(r.holds, id) == [] then OPEN else r.status))
      case Reopen => if r.status.COMPLETED? then Done(r.(completion := None, status := OPEN)) else Refused(TicketState)
      case Archive => Done(r.(archivedFrom := Some(r.status), status := ARCHIVED))
      case Restore =>
        if r.status.ARCHIVED? && r.archivedFrom.Some? then Done(r.(status := r.archivedFrom.value, archivedFrom := None)) else Refused(TicketState)
      case CompleteManual(why, evidence) =>
        if r.status.OPEN? then Done(r.(completion := Some(Completion("MANUAL", c.actor, Some(why), evidence, None, c.now)), status := COMPLETED))
        else Refused(TicketState)
      case GrantApproval(id, actor, operation, target, scope) =>
        if actor != c.actor then Refused(Unauthorized)
        else if target != r.acceptance then Refused(Malformed)
        else if HasGrant(r.approvals, id) then Refused(DuplicateId)
        else if |r.approvals| >= MAX_APPROVALS then Refused(TooMany)
        else Done(r.(approvals := r.approvals + [Approval(id, actor, operation, target, scope, false, c.now)]))
      case RevokeApproval(id) =>
        if !HasGrant(r.approvals, id) || !InForce(r.approvals, id) then Refused(Malformed)
        else Done(r.(approvals := Revoked(r.approvals, id)))
  }

  // ----- the change as a whole -----

  predicate Forces(p: Payload) { p.Reopen? || p.Restore? || p.CompleteManual? }

  function Targets(ds: seq<Dependency>): (r: seq<Id>)
    ensures |r| == |ds| && forall i :: 0 <= i < |ds| ==> r[i] == ds[i].ticketId
  {
    seq(|ds|, i requires 0 <= i < |ds| => ds[i].ticketId)
  }

  predicate GatesKnown(c: Context, r: Record) {
    && (forall i :: 0 <= i < |r.requiredGates| ==> r.requiredGates[i] in c.gates)
    && (forall i :: 0 <= i < |r.dependencies| && r.dependencies[i].gateId.Some? ==> r.dependencies[i].gateId.value in c.gates)
  }

  /** The inventory-level checks: dependencies when they changed or are new, gates when
      either did, supersession when it changed. */
  ghost predicate Checked(c: Context, pre: Option<Record>, r: Record) {
    var deps := pre.None? || pre.value.dependencies != r.dependencies;
    var gates := pre.None? || pre.value.requiredGates != r.requiredGates;
    var supersedes := pre.None? || pre.value.prose.supersedes != r.prose.supersedes;
    var ds := Targets(r.dependencies);
    && (deps ==> r.ticketId !in ds && (forall d :: d in ds ==> d in c.inventory) && !LeadsBack(c.inventory, r.ticketId, ds))
    && (deps || gates ==> GatesKnown(c, r))
    && (supersedes && r.prose.supersedes.Some? ==> r.prose.supersedes.value in c.inventory)
    && (pre.None? && r.supersededBy.Some? ==> r.supersededBy.value in c.inventory)
  }

  function Chained(c: Context, pre: Record, work: Record, bump: bool): Record {
    work.(revision := pre.revision + 1, acceptance := if bump then pre.acceptance + 1 else pre.acceptance,
          previous := Some(Link(pre)), updatedAt := c.now, updatedBy := c.actor)
  }

  /** Everything that depends on the whole change, then the chain fields once. */
  ghost predicate Finalizes(c: Context, pre: Record, work: Record, forced: bool) {
    var changed := AcceptanceOf(pre) != AcceptanceOf(work);
    var bump := forced || changed;
    && !(pre.status.COMPLETED? && changed)
    && Checked(c, Some(pre), work)
    && (bump ==> c.attempt.Unsatisfied?)
    && pre.revision + 1 <= MAX_COUNT && (bump ==> pre.acceptance + 1 <= MAX_COUNT)
    && Valid(Chained(c, pre, work, bump)) && c.fits(Chained(c, pre, work, bump))
  }

  /** One envelope operation on the canonical record. */
  ghost predicate Applies(c: Context, pre: Record, p: Payload, post: Record) {
    && StepOf(c, pre, p).Done?
    && var work := StepOf(c, pre, p).value;
       Finalizes(c, pre, work, Forces(p)) && post == Chained(c, pre, work, Forces(p) || AcceptanceOf(pre) != AcceptanceOf(work))
  }

  /** What a CREATE makes of its payload. */
  function Created(c: Context, id: string, prose: Prose, priority: string, order: nat, deps: seq<Dependency>, source: Source, effects: Effects,
                   caps: seq<string>, gates: seq<string>, class_: string, supersededBy: Option<string>): Record {
    Record(id, 1, 1, None, if Opens(prose) then OPEN else DRAFT, None, prose, priority, order, deps, source, effects, caps, gates,
           [], class_, [], None, supersededBy, false, c.now, c.now, c.actor)
  }

  ghost predicate IsCreated(c: Context, r: Record) {
    && r == Created(c, r.ticketId, r.prose, r.priority, r.order, r.dependencies, r.source, r.effects, r.capabilities, r.requiredGates, r.executionClass, r.supersededBy)
    && Checked(c, None, r) && Valid(r) && c.fits(r)
  }

  // ----- the record stays coherent by each step alone -----

  lemma {:induction false} WithoutHolds(hs: seq<Hold>, id: string)
    requires UniqueHolds(hs)
    ensures UniqueHolds(Without(hs, id)) && !HasHold(Without(hs, id), id)
    ensures forall h :: h in Without(hs, id) <==> h in hs && h.holdId != id
  {
    if hs != [] {
      WithoutHolds(hs[1..], id);
      assert hs == [hs[0]] + hs[1..];
      var rest := Without(hs[1..], id);
      if hs[0].holdId != id {
        var r := [hs[0]] + rest;
        forall i, j | 0 <= i < j < |r| ensures r[i].holdId != r[j].holdId {
          assert r[j] == rest[j - 1] && rest[j - 1] in rest;
          var k :| 0 <= k < |hs[1..]| && hs[1..][k] == r[j];
          if i > 0 { assert r[i] == rest[i - 1]; } else { assert hs[k + 1] == r[j]; }
        }
      }
    }
  }

  /** Without the validator's help, one operation keeps the record coherent and its
      grants in the past. */
  lemma StepCoherent(c: Context, r: Record, p: Payload)
    requires Coherent(r) && GrantsInPast(r) && StepOf(c, r, p).Done?
    ensures Coherent(StepOf(c, r, p).value) && GrantsInPast(StepOf(c, r, p).value)
  {
    if p.ReleaseHold? { WithoutHolds(r.holds, p.holdId); }
  }

  /** No operation touches the chain fields. */
  lemma StepKeepsChain(c: Context, r: Record, p: Payload)
    requires StepOf(c, r, p).Done?
    ensures var q := StepOf(c, r, p).value;
      && q.ticketId == r.ticketId && q.revision == r.revision && q.acceptance == r.acceptance && q.previous == r.previous
      && q.source == r.source && q.supersededBy == r.supersededBy && q.shadowOverlay == r.shadowOverlay
      && q.createdAt == r.createdAt && q.updatedAt == r.updatedAt && q.updatedBy == r.updatedBy
  {
  }
}
