/** The ticket record and what holds between its fields. */
module Tickets {
  import opened Wrappers

  datatype Status = DRAFT | OPEN | HELD | COMPLETED | ARCHIVED

  datatype Dependency = Dependency(ticketId: string, obligation: string, gateId: Option<string>)

  datatype Source = Source(kind: string, sourceQueueId: string, sourceItemId: Option<string>, sourceRevision: Option<string>)

  datatype Effects = Effects(coverage: string, touchPaths: seq<string>, resources: seq<(string, string)>, externalUnbounded: bool)

  datatype Hold = Hold(holdId: string, actor: string, reason: string, placedAt: string)

  datatype Approval = Approval(grantId: string, actor: string, operation: string, targetRevision: nat, scope: seq<string>,
                               revoked: bool, grantedAt: string)

  datatype Completion = Completion(kind: string, actor: string, reason: Option<string>, evidence: seq<string>,
                                   manifest: Option<string>, recordedAt: string)

  /** The fields a REFINE may carry. */
  datatype Prose = Prose(title: string, body: Option<string>, kind: string, owner: Option<string>, milestone: Option<string>,
                         labels: seq<string>, acceptanceCriteria: seq<string>, requirementRefs: seq<string>,
                         dueDate: Option<string>, estimateMinutes: Option<nat>, supersedes: Option<string>)

  /** A record. `previous` names the prior record by its digest, here the record itself. */
  datatype Record = Record(ticketId: string, revision: nat, acceptance: nat, previous: Option<Link>, status: Status,
                           archivedFrom: Option<Status>, prose: Prose, priority: string, order: nat,
                           dependencies: seq<Dependency>, source: Source, effects: Effects, capabilities: seq<string>,
                           requiredGates: seq<string>, holds: seq<Hold>, executionClass: string, approvals: seq<Approval>,
                           completion: Option<Completion>, supersededBy: Option<string>, shadowOverlay: bool,
                           createdAt: string, updatedAt: string, updatedBy: string)

  datatype Link = Link(prior: Record)

  const MAX_HOLDS: nat := 16
  const MAX_APPROVALS: nat := 64

  /** The status behind a tombstone. */
  function Effective(r: Record): Status {
    if r.archivedFrom.Some? then r.archivedFrom.value else r.status
  }

  predicate UniqueHolds(hs: seq<Hold>) { forall i, j :: 0 <= i < j < |hs| ==> hs[i].holdId != hs[j].holdId }

  predicate UniqueGrants(gs: seq<Approval>) { forall i, j :: 0 <= i < j < |gs| ==> gs[i].grantId != gs[j].grantId }

  /** Archived exactly when it says from where; held exactly when there are holds;
      completed exactly when it says how; one hold and one grant to an identifier. */
  predicate Coherent(r: Record) {
    && (r.status.ARCHIVED? <==> r.archivedFrom.Some?)
    && !Effective(r).ARCHIVED?
    && (Effective(r).HELD? <==> r.holds != [])
    && (Effective(r).COMPLETED? <==> r.completion.Some?)
    && (r.completion.Some? && r.completion.value.kind == "MANUAL" ==> r.completion.value.manifest.None?)
    && UniqueHolds(r.holds) && |r.holds| <= MAX_HOLDS
    && UniqueGrants(r.approvals) && |r.approvals| <= MAX_APPROVALS
  }

  /** No grant names an acceptance revision that is yet to come. */
  predicate GrantsInPast(r: Record) {
    forall i :: 0 <= i < |r.approvals| ==> r.approvals[i].targetRevision <= r.acceptance
  }

  predicate Numbered(r: Record) {
    1 <= r.acceptance <= r.revision <= MAX_COUNT && (r.revision == 1 <==> r.previous.None?)
  }

  /** Relations between the other fields, checked whenever a record is built. */
  predicate WellRelated(r: Record) {
    && (forall i :: 0 <= i < |r.dependencies| ==>
          && (r.dependencies[i].obligation == "GATE_PASSED" <==> r.dependencies[i].gateId.Some?)
          && r.dependencies[i].ticketId != r.ticketId)
    && (forall i, j :: 0 <= i < j < |r.dependencies| ==> r.dependencies[i] != r.dependencies[j])
    && (r.source.kind == "IMPORT" ==> r.source.sourceItemId.Some?)
    && (r.source.kind == "NATIVE" ==> r.source.sourceItemId.None? && r.source.sourceRevision.None?)
    && (r.shadowOverlay ==> r.source.kind == "IMPORT")
    && (r.completion.Some? && r.completion.value.kind == "VERIFIED" ==> r.completion.value.manifest.Some?)
    && r.prose.supersedes != Some(r.ticketId) && r.supersededBy != Some(r.ticketId)
  }

  /** What the closed validator accepts. */
  predicate Valid(r: Record) { Coherent(r) && Numbered(r) && WellRelated(r) }

  /** The acceptance-relevant fields, whose change bumps the acceptance revision. */
  datatype Acceptance = Acceptance(kind: string, acceptanceCriteria: seq<string>, requirementRefs: seq<string>,
                                   dependencies: seq<Dependency>, requiredGates: seq<string>, effects: Effects,
                                   capabilities: seq<string>, executionClass: string, supersedes: Option<string>, source: Source)

  function AcceptanceOf(r: Record): Acceptance {
    Acceptance(r.prose.kind, r.prose.acceptanceCriteria, r.prose.requirementRefs, r.dependencies, r.requiredGates, r.effects,
               r.capabilities, r.executionClass, r.prose.supersedes, r.source)
  }

  /** Does the record carry a RUN grant in force at its acceptance revision? */
  predicate RunGranted(r: Record) {
    exists i :: 0 <= i < |r.approvals| && r.approvals[i].operation == "RUN" && r.approvals[i].targetRevision == r.acceptance && !r.approvals[i].revoked
  }
}
