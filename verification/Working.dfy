/** The working copy a mutation changes in place, and the plans made with it. */
module Working {
  import opened Wrappers
  import opened Tickets
  import opened Graph
  import opened Dependencies
  import opened Mutation
  import opened Adopt

  class Work {
    var rec: Record

    constructor (r: Record)
      ensures rec == r
    {
      rec := r;
    }

    // ----- one operation -----

    /** One operation in place: the record it computes, or a refusal and no change. */
    method Step(c: Context, p: Payload) returns (why: Option<Refusal>)
      requires Coherent(rec)
      modifies this
      ensures why.None? ==> StepOf(c, old(rec), p) == Done(rec)
      ensures why.Some? ==> StepOf(c, old(rec), p) == Refused(why.value) && rec == old(rec)
    {
      hide Without, Revoked, Refined, Opens;
      assert UniqueHolds(rec.holds) && UniqueGrants(rec.approvals);
      hide UniqueHolds, UniqueGrants, Effective;
      if !Permitted(c, rec, p) { return Some(Unauthorized); }
      if rec.status.ARCHIVED? && !p.Restore? { return Some(TicketState); }
      match p {
        case Refine(present, prose) => Refine(present, prose);
        case Prioritize(priority, order) => rec := rec.(priority := priority, order := order);
        case SetDependencies(ds) =>
          if !Live(rec.status) { return Some(TicketState); }
          rec := rec.(dependencies := ds);
        case SetGates(gs) =>
          if !Live(rec.status) { return Some(TicketState); }
          rec := rec.(requiredGates := gs);
        case SetEffects(e, caps, class_) =>
          if !Live(rec.status) { return Some(TicketState); }
          rec := rec.(effects := e);
          rec := rec.(capabilities := caps, executionClass := class_);
        case PlaceHold(id, reason) => why := Place(c, id, reason); return why;
        case ReleaseHold(id) => why := Release(id); return why;
        case Reopen =>
          if !rec.status.COMPLETED? { return Some(TicketState); }
          rec := rec.(completion := None);
          rec := rec.(status := OPEN);
        case Archive =>
          var from := rec.status;
          rec := rec.(archivedFrom := Some(from));
          rec := rec.(status := ARCHIVED);
        case Restore =>
          if !rec.status.ARCHIVED? || rec.archivedFrom.None? { return Some(TicketState); }
          rec := rec.(status := rec.archivedFrom.value);
          rec := rec.(archivedFrom := None);
        case CompleteManual(reason, evidence) =>
          if !rec.status.OPEN? { return Some(TicketState); }
          rec := rec.(completion := Some(Completion("MANUAL", c.actor, Some(reason), evidence, None, c.now)));
          rec := rec.(status := COMPLETED);
        case GrantApproval(_, _, _, _, _) => why := Grant(c, p); return why;
        case RevokeApproval(id) => why := Revoke(id); return why;
      }
      return None;
    }

    /** Each present field is taken; a draft that now opens is opened. */
    method Refine(present: set<Field>, p: Prose)
      modifies this
      ensures rec == old(rec).(prose := Refined(old(rec).prose, present, p),
                               status := if old(rec).status.DRAFT? && Opens(Refined(old(rec).prose, present, p)) then OPEN else old(rec).status)
    {
      var q := rec.prose;
      var title, body, kind, owner := q.title, q.body, q.kind, q.owner;
      var milestone, labels, criteria, refs := q.milestone, q.labels, q.acceptanceCriteria, q.requirementRefs;
      var dueDate, estimate, supersedes := q.dueDate, q.estimateMinutes, q.supersedes;
      if Title in present { title := p.title; }
      if Body in present { body := p.body; }
      if Kind in present { kind := p.kind; }
      if Owner in present { owner := p.owner; }
      if Milestone in present { milestone := p.milestone; }
      if Labels in present { labels := p.labels; }
      if Criteria in present { criteria := p.acceptanceCriteria; }
      if Refs in present { refs := p.requirementRefs; }
      if DueDate in present { dueDate := p.dueDate; }
      if Estimate in present { estimate := p.estimateMinutes; }
      if Supersedes in present { supersedes := p.supersedes; }
      q := Prose(title, body, kind, owner, milestone, labels, criteria, refs, dueDate, estimate, supersedes);
      assert q == Refined(rec.prose, present, p);
      rec := rec.(prose := q);
      if rec.status.DRAFT? && Opens(rec.prose) { rec := rec.(status := OPEN); }
    }

    method Place(c: Context, id: string, reason: string) returns (why: Option<Refusal>)
      modifies this
      ensures why.None? ==> (old(rec).status.OPEN? || old(rec).status.HELD?) && !HasHold(old(rec).holds, id) && |old(rec).holds| < MAX_HOLDS
                            && rec == old(rec).(holds := old(rec).holds + [Hold(id, c.actor, reason, c.now)], status := HELD)
      ensures why.Some? ==> rec == old(rec)
      ensures why.Some? ==> why.value == if !old(rec).status.OPEN? && !old(rec).status.HELD? then TicketState
                                         else if HasHold(old(rec).holds, id) then DuplicateId else TooMany
      ensures why == Some(TooMany) ==> |old(rec).holds| >= MAX_HOLDS
    {
      if !rec.status.OPEN? && !rec.status.HELD? { return Some(TicketState); }
      var i := 0;
      while i < |rec.holds|
        invariant i <= |rec.holds| && rec == old(rec)
        invariant forall j :: 0 <= j < i ==> rec.holds[j].holdId != id
      {
        if rec.holds[i].holdId == id { return Some(DuplicateId); }
        i := i + 1;
      }
      if |rec.holds| >= MAX_HOLDS { return Some(TooMany); }
      rec := rec.(holds := rec.holds + [Hold(id, c.actor, reason, c.now)]);
      rec := rec.(status := HELD);
      return None;
    }

    /** The hold is cut out where it was found; the last one released opens the ticket. */
    method Release(id: string) returns (why: Option<Refusal>)
      requires UniqueHolds(rec.holds)
      modifies this
      ensures why.None? ==> old(rec).status.HELD? && HasHold(old(rec).holds, id)
                            && rec == old(rec).(holds := Without(old(rec).holds, id),
                                                status := if Without(old(rec).holds, id) == [] then OPEN else old(rec).status)
      ensures why.Some? ==> rec == old(rec)
      ensures why.Some? ==> why.value == if !old(rec).status.HELD? then TicketState else Malformed
      ensures why == Some(Malformed) ==> !HasHold(old(rec).holds, id)
    {
      if !rec.status.HELD? { return Some(TicketState); }
      var idx, i := -1, 0;
      while i < |rec.holds|
        invariant i <= |rec.holds| && -1 <= idx < i && rec == old(rec)
        invariant idx >= 0 ==> rec.holds[idx].holdId == id
        invariant idx < 0 ==> forall j :: 0 <= j < i ==> rec.holds[j].holdId != id
      {
        if rec.holds[i].holdId == id { idx := i; }
        i := i + 1;
      }
      if idx < 0 { return Some(Malformed); }
      CutOut(rec.holds, idx);
      rec := rec.(holds := rec.holds[..idx] + rec.holds[idx + 1..]);
      if |rec.holds| == 0 { rec := rec.(status := OPEN); }
      return None;
    }

    method Grant(c: Context, p: Payload) returns (why: Option<Refusal>)
      requires p.GrantApproval?
      modifies this
      ensures why.None? ==> p.actor == c.actor && p.targetRevision == old(rec).acceptance && !HasGrant(old(rec).approvals, p.grantId)
                            && |old(rec).approvals| < MAX_APPROVALS
                            && rec == old(rec).(approvals := old(rec).approvals
                                 + [Approval(p.grantId, p.actor, p.operation, p.targetRevision, p.scope, false, c.now)])
      ensures why.Some? ==> rec == old(rec)
      ensures why.Some? ==> why.value == if p.actor != c.actor then Unauthorized else if p.targetRevision != old(rec).acceptance then Malformed
                                         else if HasGrant(old(rec).approvals, p.grantId) then DuplicateId else TooMany
      ensures why == Some(TooMany) ==> |old(rec).approvals| >= MAX_APPROVALS
    {
      if p.actor != c.actor { return Some(Unauthorized); }
      if p.targetRevision != rec.acceptance { return Some(Malformed); }
      var i := 0;
      while i < |rec.approvals|
        invariant i <= |rec.approvals| && rec == old(rec)
        invariant forall j :: 0 <= j < i ==> rec.approvals[j].grantId != p.grantId
      {
        if rec.approvals[i].grantId == p.grantId { return Some(DuplicateId); }
        i := i + 1;
      }
      if |rec.approvals| >= MAX_APPROVALS { return Some(TooMany); }
      rec := rec.(approvals := rec.approvals + [Approval(p.grantId, p.actor, p.operation, p.targetRevision, p.scope, false, c.now)]);
      return None;
    }

    method Revoke(id: string) returns (why: Option<Refusal>)
      requires UniqueGrants(rec.approvals)
      modifies this
      ensures why.None? ==> InForce(old(rec).approvals, id) && rec == old(rec).(approvals := Revoked(old(rec).approvals, id))
      ensures why.Some? ==> why.value == Malformed && rec == old(rec) && (!HasGrant(old(rec).approvals, id) || !InForce(old(rec).approvals, id))
    {
      var idx, i := -1, 0;
      while i < |rec.approvals|
        invariant i <= |rec.approvals| && -1 <= idx < i && rec == old(rec)
        invariant idx >= 0 ==> rec.approvals[idx].grantId == id
        invariant idx < 0 ==> forall j :: 0 <= j < i ==> rec.approvals[j].grantId != id
      {
        if rec.approvals[i].grantId == id { idx := i; }
        i := i + 1;
      }
      if idx < 0 { return Some(Malformed); }
      if rec.approvals[idx].revoked { return Some(Malformed); }
      var gs := rec.approvals;
      gs := gs[idx := gs[idx].(revoked := true)];
      assert gs == Revoked(rec.approvals, id);
      rec := rec.(approvals := gs);
      return None;
    }

    // ----- the change as a whole -----

    /** The whole-change checks, then the chain fields, once. */
    method Finalize(c: Context, pre: Record, forced: bool) returns (why: Option<Refusal>)
      modifies this
      ensures why.None? ==> Finalizes(c, pre, old(rec), forced) && rec == Chained(c, pre, old(rec), forced || AcceptanceOf(pre) != AcceptanceOf(old(rec)))
      ensures why.Some? ==> !Finalizes(c, pre, old(rec), forced)
    {
      hide Checked, Valid;
      var changed := AcceptanceOf(pre) != AcceptanceOf(rec);
      if pre.status.COMPLETED? && changed { return Some(TicketState); }
      why := CheckRecord(c, Some(pre), rec);
      if why.Some? { return; }
      var bump := forced || changed;
      if bump && !c.attempt.Unsatisfied? { return Some(AttemptLive); }
      var rev := pre.revision + 1;
      if rev > MAX_COUNT { return Some(TooMany); }
      rec := rec.(revision := rev, acceptance := pre.acceptance);
      if bump {
        var acc := pre.acceptance + 1;
        if acc > MAX_COUNT { return Some(TooMany); }
        rec := rec.(acceptance := acc);
      }
      rec := rec.(previous := Some(Link(pre)));
      rec := rec.(updatedAt := c.now, updatedBy := c.actor);
      if !Valid(rec) { return Some(Malformed); }
      if !c.fits(rec) { return Some(TooMany); }
      return None;
    }
  }

  /** Cutting out one hold of a list without two of the same identifier. */
  lemma {:induction false} CutOut(hs: seq<Hold>, k: nat)
    requires UniqueHolds(hs) && k < |hs|
    ensures Without(hs, hs[k].holdId) == hs[..k] + hs[k + 1..]
  {
    UniqueTail(hs);
    if k == 0 {
      WithoutNone(hs[1..], hs[0].holdId);
    } else {
      CutOut(hs[1..], k - 1);
      assert hs[1..][k - 1] == hs[k];
      assert hs[..k] == [hs[0]] + hs[1..][..k - 1];
      assert hs[1..][k..] == hs[k + 1..];
    }
  }

  method CheckRecord(c: Context, pre: Option<Record>, r: Record) returns (why: Option<Refusal>)
    ensures why.None? <==> Checked(c, pre, r)
  {
    hide LeadsBack;
    var deps := pre.None? || pre.value.dependencies != r.dependencies;
    var gates := pre.None? || pre.value.requiredGates != r.requiredGates;
    if deps {
      var v := CheckDependencies(c.inventory, r.ticketId, Targets(r.dependencies));
      if v.Rejected? { return Some(if v.why.Missing? then DependencyMissing else DependencyCycle); }
    }
    if deps || gates {
      var known := CheckGates(c, r);
      if !known { return Some(GateUnknown); }
    }
    if (pre.None? || pre.value.prose.supersedes != r.prose.supersedes) && r.prose.supersedes.Some? && r.prose.supersedes.value !in c.inventory {
      return Some(DependencyMissing);
    }
    if pre.None? && r.supersededBy.Some? && r.supersededBy.value !in c.inventory { return Some(DependencyMissing); }
    return None;
  }

  method CheckGates(c: Context, r: Record) returns (known: bool)
    ensures known <==> GatesKnown(c, r)
  {
    var i := 0;
    while i < |r.requiredGates|
      invariant i <= |r.requiredGates| && forall j :: 0 <= j < i ==> r.requiredGates[j] in c.gates
    {
      if r.requiredGates[i] !in c.gates { return false; }
      i := i + 1;
    }
    i := 0;
    while i < |r.dependencies|
      invariant i <= |r.dependencies|
      invariant forall j :: 0 <= j < i && r.dependencies[j].gateId.Some? ==> r.dependencies[j].gateId.value in c.gates
    {
      if r.dependencies[i].gateId.Some? && r.dependencies[i].gateId.value !in c.gates { return false; }
      i := i + 1;
    }
    return true;
  }

  /** Planning one envelope operation on the inventory's current record. */
  method Apply(c: Context, pre: Record, expected: nat, p: Payload) returns (r: Attempt<Record>)
    ensures r.Done? ==> Valid(pre) && expected == pre.revision && Applies(c, pre, p, r.value)
    ensures r.Refused? ==> !Valid(pre) || expected != pre.revision || forall post :: !Applies(c, pre, p, post)
  {
    hide StepOf, Finalizes, Coherent, Numbered, WellRelated;
    if OpOf(p) !in c.permitted {
      Unpermitted(c, pre, p);
      return Refused(Unauthorized);
    }
    if expected != pre.revision { return Refused(StaleTicket); }
    if !Valid(pre) { return Refused(Malformed); }
    var work := new Work(pre);
    var why := work.Step(c, p);
    if why.Some? { return Refused(why.value); }
    why := work.Finalize(c, pre, Forces(p));
    return if why.Some? then Refused(why.value) else Done(work.rec);
  }

  lemma Unpermitted(c: Context, r: Record, p: Payload)
    requires OpOf(p) !in c.permitted
    ensures StepOf(c, r, p) == Refused(Unauthorized)
  {
  }

  // ----- composing an adoption -----

  function HoldIds(hs: seq<Hold>): (r: seq<string>)
    ensures |r| == |hs| && forall i :: 0 <= i < |hs| ==> r[i] == hs[i].holdId
  {
    seq(|hs|, i requires 0 <= i < |hs| => hs[i].holdId)
  }

  /** The holds of a list by their identifiers. */
  method ByIdentifier(hs: seq<Hold>) returns (index: map<string, Hold>)
    requires UniqueHolds(hs)
    ensures forall id :: id in index <==> HasHold(hs, id)
    ensures forall k :: 0 <= k < |hs| ==> hs[k].holdId in index && index[hs[k].holdId] == hs[k]
  {
    index := map[];
    var i := 0;
    while i < |hs|
      invariant i <= |hs|
      invariant forall id :: id in index <==> exists k :: 0 <= k < i && hs[k].holdId == id
      invariant forall k :: 0 <= k < i ==> hs[k].holdId in index && index[hs[k].holdId] == hs[k]
    {
      index := index[hs[i].holdId := hs[i]];
      i := i + 1;
    }
  }

  lemma SameCommon(a: seq<Hold>, f: seq<Hold>)
    requires UniqueHolds(a) && UniqueHolds(f) && forall h :: h in Common(a, f) ==> h in f
    ensures HoldsComposable(a, f) <==> HoldIds(Common(a, f)) == HoldIds(Common(f, a))
  {
    var x, y := Common(a, f), Common(f, a);
    FreshParts(a, f);
    FreshParts(f, a);
    if HoldIds(x) == HoldIds(y) {
      assert |HoldIds(x)| == |x| && |HoldIds(y)| == |y|;
      forall i | 0 <= i < |x| ensures x[i] == y[i] {
        assert x[i].holdId == HoldIds(x)[i] == HoldIds(y)[i] == y[i].holdId;
        assert x[i] in x && y[i] in y;
        var j: nat :| j < |f| && f[j] == x[i];
        var k: nat :| k < |f| && f[k] == y[i];
        Same(f, j, k);
      }
      assert x == y;
    }
  }

  lemma EditedHold(a: seq<Hold>, f: seq<Hold>, i: nat, k: nat)
    requires UniqueHolds(a) && UniqueHolds(f) && i < |a| && k < |f| && f[k].holdId == a[i].holdId && f[k] != a[i]
    ensures !HoldsComposable(a, f)
  {
    FreshParts(a, f);
    FreshParts(f, a);
    assert a[i] in Common(a, f);
    if a[i] in Common(f, a) {
      var j: nat :| j < |f| && f[j] == a[i];
      Same(f, j, k);
    }
  }

  /** The identifiers of the holds the file kept, unless it edited one. */
  method KeptIds(a: seq<Hold>, f: seq<Hold>, fileBy: map<string, Hold>) returns (ids: Option<seq<string>>)
    requires UniqueHolds(a) && UniqueHolds(f)
    requires forall id :: id in fileBy <==> HasHold(f, id)
    requires forall k :: 0 <= k < |f| ==> f[k].holdId in fileBy && fileBy[f[k].holdId] == f[k]
    ensures ids.None? ==> !HoldsComposable(a, f)
    ensures ids.Some? ==> ids.value == HoldIds(Common(a, f)) && forall h :: h in Common(a, f) ==> h in f
  {
    hide UniqueHolds, HoldsComposable, HasHold, Common, HoldIds;
    var kept: seq<string> := [];
    var i := 0;
    assert a[0..] == a;
    while i < |a|
      invariant i <= |a|
      invariant kept + HoldIds(Common(a[i..], f)) == HoldIds(Common(a, f))
      invariant forall j :: 0 <= j < i && HasHold(f, a[j].holdId) ==> a[j] in f
    {
      CommonStep(a, f, i);
      if a[i].holdId in fileBy {
        ghost var k := Held(f, a[i].holdId);
        if fileBy[a[i].holdId] != a[i] {
          EditedHold(a, f, i, k);
          return None;
        }
        assert a[i] == f[k];
        kept := kept + [a[i].holdId];
      }
      i := i + 1;
    }
    assert a[i..] == [];
    NoIds(f);
    FreshParts(a, f);
    return Some(kept);
  }

  lemma NoIds(f: seq<Hold>)
    ensures HoldIds(Common([], f)) == []
  {
  }

  method CommonIds(f: seq<Hold>, a: seq<Hold>, canonBy: map<string, Hold>) returns (ids: seq<string>)
    requires forall id :: id in canonBy <==> HasHold(a, id)
    ensures ids == HoldIds(Common(f, a))
  {
    hide HasHold, Common, HoldIds;
    ids := [];
    var i := 0;
    assert f[0..] == f;
    while i < |f|
      invariant i <= |f|
      invariant ids + HoldIds(Common(f[i..], a)) == HoldIds(Common(f, a))
    {
      CommonStep(f, a, i);
      if f[i].holdId in canonBy { ids := ids + [f[i].holdId]; }
      i := i + 1;
    }
    assert f[i..] == [];
    NoIds(a);
  }

  method ListPlaces(f: seq<Hold>, a: seq<Hold>, canonBy: map<string, Hold>) returns (ops: seq<Payload>)
    requires forall id :: id in canonBy <==> HasHold(a, id)
    ensures ops == Places(Fresh(f, a))
  {
    hide HasHold, Fresh;
    ops := [];
    var i := 0;
    assert f[0..] == f;
    while i < |f|
      invariant i <= |f|
      invariant ops + Places(Fresh(f[i..], a)) == Places(Fresh(f, a))
    {
      FreshStep(f, a, i);
      if f[i].holdId !in canonBy { ops := ops + [PlaceHold(f[i].holdId, f[i].reason)]; }
      i := i + 1;
    }
    assert f[i..] == [] && Fresh([], a) == [] by { NoneFresh(a); }
  }

  method ListReleases(a: seq<Hold>, f: seq<Hold>, fileBy: map<string, Hold>) returns (ops: seq<Payload>)
    requires forall id :: id in fileBy <==> HasHold(f, id)
    ensures ops == Releases(Fresh(a, f))
  {
    hide HasHold, Fresh;
    ops := [];
    var i := 0;
    assert a[0..] == a;
    while i < |a|
      invariant i <= |a|
      invariant ops + Releases(Fresh(a[i..], f)) == Releases(Fresh(a, f))
    {
      FreshStep(a, f, i);
      if a[i].holdId !in fileBy { ops := ops + [ReleaseHold(a[i].holdId)]; }
      i := i + 1;
    }
    assert a[i..] == [] && Fresh([], f) == [] by { NoneFresh(f); }
  }

  lemma NoneFresh(others: seq<Hold>)
    ensures Fresh([], others) == []
  {
  }

  /** New holds, then releases; refused when a common hold was edited or moved. */
  method ComposeHolds(a: seq<Hold>, f: seq<Hold>) returns (r: Attempt<seq<Payload>>)
    requires UniqueHolds(a) && UniqueHolds(f)
    ensures r == if HoldsComposable(a, f) then Done(HoldOps(a, f)) else Refused(AdoptUnsupportedField)
  {
    hide UniqueHolds, HoldsComposable, HasHold;
    var canonBy := ByIdentifier(a);
    var fileBy := ByIdentifier(f);
    var canonCommon := KeptIds(a, f, fileBy);
    if canonCommon.None? { return Refused(AdoptUnsupportedField); }
    var fileCommon := CommonIds(f, a, canonBy);
    SameCommon(a, f);
    if canonCommon.value != fileCommon { return Refused(AdoptUnsupportedField); }
    var placed := ListPlaces(f, a, canonBy);
    var released := ListReleases(a, f, fileBy);
    return Done(placed + released);
  }

  lemma Held(hs: seq<Hold>, id: string) returns (k: nat)
    requires HasHold(hs, id)
    ensures k < |hs| && hs[k].holdId == id
  {
    k :| k < |hs| && hs[k].holdId == id;
  }

  lemma CommonStep(hs: seq<Hold>, others: seq<Hold>, i: nat)
    requires i < |hs|
    ensures HoldIds(Common(hs[i..], others)) == (if HasHold(others, hs[i].holdId) then [hs[i].holdId] else []) + HoldIds(Common(hs[i + 1..], others))
  {
    assert hs[i..][1..] == hs[i + 1..] && hs[i..][0] == hs[i];
  }

  lemma FreshStep(hs: seq<Hold>, others: seq<Hold>, i: nat)
    requires i < |hs|
    ensures var x, y := Fresh(hs[i..], others), Fresh(hs[i + 1..], others);
      && (HasHold(others, hs[i].holdId) ==> x == y)
      && (!HasHold(others, hs[i].holdId) ==>
            && x == [hs[i]] + y && Places(x) == [PlaceHold(hs[i].holdId, hs[i].reason)] + Places(y)
            && Releases(x) == [ReleaseHold(hs[i].holdId)] + Releases(y))
  {
    assert hs[i..][1..] == hs[i + 1..] && hs[i..][0] == hs[i];
    var x, y := Fresh(hs[i..], others), Fresh(hs[i + 1..], others);
    if HasHold(others, hs[i].holdId) {
      assert [] + y == y;
    } else {
      assert x == [hs[i]] + y && x[1..] == y;
    }
  }

  const REFINE_FIELDS: seq<Field> := [Title, Body, Kind, Owner, Milestone, Labels, Criteria, Refs, DueDate, Estimate, Supersedes]

  lemma AllFields(k: Field)
    ensures k in REFINE_FIELDS
  {
    var n := match k case Title => 0 case Body => 1 case Kind => 2 case Owner => 3 case Milestone => 4 case Labels => 5 case Criteria => 6
                     case Refs => 7 case DueDate => 8 case Estimate => 9 case Supersedes => 10;
    assert REFINE_FIELDS[n] == k;
  }

  method DiffProse(a: Prose, f: Prose) returns (present: set<Field>)
    ensures present == ProseDiff(a, f)
  {
    hide Differs;
    present := {};
    var i := 0;
    while i < |REFINE_FIELDS|
      invariant i <= |REFINE_FIELDS| == 11
      invariant forall k :: k in present <==> Differs(a, f, k) && exists j :: 0 <= j < i && REFINE_FIELDS[j] == k
    {
      if Differs(a, f, REFINE_FIELDS[i]) { present := present + {REFINE_FIELDS[i]}; }
      i := i + 1;
    }
    forall k ensures k in present <==> Differs(a, f, k) { AllFields(k); }
  }

  method ComposeFields(a: Record, f: Record) returns (ops: seq<Payload>)
    ensures ops == FieldOps(a, f)
  {
    hide ProseDiff;
    var present := DiffProse(a.prose, f.prose);
    ops := if present != {} then [Refine(present, f.prose)] else [];
    ops := ops + if a.priority != f.priority || a.order != f.order then [Prioritize(f.priority, f.order)] else [];
    ops := ops + if a.dependencies != f.dependencies then [SetDependencies(f.dependencies)] else [];
    ops := ops + if a.requiredGates != f.requiredGates then [SetGates(f.requiredGates)] else [];
    ops := ops + if a.effects != f.effects || a.capabilities != f.capabilities || a.executionClass != f.executionClass
                 then [SetEffects(f.effects, f.capabilities, f.executionClass)] else [];
  }

  method ComposeAdopt(a: Record, f: Record) returns (r: Attempt<seq<Payload>>)
    requires UniqueHolds(a.holds) && UniqueHolds(f.holds)
    ensures r == if a.holds != f.holds && !HoldsComposable(a.holds, f.holds) then Refused(AdoptUnsupportedField) else Done(Composed(a, f))
  {
    hide UniqueHolds, HoldsComposable, HoldOps, FieldOps;
    var ops := ComposeFields(a, f);
    if a.holds != f.holds {
      var held := ComposeHolds(a.holds, f.holds);
      if held.Refused? { return held; }
      ops := ops + held.value;
    } else {
      assert ops + [] == ops;
    }
    return Done(ops);
  }

  /** Planning the adoption of a diverged file over the inventory's current record. */
  method AdoptFile(c: Context, a: Record, f: Record) returns (r: Attempt<Record>)
    ensures r.Done? ==> Valid(a) && Adopts(c, a, f, r.value)
    ensures r.Refused? ==> !Valid(a) || forall post :: !Adopts(c, a, f, post)
  {
    hide StepOf, Finalizes, Composed, Numbered, WellRelated, Unprotected, HoldsComposable, Covered;
    if !c.role.OWNER? && !c.role.OPERATOR? { return Refused(Unauthorized); }
    if !Valid(f) || f.ticketId != a.ticketId { return Refused(Malformed); }
    if a.status.ARCHIVED? { return Refused(TicketState); }
    if !Unprotected(a, f) { return Refused(AdoptUnsupportedField); }
    if !Valid(a) { return Refused(Malformed); }
    var composed := ComposeAdopt(a, f);
    if composed.Refused? { return Refused(composed.why); }
    var work := new Work(a);
    var ops, i := composed.value, 0;
    while i < |ops|
      invariant i <= |ops| && Coherent(work.rec)
      invariant Steps(c, a, ops) == Steps(c, work.rec, ops[i..])
    {
      ghost var was := work.rec;
      var why := work.Step(c, ops[i]);
      assert ops[i..][1..] == ops[i + 1..];
      if why.Some? { return Refused(why.value); }
      OpCoherent(c, was, ops[i]);
      i := i + 1;
    }
    if !Covered(a, work.rec, f) { return Refused(AdoptUnsupportedField); }
    var why := work.Finalize(c, a, false);
    return if why.Some? then Refused(why.value) else Done(work.rec);
  }

  lemma OpCoherent(c: Context, r: Record, p: Payload)
    requires Coherent(r) && StepOf(c, r, p).Done?
    ensures Coherent(StepOf(c, r, p).value)
  {
    if p.ReleaseHold? { WithoutHolds(r.holds, p.holdId); }
  }

  const MAX_TICKETS: nat := 10000

  predicate MayCreate(c: Context, source: Source) {
    && CREATE in c.permitted && |c.inventory| < MAX_TICKETS
    && match c.role
       case IMPORTER => source.kind == "IMPORT"
       case WORKER | SYSTEM | REVIEWER => false
       case OWNER | OPERATOR => true
  }

  /** Planning a CREATE under an identifier no ticket holds. */
  method Create(c: Context, id: string, prose: Prose, priority: string, order: nat, deps: seq<Dependency>, source: Source,
                effects: Effects, caps: seq<string>, gates: seq<string>, class_: string, supersededBy: Option<string>)
    returns (r: Attempt<Record>)
    ensures r.Done? ==> MayCreate(c, source) && IsCreated(c, r.value)
                        && r.value == Created(c, id, prose, priority, order, deps, source, effects, caps, gates, class_, supersededBy)
    ensures r.Refused? ==> !MayCreate(c, source)
                           || !IsCreated(c, Created(c, id, prose, priority, order, deps, source, effects, caps, gates, class_, supersededBy))
  {
    hide Checked, Valid;
    if !MayCreate(c, source) { return Refused(Unauthorized); }
    var rec := Record(id, 1, 1, None, DRAFT, None, prose, priority, order, deps, source, effects, caps, gates,
                      [], class_, [], None, supersededBy, false, c.now, c.now, c.actor);
    if Opens(rec.prose) { rec := rec.(status := OPEN); }
    if !Valid(rec) { return Refused(Malformed); }
    var why := CheckRecord(c, None, rec);
    if why.Some? { return Refused(why.value); }
    return if c.fits(rec) then Done(rec) else Refused(TooMany);
  }

  /** What a view reads off the approvals: a RUN grant in force, or only revoked ones. */
  method RunApproval(r: Record) returns (granted: bool, revoked: bool)
    ensures granted <==> RunGranted(r)
    ensures revoked <==> exists i :: 0 <= i < |r.approvals| && r.approvals[i].operation == "RUN" && r.approvals[i].targetRevision == r.acceptance && r.approvals[i].revoked
  {
    granted, revoked := false, false;
    var i := 0;
    while i < |r.approvals|
      invariant i <= |r.approvals|
      invariant granted <==> exists k :: 0 <= k < i && r.approvals[k].operation == "RUN" && r.approvals[k].targetRevision == r.acceptance && !r.approvals[k].revoked
      invariant revoked <==> exists k :: 0 <= k < i && r.approvals[k].operation == "RUN" && r.approvals[k].targetRevision == r.acceptance && r.approvals[k].revoked
    {
      if r.approvals[i].operation == "RUN" && r.approvals[i].targetRevision == r.acceptance {
        if r.approvals[i].revoked { revoked := true; } else { granted := true; }
      }
      i := i + 1;
    }
  }
}
