/** Adopting a diverged ticket file: its differences become operations, applied in one
    fixed order as one revision, and the result must be the file. */
module Adopt {
  import opened Wrappers
  import opened Tickets
  import opened Graph
  import opened Dependencies
  import opened Mutation

  /** Operations one after another on one working record. */
  function Steps(c: Context, r: Record, ops: seq<Payload>): Attempt<Record>
    decreases |ops|
  {
    if ops == [] then Done(r)
    else match StepOf(c, r, ops[0])
      case Refused(why) => Refused(why)
      case Done(q) => Steps(c, q, ops[1..])
  }

  function After(c: Context, done: Attempt<Record>, rest: seq<Payload>): Attempt<Record> {
    match done
    case Refused(why) => Refused(why)
    case Done(q) => Steps(c, q, rest)
  }

  lemma {:induction false} StepsSplit(c: Context, r: Record, a: seq<Payload>, b: seq<Payload>)
    ensures Steps(c, r, a + b) == After(c, Steps(c, r, a), b)
    decreases |a|
  {
    if a == [] {
      assert a + b == b;
    } else {
      assert (a + b)[0] == a[0] && (a + b)[1..] == a[1..] + b;
      match StepOf(c, r, a[0])
      case Refused(_) =>
      case Done(q) => StepsSplit(c, q, a[1..], b);
    }
  }

  // ----- the differences -----

  predicate Differs(a: Prose, b: Prose, k: Field) {
    match k
    case Title => a.title != b.title
    case Body => a.body != b.body
    case Kind => a.kind != b.kind
    case Owner => a.owner != b.owner
    case Milestone => a.milestone != b.milestone
    case Labels => a.labels != b.labels
    case Criteria => a.acceptanceCriteria != b.acceptanceCriteria
    case Refs => a.requirementRefs != b.requirementRefs
    case DueDate => a.dueDate != b.dueDate
    case Estimate => a.estimateMinutes != b.estimateMinutes
    case Supersedes => a.supersedes != b.supersedes
  }

  function ProseDiff(a: Prose, b: Prose): set<Field> { set k: Field | Differs(a, b, k) }

  /** The protected fields agree, and the status differs at most between live statuses. */
  predicate Unprotected(a: Record, f: Record) {
    && a.archivedFrom == f.archivedFrom && a.completion == f.completion && a.approvals == f.approvals
    && a.revision == f.revision && a.acceptance == f.acceptance && a.previous == f.previous
    && a.source == f.source && a.shadowOverlay == f.shadowOverlay && a.supersededBy == f.supersededBy
    && a.createdAt == f.createdAt && a.updatedBy == f.updatedBy
    && (a.status == f.status || (Live(a.status) && Live(f.status)))
  }

  function Common(hs: seq<Hold>, others: seq<Hold>): seq<Hold> {
    if hs == [] then []
    else (if HasHold(others, hs[0].holdId) then [hs[0]] else []) + Common(hs[1..], others)
  }

  function Fresh(hs: seq<Hold>, others: seq<Hold>): seq<Hold> {
    if hs == [] then []
    else (if HasHold(others, hs[0].holdId) then [] else [hs[0]]) + Fresh(hs[1..], others)
  }

  /** Each hold on both sides is the same hold, in the same order. */
  predicate HoldsComposable(a: seq<Hold>, f: seq<Hold>) { Common(a, f) == Common(f, a) }

  function Places(hs: seq<Hold>): seq<Payload> {
    if hs == [] then [] else [PlaceHold(hs[0].holdId, hs[0].reason)] + Places(hs[1..])
  }

  function Releases(hs: seq<Hold>): seq<Payload> {
    if hs == [] then [] else [ReleaseHold(hs[0].holdId)] + Releases(hs[1..])
  }

  function HoldOps(a: seq<Hold>, f: seq<Hold>): seq<Payload> { Places(Fresh(f, a)) + Releases(Fresh(a, f)) }

  function If<T>(need: bool, p: T): seq<T> { if need then [p] else [] }

  /** The operations before the holds, in their fixed order. */
  function FieldOps(a: Record, f: Record): seq<Payload> {
    If(ProseDiff(a.prose, f.prose) != {}, Refine(ProseDiff(a.prose, f.prose), f.prose))
    + If(a.priority != f.priority || a.order != f.order, Prioritize(f.priority, f.order))
    + If(a.dependencies != f.dependencies, SetDependencies(f.dependencies))
    + If(a.requiredGates != f.requiredGates, SetGates(f.requiredGates))
    + If(a.effects != f.effects || a.capabilities != f.capabilities || a.executionClass != f.executionClass,
         SetEffects(f.effects, f.capabilities, f.executionClass))
  }

  function Composed(a: Record, f: Record): seq<Payload> {
    FieldOps(a, f) + (if a.holds != f.holds then HoldOps(a.holds, f.holds) else [])
  }

  // ----- what must come out -----

  /** Every field the adoption does not set itself, holds and status apart. */
  predicate SameFields(w: Record, f: Record) {
    && w.ticketId == f.ticketId && w.archivedFrom == f.archivedFrom && w.prose == f.prose && w.priority == f.priority && w.order == f.order
    && w.dependencies == f.dependencies && w.source == f.source && w.effects == f.effects && w.capabilities == f.capabilities
    && w.requiredGates == f.requiredGates && w.executionClass == f.executionClass && w.approvals == f.approvals
    && w.completion == f.completion && w.supersededBy == f.supersededBy && w.shadowOverlay == f.shadowOverlay && w.createdAt == f.createdAt
  }

  predicate SameHolds(w: seq<Hold>, f: seq<Hold>) {
    |w| == |f| && forall i :: 0 <= i < |w| ==> w[i].holdId == f[i].holdId && w[i].reason == f[i].reason
  }

  predicate StatusCovered(a: Record, w: Record, f: Record) {
    w.status == f.status || (a.status.DRAFT? && f.status.DRAFT? && w.status.OPEN?)
  }

  predicate Covered(a: Record, w: Record, f: Record) {
    SameFields(w, f) && StatusCovered(a, w, f) && SameHolds(w.holds, f.holds)
  }

  /** The working record an adoption ends with, before the chain fields. */
  function Adopted(c: Context, a: Record, f: Record): Attempt<Record> {
    if !c.role.OWNER? && !c.role.OPERATOR? then Refused(Unauthorized)
    else if !Valid(f) || f.ticketId != a.ticketId then Refused(Malformed)
    else if a.status.ARCHIVED? then Refused(TicketState)
    else if !Unprotected(a, f) then Refused(AdoptUnsupportedField)
    else if a.holds != f.holds && !HoldsComposable(a.holds, f.holds) then Refused(AdoptUnsupportedField)
    else match Steps(c, a, Composed(a, f))
      case Refused(why) => Refused(why)
      case Done(w) => if Covered(a, w, f) then Done(w) else Refused(AdoptUnsupportedField)
  }

  /** `post` is the record a planned adoption of `f` yields. */
  ghost predicate Adopts(c: Context, a: Record, f: Record, post: Record) {
    && Adopted(c, a, f).Done?
    && var w := Adopted(c, a, f).value;
       Finalizes(c, a, w, false) && post == Chained(c, a, w, AcceptanceOf(a) != AcceptanceOf(w))
  }

  // ----- holds: common ones, then new ones -----

  function Placed(c: Context, hs: seq<Hold>): (r: seq<Hold>)
    ensures |r| == |hs| && forall i :: 0 <= i < |hs| ==> r[i] == Hold(hs[i].holdId, c.actor, hs[i].reason, c.now)
  {
    seq(|hs|, i requires 0 <= i < |hs| => Hold(hs[i].holdId, c.actor, hs[i].reason, c.now))
  }

  predicate Apart(hs: seq<Hold>, gs: seq<Hold>) { forall i :: 0 <= i < |hs| ==> !HasHold(gs, hs[i].holdId) }

  lemma PlaceRuns(c: Context, r: Record, h: Hold)
    requires StepOf(c, r, PlaceHold(h.holdId, h.reason)).Done?
    ensures StepOf(c, r, PlaceHold(h.holdId, h.reason)).value
         == r.(holds := r.holds + [Hold(h.holdId, c.actor, h.reason, c.now)], status := HELD)
    ensures (r.status.OPEN? || r.status.HELD?) && |r.holds| < MAX_HOLDS
  {
    hide Permitted, HasHold;
  }

  lemma ApartTail(r: seq<Hold>, hs: seq<Hold>, h: Hold)
    requires UniqueHolds(hs) && Apart(hs, r) && hs != [] && h.holdId == hs[0].holdId
    ensures UniqueHolds(hs[1..]) && Apart(hs[1..], r + [h])
  {
    forall i | 0 <= i < |hs[1..]| ensures !HasHold(r + [h], hs[1..][i].holdId) {
      assert hs[1..][i] == hs[i + 1] && hs[0].holdId != hs[i + 1].holdId && !HasHold(r, hs[i + 1].holdId);
    }
  }

  lemma Together<T>(a: seq<T>, x: T, b: seq<T>)
    ensures a + [x] + b == a + ([x] + b)
  {
  }

  lemma PlacedCons(c: Context, hs: seq<Hold>)
    requires hs != []
    ensures Placed(c, hs) == [Hold(hs[0].holdId, c.actor, hs[0].reason, c.now)] + Placed(c, hs[1..])
  {
    hide Placed;
  }

  lemma {:induction false} PlacesRun(c: Context, r: Record, hs: seq<Hold>)
    requires UniqueHolds(hs) && Apart(hs, r.holds) && Steps(c, r, Places(hs)).Done?
    ensures Steps(c, r, Places(hs)).value == r.(holds := r.holds + Placed(c, hs), status := if hs == [] then r.status else HELD)
    ensures hs != [] ==> (r.status.OPEN? || r.status.HELD?) && |r.holds| + |hs| <= MAX_HOLDS
    decreases |hs|
  {
    if hs == [] {
      assert r.holds + Placed(c, hs) == r.holds;
    } else {
      hide StepOf, UniqueHolds, Apart, Placed;
      assert Places(hs)[0] == PlaceHold(hs[0].holdId, hs[0].reason) && Places(hs)[1..] == Places(hs[1..]);
      var h := Hold(hs[0].holdId, c.actor, hs[0].reason, c.now);
      PlaceRuns(c, r, hs[0]);
      ApartTail(r.holds, hs, h);
      var q := r.(holds := r.holds + [h], status := HELD);
      PlacesRun(c, q, hs[1..]);
      PlacedCons(c, hs);
      Together(r.holds, h, Placed(c, hs[1..]));
    }
  }

  function Minus(hs: seq<Hold>, gs: seq<Hold>): seq<Hold>
    decreases |gs|
  {
    if gs == [] then hs else Minus(Without(hs, gs[0].holdId), gs[1..])
  }

  lemma {:induction false} ReleasesRun(c: Context, r: Record, gs: seq<Hold>)
    requires Steps(c, r, Releases(gs)).Done?
    ensures Steps(c, r, Releases(gs)).value == r.(holds := Minus(r.holds, gs), status := Steps(c, r, Releases(gs)).value.status)
    ensures Minus(r.holds, gs) != [] ==> Steps(c, r, Releases(gs)).value.status == r.status
    ensures gs != [] ==> r.status.HELD? && (Minus(r.holds, gs) == [] ==> Steps(c, r, Releases(gs)).value.status.OPEN?)
    decreases |gs|
  {
    if gs != [] {
      var q := StepOf(c, r, Releases(gs)[0]).value;
      assert Releases(gs)[1..] == Releases(gs[1..]);
      ReleasesRun(c, q, gs[1..]);
      if gs[1..] == [] { assert Minus(r.holds, gs) == q.holds; }
    }
  }

  lemma {:induction false} WithoutNone(hs: seq<Hold>, id: string)
    requires !HasHold(hs, id)
    ensures Without(hs, id) == hs
  {
    if hs != [] {
      assert hs[0].holdId != id;
      forall i | 0 <= i < |hs[1..]| ensures hs[1..][i].holdId != id { assert hs[1..][i] == hs[i + 1]; }
      WithoutNone(hs[1..], id);
      assert hs == [hs[0]] + hs[1..];
    }
  }

  lemma {:induction false} WithoutConcat(xs: seq<Hold>, ys: seq<Hold>, id: string)
    ensures Without(xs + ys, id) == Without(xs, id) + Without(ys, id)
  {
    if xs == [] {
      assert xs + ys == ys;
    } else {
      assert (xs + ys)[0] == xs[0] && (xs + ys)[1..] == xs[1..] + ys;
      WithoutConcat(xs[1..], ys, id);
    }
  }

  /** Releasing what the file no longer has leaves the common holds and the new ones. */
  lemma {:induction false} MinusConcat(xs: seq<Hold>, ys: seq<Hold>, gs: seq<Hold>)
    requires Apart(gs, ys)
    ensures Minus(xs + ys, gs) == Minus(xs, gs) + ys
    decreases |gs|
  {
    if gs != [] {
      assert !HasHold(ys, gs[0].holdId);
      WithoutConcat(xs, ys, gs[0].holdId);
      WithoutNone(ys, gs[0].holdId);
      forall i | 0 <= i < |gs[1..]| ensures !HasHold(ys, gs[1..][i].holdId) { assert gs[1..][i] == gs[i + 1]; }
      MinusConcat(Without(xs, gs[0].holdId), ys, gs[1..]);
    }
  }

  lemma {:induction false} FreshMembers(hs: seq<Hold>, gs: seq<Hold>)
    ensures |Fresh(hs, gs)| + |Common(hs, gs)| == |hs|
    ensures forall h :: h in Fresh(hs, gs) <==> h in hs && !HasHold(gs, h.holdId)
    ensures forall h :: h in Common(hs, gs) <==> h in hs && HasHold(gs, h.holdId)
  {
    hide HasHold;
    if hs != [] {
      FreshMembers(hs[1..], gs);
      assert hs == [hs[0]] + hs[1..];
    }
  }

  lemma UniqueCons(h: Hold, rest: seq<Hold>)
    requires UniqueHolds(rest) && forall x :: x in rest ==> x.holdId != h.holdId
    ensures UniqueHolds([h] + rest)
  {
    var r := [h] + rest;
    forall i, j | 0 <= i < j < |r| ensures r[i].holdId != r[j].holdId {
      assert r[j] == rest[j - 1] && rest[j - 1] in rest;
    }
  }

  lemma {:induction false} FreshUnique(hs: seq<Hold>, gs: seq<Hold>)
    requires UniqueHolds(hs)
    ensures UniqueHolds(Fresh(hs, gs))
  {
    if hs != [] {
      UniqueTail(hs);
      FreshUnique(hs[1..], gs);
      FreshMembers(hs[1..], gs);
      hide HasHold, UniqueHolds;
      if !HasHold(gs, hs[0].holdId) {
        UniqueCons(hs[0], Fresh(hs[1..], gs));
      } else {
        assert Fresh(hs, gs) == [] + Fresh(hs[1..], gs) == Fresh(hs[1..], gs);
      }
    }
  }

  lemma FreshParts(hs: seq<Hold>, gs: seq<Hold>)
    requires UniqueHolds(hs)
    ensures UniqueHolds(Fresh(hs, gs)) && Apart(Fresh(hs, gs), gs) && |Fresh(hs, gs)| + |Common(hs, gs)| == |hs|
    ensures forall h :: h in Fresh(hs, gs) <==> h in hs && !HasHold(gs, h.holdId)
    ensures forall h :: h in Common(hs, gs) <==> h in hs && HasHold(gs, h.holdId)
  {
    hide HasHold, UniqueHolds, Fresh, Common;
    FreshMembers(hs, gs);
    FreshUnique(hs, gs);
    var r := Fresh(hs, gs);
    forall i | 0 <= i < |r| ensures !HasHold(gs, r[i].holdId) { assert r[i] in r; }
  }

  lemma UniqueTail(hs: seq<Hold>)
    requires UniqueHolds(hs) && hs != []
    ensures UniqueHolds(hs[1..]) && !HasHold(hs[1..], hs[0].holdId)
    ensures forall h :: h in hs[1..] ==> h.holdId != hs[0].holdId
  {
    forall i | 0 <= i < |hs[1..]| ensures hs[1..][i].holdId != hs[0].holdId { assert hs[1..][i] == hs[i + 1]; }
  }

  lemma {:induction false} MinusHead(h: Hold, hs: seq<Hold>, gs: seq<Hold>)
    requires forall g :: g in gs ==> g.holdId != h.holdId
    ensures Minus([h] + hs, gs) == [h] + Minus(hs, gs)
    decreases |gs|
  {
    if gs != [] {
      assert gs[0] in gs;
      assert ([h] + hs)[0] == h && ([h] + hs)[1..] == hs;
      MinusHead(h, Without(hs, gs[0].holdId), gs[1..]);
    }
  }

  /** Releasing every hold the file does not have leaves the common ones, in order. */
  lemma {:induction false} MinusFresh(hs: seq<Hold>, f: seq<Hold>)
    requires UniqueHolds(hs)
    ensures Minus(hs, Fresh(hs, f)) == Common(hs, f)
  {
    if hs != [] {
      var h, t := hs[0], hs[1..];
      assert hs == [h] + t;
      UniqueTail(hs);
      FreshParts(t, f);
      MinusFresh(t, f);
      if HasHold(f, h.holdId) {
        assert Fresh(hs, f) == Fresh(t, f);
        MinusHead(h, t, Fresh(t, f));
      } else {
        assert Fresh(hs, f) == [h] + Fresh(t, f) && Fresh(hs, f)[1..] == Fresh(t, f);
        WithoutNone(t, h.holdId);
        assert Without(hs, h.holdId) == t;
      }
    }
  }

  lemma {:induction false} CommonAll(hs: seq<Hold>, f: seq<Hold>)
    requires forall h :: h in hs ==> HasHold(f, h.holdId)
    ensures Common(hs, f) == hs && Fresh(hs, f) == []
  {
    if hs != [] {
      assert hs[0] in hs;
      CommonAll(hs[1..], f);
      assert hs == [hs[0]] + hs[1..];
    }
  }

  lemma GoneApart(c: Context, f: seq<Hold>, hs: seq<Hold>)
    requires UniqueHolds(hs) && UniqueHolds(f)
    ensures Apart(Fresh(hs, f), Placed(c, Fresh(f, hs)))
  {
    var gone, added := Fresh(hs, f), Fresh(f, hs);
    FreshParts(hs, f);
    FreshParts(f, hs);
    forall i | 0 <= i < |gone| ensures !HasHold(Placed(c, added), gone[i].holdId) {
      forall j | 0 <= j < |added| ensures added[j].holdId != gone[i].holdId {
        assert added[j] in added && gone[i] in gone;
        var k :| 0 <= k < |f| && f[k] == added[j];
        assert !HasHold(f, gone[i].holdId);
      }
    }
  }

  // ----- fields -----

  /** An owner or operator issuing an operation that reconciling may issue. */
  predicate Allowed(c: Context, p: Payload) {
    (c.role.OWNER? || c.role.OPERATOR?) && !p.GrantApproval? && OpOf(p) in c.permitted
  }

  lemma Maybe(c: Context, r: Record, need: bool, p: Payload, rest: seq<Payload>)
    ensures need ==> Steps(c, r, If(need, p) + rest) == After(c, StepOf(c, r, p), rest)
    ensures !need ==> Steps(c, r, If(need, p) + rest) == Steps(c, r, rest)
  {
    hide StepOf;
    assert [] + rest == rest;
    assert ([p] + rest)[1..] == rest;
  }

  lemma RefineGives(a: Prose, f: Prose)
    ensures Refined(a, ProseDiff(a, f), f) == f && (ProseDiff(a, f) == {} ==> a == f)
  {
    var d := ProseDiff(a, f);
    assert forall k :: k in d <==> Differs(a, f, k);
  }

  /** The record with the file's refined fields, ranking, edges, gates and effects. */
  function Taken(a: Record, f: Record, status: Status): Record {
    a.(prose := f.prose, priority := f.priority, order := f.order, dependencies := f.dependencies, requiredGates := f.requiredGates,
       effects := f.effects, capabilities := f.capabilities, executionClass := f.executionClass, status := status)
  }

  function OpenedBy(a: Record, f: Record): Status {
    if a.status.DRAFT? && ProseDiff(a.prose, f.prose) != {} && Opens(f.prose) then OPEN else a.status
  }

  lemma RefineRuns(c: Context, a: Record, f: Record, rest: seq<Payload>)
    requires !a.status.ARCHIVED? && (ProseDiff(a.prose, f.prose) != {} ==> Allowed(c, Refine(ProseDiff(a.prose, f.prose), f.prose)))
    ensures Steps(c, a, If(ProseDiff(a.prose, f.prose) != {}, Refine(ProseDiff(a.prose, f.prose), f.prose)) + rest)
         == Steps(c, a.(prose := f.prose, status := OpenedBy(a, f)), rest)
  {
    hide ProseDiff, Refined, Steps, Opens;
    Maybe(c, a, ProseDiff(a.prose, f.prose) != {}, Refine(ProseDiff(a.prose, f.prose), f.prose), rest);
    RefineGives(a.prose, f.prose);
    assert Refine(ProseDiff(a.prose, f.prose), f.prose).Refine?;
  }

  lemma PrioritizeRuns(c: Context, r: Record, need: bool, priority: string, order: nat, rest: seq<Payload>)
    requires !r.status.ARCHIVED? && (if need then Allowed(c, Prioritize(priority, order)) else r.priority == priority && r.order == order)
    ensures Steps(c, r, If(need, Prioritize(priority, order)) + rest) == Steps(c, r.(priority := priority, order := order), rest)
  {
    hide Steps;
    Maybe(c, r, need, Prioritize(priority, order), rest);
  }

  lemma DependenciesRun(c: Context, r: Record, need: bool, ds: seq<Dependency>, rest: seq<Payload>)
    requires !r.status.ARCHIVED? && (if need then Allowed(c, SetDependencies(ds)) else r.dependencies == ds)
    ensures Steps(c, r, If(need, SetDependencies(ds)) + rest)
         == if need && !Live(r.status) then Refused(TicketState) else Steps(c, r.(dependencies := ds), rest)
  {
    hide Steps;
    Maybe(c, r, need, SetDependencies(ds), rest);
  }

  lemma GatesRun(c: Context, r: Record, need: bool, gs: seq<string>, rest: seq<Payload>)
    requires !r.status.ARCHIVED? && (if need then Allowed(c, SetGates(gs)) else r.requiredGates == gs)
    ensures Steps(c, r, If(need, SetGates(gs)) + rest)
         == if need && !Live(r.status) then Refused(TicketState) else Steps(c, r.(requiredGates := gs), rest)
  {
    hide Steps;
    Maybe(c, r, need, SetGates(gs), rest);
  }

  lemma EffectsRun(c: Context, r: Record, need: bool, e: Effects, caps: seq<string>, class_: string, rest: seq<Payload>)
    requires !r.status.ARCHIVED?
    requires if need then Allowed(c, SetEffects(e, caps, class_)) else r.effects == e && r.capabilities == caps && r.executionClass == class_
    ensures Steps(c, r, If(need, SetEffects(e, caps, class_)) + rest)
         == if need && !Live(r.status) then Refused(TicketState)
            else Steps(c, r.(effects := e, capabilities := caps, executionClass := class_), rest)
  {
    hide Steps;
    Maybe(c, r, need, SetEffects(e, caps, class_), rest);
  }

  lemma Nested<T>(a: seq<T>, b: seq<T>, c: seq<T>, d: seq<T>, e: seq<T>, rest: seq<T>)
    ensures a + b + c + d + e + rest == a + (b + (c + (d + (e + rest))))
  {
  }

  lemma LaterOpsRun(c: Context, r: Record, f: Record, n3: bool, n4: bool, n5: bool, rest: seq<Payload>)
    requires !r.status.ARCHIVED?
    requires if n3 then Allowed(c, SetDependencies(f.dependencies)) else r.dependencies == f.dependencies
    requires if n4 then Allowed(c, SetGates(f.requiredGates)) else r.requiredGates == f.requiredGates
    requires if n5 then Allowed(c, SetEffects(f.effects, f.capabilities, f.executionClass))
             else r.effects == f.effects && r.capabilities == f.capabilities && r.executionClass == f.executionClass
    ensures Steps(c, r, If(n3, SetDependencies(f.dependencies))
                        + (If(n4, SetGates(f.requiredGates)) + (If(n5, SetEffects(f.effects, f.capabilities, f.executionClass)) + rest)))
         == if (n3 || n4 || n5) && !Live(r.status) then Refused(TicketState)
            else Steps(c, r.(dependencies := f.dependencies, requiredGates := f.requiredGates, effects := f.effects,
                             capabilities := f.capabilities, executionClass := f.executionClass), rest)
  {
    hide Steps, If, Allowed;
    var t4 := If(n5, SetEffects(f.effects, f.capabilities, f.executionClass)) + rest;
    DependenciesRun(c, r, n3, f.dependencies, If(n4, SetGates(f.requiredGates)) + t4);
    var s3 := r.(dependencies := f.dependencies);
    GatesRun(c, s3, n4, f.requiredGates, t4);
    var s4 := s3.(requiredGates := f.requiredGates);
    EffectsRun(c, s4, n5, f.effects, f.capabilities, f.executionClass, rest);
  }

  /** A change that is refused once the ticket is completed. */
  predicate Reworked(a: Record, f: Record) {
    || a.dependencies != f.dependencies || a.requiredGates != f.requiredGates
    || a.effects != f.effects || a.capabilities != f.capabilities || a.executionClass != f.executionClass
  }

  lemma InFive<T>(a: seq<T>, b: seq<T>, c: seq<T>, d: seq<T>, e: seq<T>)
    ensures forall x :: x in a + b + c + d + e <==> x in a || x in b || x in c || x in d || x in e
  {
  }

  lemma AllowedIf(c: Context, need: bool, p: Payload)
    requires forall q :: q in If(need, p) ==> Allowed(c, q)
    ensures need ==> Allowed(c, p)
  {
    if need { assert p in If(need, p); }
  }

  /** Each field operation that is needed is allowed. */
  lemma FieldsAllowed(c: Context, a: Record, f: Record)
    requires forall p :: p in FieldOps(a, f) ==> Allowed(c, p)
    ensures ProseDiff(a.prose, f.prose) != {} ==> Allowed(c, Refine(ProseDiff(a.prose, f.prose), f.prose))
    ensures a.priority != f.priority || a.order != f.order ==> Allowed(c, Prioritize(f.priority, f.order))
    ensures a.dependencies != f.dependencies ==> Allowed(c, SetDependencies(f.dependencies))
    ensures a.requiredGates != f.requiredGates ==> Allowed(c, SetGates(f.requiredGates))
    ensures a.effects != f.effects || a.capabilities != f.capabilities || a.executionClass != f.executionClass ==>
      Allowed(c, SetEffects(f.effects, f.capabilities, f.executionClass))
  {
    hide ProseDiff, If, Allowed;
    var n1, p1 := ProseDiff(a.prose, f.prose) != {}, Refine(ProseDiff(a.prose, f.prose), f.prose);
    var n2, p2 := a.priority != f.priority || a.order != f.order, Prioritize(f.priority, f.order);
    var n3, p3 := a.dependencies != f.dependencies, SetDependencies(f.dependencies);
    var n4, p4 := a.requiredGates != f.requiredGates, SetGates(f.requiredGates);
    var n5, p5 := a.effects != f.effects || a.capabilities != f.capabilities || a.executionClass != f.executionClass,
                  SetEffects(f.effects, f.capabilities, f.executionClass);
    InFive(If(n1, p1), If(n2, p2), If(n3, p3), If(n4, p4), If(n5, p5));
    AllowedIf(c, n1, p1);
    AllowedIf(c, n2, p2);
    AllowedIf(c, n3, p3);
    AllowedIf(c, n4, p4);
    AllowedIf(c, n5, p5);
  }

  /** The field operations take exactly the file's fields, whatever is composed after them. */
  lemma FieldOpsRun(c: Context, a: Record, f: Record, rest: seq<Payload>)
    requires !a.status.ARCHIVED? && forall p :: p in FieldOps(a, f) ==> Allowed(c, p)
    ensures Steps(c, a, FieldOps(a, f) + rest)
         == if Reworked(a, f) && !Live(a.status) then Refused(TicketState) else Steps(c, Taken(a, f, OpenedBy(a, f)), rest)
  {
    hide Steps, ProseDiff, Opens, If, Allowed;
    var n1, p1 := ProseDiff(a.prose, f.prose) != {}, Refine(ProseDiff(a.prose, f.prose), f.prose);
    var n2 := a.priority != f.priority || a.order != f.order;
    var n3 := a.dependencies != f.dependencies;
    var n4 := a.requiredGates != f.requiredGates;
    var n5 := a.effects != f.effects || a.capabilities != f.capabilities || a.executionClass != f.executionClass;
    var o2, o3, o4 := If(n2, Prioritize(f.priority, f.order)), If(n3, SetDependencies(f.dependencies)), If(n4, SetGates(f.requiredGates));
    var o5 := If(n5, SetEffects(f.effects, f.capabilities, f.executionClass));
    FieldsAllowed(c, a, f);
    Nested(If(n1, p1), o2, o3, o4, o5, rest);
    var t2 := o3 + (o4 + (o5 + rest));
    RefineRuns(c, a, f, o2 + t2);
    var s1 := a.(prose := f.prose, status := OpenedBy(a, f));
    PrioritizeRuns(c, s1, n2, f.priority, f.order, t2);
    LaterOpsRun(c, s1.(priority := f.priority, order := f.order), f, n3, n4, n5, rest);
  }

  // ----- exactly when, and exactly what -----

  lemma {:induction false} StepsAllowed(c: Context, r: Record, ops: seq<Payload>)
    requires (c.role.OWNER? || c.role.OPERATOR?) && (forall p :: p in ops ==> !p.GrantApproval?) && Steps(c, r, ops).Done?
    ensures forall p :: p in ops ==> Allowed(c, p)
    decreases |ops|
  {
    if ops != [] {
      assert Allowed(c, ops[0]);
      var q := StepOf(c, r, ops[0]).value;
      assert forall p :: p in ops[1..] ==> p in ops;
      StepsAllowed(c, q, ops[1..]);
      forall p | p in ops ensures Allowed(c, p) {
        var k :| 0 <= k < |ops| && ops[k] == p;
        if k > 0 { assert ops[1..][k - 1] == p; }
      }
    }
  }

  lemma {:induction false} PlacesCan(c: Context, r: Record, hs: seq<Hold>)
    requires UniqueHolds(hs) && Apart(hs, r.holds) && !r.status.ARCHIVED? && forall p :: p in Places(hs) ==> Allowed(c, p)
    requires hs == [] || ((r.status.OPEN? || r.status.HELD?) && |r.holds| + |hs| <= MAX_HOLDS)
    ensures Steps(c, r, Places(hs)).Done?
    decreases |hs|
  {
    if hs != [] {
      assert Places(hs)[0] in Places(hs);
      assert !HasHold(r.holds, hs[0].holdId);
      assert StepOf(c, r, Places(hs)[0]).Done?;
      assert Places(hs)[1..] == Places(hs[1..]);
      var h := Hold(hs[0].holdId, c.actor, hs[0].reason, c.now);
      PlaceRuns(c, r, hs[0]);
      ApartTail(r.holds, hs, h);
      hide StepOf, UniqueHolds, Apart;
      var q := r.(holds := r.holds + [h], status := HELD);
      PlacesCan(c, q, hs[1..]);
    }
  }

  predicate Within(gs: seq<Hold>, hs: seq<Hold>) { forall i :: 0 <= i < |gs| ==> HasHold(hs, gs[i].holdId) }

  lemma {:induction false} ReleasesCan(c: Context, r: Record, gs: seq<Hold>)
    requires UniqueHolds(gs) && UniqueHolds(r.holds) && Within(gs, r.holds) && forall p :: p in Releases(gs) ==> Allowed(c, p)
    requires gs == [] || r.status.HELD?
    ensures Steps(c, r, Releases(gs)).Done?
    decreases |gs|
  {
    if gs != [] {
      assert Releases(gs)[0] in Releases(gs);
      assert HasHold(r.holds, gs[0].holdId);
      var q := StepOf(c, r, Releases(gs)[0]).value;
      assert Releases(gs)[1..] == Releases(gs[1..]);
      WithoutHolds(r.holds, gs[0].holdId);
      forall i | 0 <= i < |gs[1..]| ensures HasHold(q.holds, gs[1..][i].holdId) {
        assert gs[1..][i] == gs[i + 1] && HasHold(r.holds, gs[i + 1].holdId);
        var k :| 0 <= k < |r.holds| && r.holds[k].holdId == gs[i + 1].holdId;
        assert r.holds[k] in q.holds;
      }
      if gs[1..] != [] { assert HasHold(q.holds, gs[1..][0].holdId); }
      ReleasesCan(c, q, gs[1..]);
    }
  }

  /** The status once the holds are placed and released. */
  function HeldBy(r: Record, f: seq<Hold>): Status {
    if Fresh(f, r.holds) != [] then HELD
    else if Common(r.holds, f) == [] && r.holds != [] then OPEN
    else r.status
  }

  predicate RoomFor(r: Record, f: seq<Hold>) {
    Fresh(f, r.holds) == [] || ((r.status.OPEN? || r.status.HELD?) && |r.holds| + |Fresh(f, r.holds)| <= MAX_HOLDS)
  }

  /** New holds are placed before any is released, so both sets must fit at once. */
  lemma HoldsRun(c: Context, r: Record, f: seq<Hold>)
    requires UniqueHolds(r.holds) && UniqueHolds(f) && !r.status.ARCHIVED? && (r.status.HELD? <==> r.holds != [])
    requires forall p :: p in HoldOps(r.holds, f) ==> Allowed(c, p)
    ensures Steps(c, r, HoldOps(r.holds, f)).Done? <==> RoomFor(r, f)
    ensures RoomFor(r, f) ==>
              Steps(c, r, HoldOps(r.holds, f)).value
              == r.(holds := Common(r.holds, f) + Placed(c, Fresh(f, r.holds)), status := HeldBy(r, f))
  {
    var added, gone := Fresh(f, r.holds), Fresh(r.holds, f);
    FreshParts(f, r.holds);
    FreshParts(r.holds, f);
    StepsSplit(c, r, Places(added), Releases(gone));
    assert forall p :: p in Places(added) || p in Releases(gone) ==> p in HoldOps(r.holds, f);
    if RoomFor(r, f) { PlacesCan(c, r, added); }
    if Steps(c, r, Places(added)).Done? {
      PlacesRun(c, r, added);
      var q := Steps(c, r, Places(added)).value;
      GoneWithin(c, r.holds, f);
      PlacedUnique(c, r.holds, added);
      if gone != [] { assert gone[0] in r.holds; }
      ReleasesCan(c, q, gone);
      ReleasesRun(c, q, gone);
      GoneApart(c, f, r.holds);
      MinusConcat(r.holds, Placed(c, added), gone);
      MinusFresh(r.holds, f);
    }
  }

  lemma GoneWithin(c: Context, hs: seq<Hold>, f: seq<Hold>)
    requires UniqueHolds(hs)
    ensures Within(Fresh(hs, f), hs + Placed(c, Fresh(f, hs)))
  {
    FreshParts(hs, f);
    var gone, q := Fresh(hs, f), hs + Placed(c, Fresh(f, hs));
    forall i | 0 <= i < |gone| ensures HasHold(q, gone[i].holdId) {
      assert gone[i] in hs;
      var k :| 0 <= k < |hs| && hs[k] == gone[i];
      assert q[k] == gone[i];
    }
  }

  lemma PlacedUnique(c: Context, hs: seq<Hold>, added: seq<Hold>)
    requires UniqueHolds(hs) && UniqueHolds(added) && Apart(added, hs)
    ensures UniqueHolds(hs + Placed(c, added))
  {
    var q := hs + Placed(c, added);
    forall i, j | 0 <= i < j < |q| ensures q[i].holdId != q[j].holdId {
      if i < |hs| <= j { assert !HasHold(hs, added[j - |hs|].holdId); }
    }
  }

  lemma SameHoldsNoOps(hs: seq<Hold>)
    ensures HoldOps(hs, hs) == [] && Common(hs, hs) == hs && Fresh(hs, hs) == []
  {
    CommonAll(hs, hs);
  }

  /** A file lists its holds as an adoption will: the ones it kept, then the new ones. */
  predicate KeptThenNew(a: seq<Hold>, f: seq<Hold>) { f == Common(a, f) + Fresh(f, a) }

  lemma {:induction false} CommonConcat(xs: seq<Hold>, ys: seq<Hold>, others: seq<Hold>)
    ensures Common(xs + ys, others) == Common(xs, others) + Common(ys, others)
  {
    if xs == [] {
      assert xs + ys == ys;
    } else {
      assert (xs + ys)[0] == xs[0] && (xs + ys)[1..] == xs[1..] + ys;
      CommonConcat(xs[1..], ys, others);
    }
  }

  lemma {:induction false} CommonNone(hs: seq<Hold>, others: seq<Hold>)
    requires Apart(hs, others)
    ensures Common(hs, others) == []
  {
    if hs != [] {
      assert !HasHold(others, hs[0].holdId);
      forall i | 0 <= i < |hs[1..]| ensures !HasHold(others, hs[1..][i].holdId) { assert hs[1..][i] == hs[i + 1]; }
      CommonNone(hs[1..], others);
    }
  }

  lemma Same(hs: seq<Hold>, i: nat, j: nat)
    requires UniqueHolds(hs) && i < |hs| && j < |hs| && hs[i].holdId == hs[j].holdId
    ensures i == j
  {
  }

  lemma KeptIsCommon(a: seq<Hold>, f: seq<Hold>)
    requires UniqueHolds(a) && UniqueHolds(f) && KeptThenNew(a, f)
    ensures HoldsComposable(a, f)
  {
    var kept, added := Common(a, f), Fresh(f, a);
    FreshParts(a, f);
    FreshParts(f, a);
    CommonConcat(kept, added, a);
    forall h | h in kept ensures HasHold(a, h.holdId) {
      assert h in a;
      var k :| 0 <= k < |a| && a[k] == h;
    }
    CommonAll(kept, a);
    CommonNone(added, a);
    assert kept + [] == kept;
  }

  /** The holds that come out stand where the file lists them. */
  lemma ListedAt(c: Context, a: seq<Hold>, f: seq<Hold>, i: nat)
    requires UniqueHolds(f) && HoldsComposable(a, f) && SameHolds(Common(a, f) + Placed(c, Fresh(f, a)), f) && i < |f|
    ensures |Common(a, f) + Fresh(f, a)| == |f| && (Common(a, f) + Fresh(f, a))[i] == f[i]
  {
    var kept, added := Common(a, f), Fresh(f, a);
    FreshParts(f, a);
    assert kept == Common(f, a);
    var out, g := kept + Placed(c, added), kept + added;
    assert |out| == |f| && out[i].holdId == f[i].holdId;
    hide Common, Fresh, Placed, HasHold, Apart, UniqueHolds, HoldsComposable, SameHolds;
    assert out[i].holdId == g[i].holdId;
    assert g[i] in kept || g[i] in added;
    FoundAgain(f, g[i], i);
  }

  lemma FoundAgain(f: seq<Hold>, h: Hold, i: nat)
    requires UniqueHolds(f) && i < |f| && h in f && h.holdId == f[i].holdId
    ensures h == f[i]
  {
    var k: nat :| k < |f| && f[k] == h;
    Same(f, k, i);
  }

  lemma ListedIsKept(c: Context, a: seq<Hold>, f: seq<Hold>)
    requires UniqueHolds(a) && UniqueHolds(f) && HoldsComposable(a, f) && SameHolds(Common(a, f) + Placed(c, Fresh(f, a)), f)
    ensures KeptThenNew(a, f)
  {
    hide Common, Fresh, Placed, UniqueHolds, HoldsComposable;
    forall i: nat | i < |f| ensures (Common(a, f) + Fresh(f, a))[i] == f[i] { ListedAt(c, a, f, i); }
  }

  /** What comes out lists the file's holds exactly when the file kept the common ones as
      they were, in their order, and put the new ones last. */
  lemma HoldsExactly(c: Context, a: seq<Hold>, f: seq<Hold>)
    requires UniqueHolds(a) && UniqueHolds(f)
    ensures HoldsComposable(a, f) && SameHolds(Common(a, f) + Placed(c, Fresh(f, a)), f) <==> KeptThenNew(a, f)
  {
    hide UniqueHolds, HoldsComposable;
    if KeptThenNew(a, f) {
      KeptIsCommon(a, f);
      var g := Common(a, f) + Placed(c, Fresh(f, a));
      assert forall i :: 0 <= i < |f| ==> g[i].holdId == f[i].holdId && g[i].reason == f[i].reason;
    }
    if HoldsComposable(a, f) && SameHolds(Common(a, f) + Placed(c, Fresh(f, a)), f) { ListedIsKept(c, a, f); }
  }

  function Derived(a: Record, f: Record): Status {
    if Fresh(f.holds, a.holds) != [] then HELD
    else if Common(a.holds, f.holds) == [] && a.holds != [] then OPEN
    else OpenedBy(a, f)
  }

  /** What a caller can check before the call. */
  predicate Adoptable(c: Context, a: Record, f: Record) {
    && (c.role.OWNER? || c.role.OPERATOR?) && (forall p :: p in Composed(a, f) ==> OpOf(p) in c.permitted)
    && Valid(f) && f.ticketId == a.ticketId && !a.status.ARCHIVED? && Unprotected(a, f)
    && (Reworked(a, f) ==> Live(a.status))
    && KeptThenNew(a.holds, f.holds) && RoomFor(Taken(a, f, OpenedBy(a, f)), f.holds)
    && StatusCovered(a, a.(status := Derived(a, f)), f)
  }

  lemma ComposedIs(a: Record, f: Record)
    ensures Composed(a, f) == FieldOps(a, f) + HoldOps(a.holds, f.holds)
  {
    if a.holds == f.holds { SameHoldsNoOps(a.holds); }
  }

  /** The record the composition yields, and exactly when it yields one. */
  lemma ComposedRun(c: Context, a: Record, f: Record)
    requires UniqueHolds(a.holds) && UniqueHolds(f.holds) && !a.status.ARCHIVED? && (a.status.HELD? <==> a.holds != [])
    requires forall p :: p in Composed(a, f) ==> Allowed(c, p)
    ensures Steps(c, a, Composed(a, f)).Done? <==> (Reworked(a, f) ==> Live(a.status)) && RoomFor(Taken(a, f, OpenedBy(a, f)), f.holds)
    ensures Steps(c, a, Composed(a, f)).Done? ==>
              Steps(c, a, Composed(a, f)).value
              == Taken(a, f, Derived(a, f)).(holds := Common(a.holds, f.holds) + Placed(c, Fresh(f.holds, a.holds)))
  {
    hide Steps, Opens, Reworked, FieldOps;
    ComposedIs(a, f);
    var hops := HoldOps(a.holds, f.holds);
    assert forall p :: p in FieldOps(a, f) || p in hops ==> p in Composed(a, f);
    FieldOpsRun(c, a, f, hops);
    var t := Taken(a, f, OpenedBy(a, f));
    HoldsRun(c, t, f.holds);
  }

  predicate NoGrants(ops: seq<Payload>) { forall p :: p in ops ==> !p.GrantApproval? }

  lemma {:induction false} HoldOpsPlain(hs: seq<Hold>)
    ensures NoGrants(Places(hs)) && NoGrants(Releases(hs))
  {
    if hs != [] { HoldOpsPlain(hs[1..]); }
  }

  lemma ComposedPlain(a: Record, f: Record)
    ensures NoGrants(Composed(a, f))
  {
    hide ProseDiff;
    HoldOpsPlain(Fresh(f.holds, a.holds));
    HoldOpsPlain(Fresh(a.holds, f.holds));
  }

  /** The record an adoption of the file works out: its fields, the derived status, the
      common holds and then the new ones. */
  function Filed(c: Context, a: Record, f: Record): Record {
    Taken(a, f, Derived(a, f)).(holds := Common(a.holds, f.holds) + Placed(c, Fresh(f.holds, a.holds)))
  }

  /** The offered file is composed exactly when the caller may, the file changes nothing
      protected, its holds and status are the derived ones, and the holds fit. */
  lemma AdoptedExactly(c: Context, a: Record, f: Record)
    requires Valid(a)
    ensures Adopted(c, a, f).Done? <==> Adoptable(c, a, f)
    ensures Adopted(c, a, f).Done? ==> Adopted(c, a, f).value == Filed(c, a, f)
  {
    hide UniqueHolds;
    hide Derived;
    hide HoldsComposable;
    hide Steps, Composed, WellRelated, Numbered, Reworked, RoomFor;
    if (c.role.OWNER? || c.role.OPERATOR?) && Valid(f) && f.ticketId == a.ticketId && !a.status.ARCHIVED? && Unprotected(a, f) {
      ComposedPlain(a, f);
      HoldsExactly(c, a.holds, f.holds);
      if a.holds == f.holds { SameHoldsNoOps(a.holds); }
      if Steps(c, a, Composed(a, f)).Done? { StepsAllowed(c, a, Composed(a, f)); }
      if forall p :: p in Composed(a, f) ==> OpOf(p) in c.permitted { ComposedRun(c, a, f); }
    }
  }

  /** There is an adoption of the file exactly when it composes and the whole change
      passes the checks of every mutation; and there is at most one. */
  lemma AdoptsExactly(c: Context, a: Record, f: Record)
    requires Valid(a)
    ensures (exists post :: Adopts(c, a, f, post)) <==> Adoptable(c, a, f) && Finalizes(c, a, Filed(c, a, f), false)
    ensures forall post :: Adopts(c, a, f, post) ==> post == Chained(c, a, Filed(c, a, f), AcceptanceOf(a) != AcceptanceOf(Filed(c, a, f)))
  {
    hide Adopted, Adoptable, Filed, Finalizes, Chained;
    AdoptedExactly(c, a, f);
    if Adoptable(c, a, f) && Finalizes(c, a, Filed(c, a, f), false) {
      assert Adopts(c, a, f, Chained(c, a, Filed(c, a, f), AcceptanceOf(a) != AcceptanceOf(Filed(c, a, f))));
    }
  }

  /** A planned adoption means the file, once: every field is the file's but the new
      holds' actor and time, the opened draft and the five the adoption sets; what is
      protected stays canonical; one revision, and one acceptance revision at most. */
  lemma AdoptMeansFile(c: Context, a: Record, f: Record, post: Record)
    requires Valid(a) && Adopts(c, a, f, post)
    ensures SameFields(post, f) && f.holds == Common(a.holds, f.holds) + Fresh(f.holds, a.holds)
    ensures post.holds == Common(a.holds, f.holds) + Placed(c, Fresh(f.holds, a.holds))
    ensures post.status == f.status || (a.status.DRAFT? && f.status.DRAFT? && post.status.OPEN? && Opens(f.prose))
    ensures post.archivedFrom == a.archivedFrom && post.completion == a.completion && post.approvals == a.approvals && post.source == a.source
    ensures post.supersededBy == a.supersededBy && post.shadowOverlay == a.shadowOverlay && post.createdAt == a.createdAt
    ensures post.revision == a.revision + 1 && post.previous == Some(Link(a)) && post.updatedBy == c.actor && post.updatedAt == c.now
    ensures post.acceptance == a.acceptance + (if AcceptanceOf(a) != AcceptanceOf(f) then 1 else 0)
  {
    hide Composed, WellRelated, Numbered, Reworked, RoomFor, Checked, Opens;
    AdoptedExactly(c, a, f);
  }

  /** Sixteen holds cannot be traded for sixteen: the new hold is placed while the old one
      still stands, so the adoption is refused though the file itself is valid. */
  lemma FullHoldsCannotTrade(c: Context, a: Record, h: Hold)
    requires Valid(a) && a.status.HELD? && |a.holds| == MAX_HOLDS && !HasHold(a.holds, h.holdId)
    ensures Valid(a.(holds := a.holds[1..] + [h])) && !Adopted(c, a, a.(holds := a.holds[1..] + [h])).Done?
  {
    hide Composed, WellRelated, Opens, Steps;
    var hs, f := a.holds[1..], a.(holds := a.holds[1..] + [h]);
    forall i, j | 0 <= i < j < |f.holds| ensures f.holds[i].holdId != f.holds[j].holdId {
      assert a.holds[i + 1].holdId != h.holdId;
      if j < |hs| { assert hs[i] == a.holds[i + 1] && hs[j] == a.holds[j + 1]; }
    }
    assert WellRelated(f) by { Related(a, f.holds); }
    FreshParts(f.holds, a.holds);
    assert f.holds[|hs|] == h && h in f.holds;
    assert h in Fresh(f.holds, a.holds);
    AdoptedExactly(c, a, f);
  }

  lemma Related(a: Record, hs: seq<Hold>)
    requires WellRelated(a)
    ensures WellRelated(a.(holds := hs))
  {
  }

  function Tag(n: nat): (r: string)
    ensures |r| == n
  {
    seq(n, _ => 'h')
  }

  const MORNING := "2025-01-01T08:00:00Z"

  /** A held ticket with the most holds a record may carry. */
  function FullTicket(): Record {
    Record("ticket:acme:main:T-0001", 1, 1, None, HELD, None,
           Prose("Sixteen holds", None, "MANUAL", None, None, [], [], [], None, None, None), "P2", 0, [],
           Source("NATIVE", "acme:main", None, None), Effects("UNKNOWN", [], [], false), [], [],
           seq(MAX_HOLDS, i requires 0 <= i => Hold(Tag(i + 1), "owner", "waiting", MORNING)), "MANUAL", [], None, None,
           false, MORNING, MORNING, "owner")
  }

  /** One such record, and one such file of it. */
  lemma TradeExample(c: Context)
    ensures Valid(FullTicket())
    ensures !Adopted(c, FullTicket(), FullTicket().(holds := FullTicket().holds[1..] + [Hold("new", "owner", "waiting", MORNING)])).Done?
  {
    var a := FullTicket();
    forall i, j | 0 <= i < j < |a.holds| ensures a.holds[i].holdId != a.holds[j].holdId {
      assert |a.holds[i].holdId| == i + 1 && |a.holds[j].holdId| == j + 1;
    }
    assert "new"[0] == 'n';
    forall i | 0 <= i < |a.holds| ensures a.holds[i].holdId != "new" {
      if |a.holds[i].holdId| == 3 { assert a.holds[i].holdId[0] == 'h'; }
    }
    FullHoldsCannotTrade(c, a, Hold("new", "owner", "waiting", MORNING));
  }
}
