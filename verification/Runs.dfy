/** The store as a state machine: one writer at a time plans, publishes, crashes or
    redoes, and anybody may edit a file behind its back. Deciding how to publish and
    publishing are separate steps, so an edit can fall between them. */
module Runs {
  import opened Wrappers
  import opened Documents
  import opened Publication
  import opened Commit
  import opened Recovery
  import opened Audit
  import opened Refinement

  datatype Ready = Ready(art: Artifact, how: How)

  datatype Control =
    | Idle
    | Writing(t: Tx, next: nat, ready: Option<Ready>)
    | Redoing(rc: ReceiptDoc, base: HeadDoc, next: nat, ready: Option<Ready>)

  datatype State = State(disk: Disk, ctl: Control)

  // ----- the steps -----

  /** Plan over an audited disk. */
  ghost predicate Begin(s: State, s': State) {
    && s.ctl.Idle? && s'.disk == s.disk
    && s'.ctl.Writing? && s'.ctl.next == 0 && s'.ctl.ready == None && s'.ctl.t.d0 == s.disk
    && exists except :: Planned(s'.ctl.t, except)
  }

  predicate Choose(s: State, s': State) {
    && s.ctl.Writing? && s.ctl.ready.None? && s.ctl.next < |Actions(s.ctl.t.plan)|
    && Actions(s.ctl.t.plan)[s.ctl.next].Put?
    && var a := Actions(s.ctl.t.plan)[s.ctl.next].art;
       var how := Decide(s.disk, a, PreOf(s.ctl.t.plan.receipt.entries, a.target));
       how.Ok? && s' == State(s.disk, Writing(s.ctl.t, s.ctl.next, Some(Ready(a, how.value))))
  }

  predicate Effect(s: State, s': State) {
    && s.ctl.Writing? && s.ctl.ready.Some?
    && var d := Publish(s.disk, s.ctl.ready.value.art, s.ctl.ready.value.how);
       d.Ok? && s' == State(d.value, Writing(s.ctl.t, s.ctl.next + 1, None))
  }

  predicate Lift(s: State, s': State) {
    && s.ctl.Writing? && s.ctl.ready.None? && s.ctl.next < |Actions(s.ctl.t.plan)|
    && Actions(s.ctl.t.plan)[s.ctl.next].DropBarrier?
    && var d := Drop(s.disk, Actions(s.ctl.t.plan)[s.ctl.next].expected);
       d.Ok? && s' == State(d.value, Writing(s.ctl.t, s.ctl.next + 1, None))
  }

  /** Redo starts only from a validated pending receipt. */
  ghost predicate BeginRedo(s: State, s': State) {
    && s.ctl.Idle? && PreOrPost(s.disk)
    && var base := HeadOf(s.disk).value;
       ReceiptOf(s.disk, base.lastSeq + 1).Some?
       && s' == s.(ctl := Redoing(ReceiptOf(s.disk, base.lastSeq + 1).value, base, 0, None))
  }

  predicate ChooseAgain(s: State, s': State) {
    && s.ctl.Redoing? && s.ctl.ready.None? && s.ctl.next < |s.ctl.rc.entries|
    && !Deletes(s.ctl.rc.entries[s.ctl.next]) && PostBytes(s.disk, s.ctl.rc.entries[s.ctl.next]).Ok?
    && var a := Artifact(POST, s.ctl.rc.entries[s.ctl.next].path, PostBytes(s.disk, s.ctl.rc.entries[s.ctl.next]).value);
       var how := Decide(s.disk, a, PreOf(s.ctl.rc.entries, a.target));
       how.Ok? && s' == State(s.disk, Redoing(s.ctl.rc, s.ctl.base, s.ctl.next, Some(Ready(a, how.value))))
  }

  predicate EffectAgain(s: State, s': State) {
    && s.ctl.Redoing? && s.ctl.ready.Some?
    && var d := Publish(s.disk, s.ctl.ready.value.art, s.ctl.ready.value.how);
       d.Ok? && s' == State(d.value, Redoing(s.ctl.rc, s.ctl.base, s.ctl.next + 1, None))
  }

  predicate Advance(s: State, s': State) {
    && s.ctl.Redoing? && s.ctl.ready.None? && s.ctl.next == |s.ctl.rc.entries|
    && s' == State(AdvanceHead(s.disk, s.ctl.base, s.ctl.rc), Redoing(s.ctl.rc, s.ctl.base, s.ctl.next + 1, None))
  }

  /** The writer finishes, fails or is killed, at any point. */
  predicate Stop(s: State, s': State) {
    s' == s.(ctl := Idle)
  }

  ghost predicate Step(s: State, s': State) {
    || Begin(s, s') || Choose(s, s') || Effect(s, s') || Lift(s, s')
    || BeginRedo(s, s') || ChooseAgain(s, s') || EffectAgain(s, s') || Advance(s, s')
    || Stop(s, s')
  }

  /** Somebody writes or deletes one file that is neither the head nor a receipt. */
  ghost predicate Edit(s: State, s': State) {
    s'.ctl == s.ctl && exists p: Path :: !p.Head? && !p.Receipt? && s'.disk - {p} == s.disk - {p}
  }

  // ----- with edits: one receipt per request, and no third value overwritten -----

  function RequestAt(d: Disk, n: nat): Option<string> {
    match ReceiptOf(d, n) case None => None case Some(rc) => rc.requestId
  }

  /** No two receipts on the disk answer one request. */
  ghost predicate OnceEach(d: Disk) {
    forall i: nat, j: nat :: i != j && RequestAt(d, i).Some? ==> RequestAt(d, i) != RequestAt(d, j)
  }

  /** A decided rename expects exactly the receipt's pre digest. */
  predicate ReadyFor(r: Ready, rc: ReceiptDoc) {
    && (r.art.role.POST? && r.how.Replace? ==> PreOf(rc.entries, r.art.target) == Some(r.how.expected))
    && (r.art.role.RECEIPT? ==> r.how.Create?)
  }

  ghost predicate SameJournal(d0: Disk, d: Disk) {
    forall n: nat :: DigestAt(d, Receipt(n)) == DigestAt(d0, Receipt(n))
  }

  ghost predicate Guarded(s: State) {
    && OnceEach(s.disk)
    && match s.ctl
       case Idle => true
       case Writing(t, k, ready) =>
         && (exists except :: Planned(t, except))
         && k <= |Actions(t.plan)|
         && (k < CommitPoint(t.plan) ==> SameJournal(t.d0, s.disk))
         && (ready.Some? ==> k < |Actions(t.plan)| && Actions(t.plan)[k] == Put(ready.value.art) && ReadyFor(ready.value, t.plan.receipt))
       case Redoing(rc, base, k, ready) =>
         && ValidReceipt(rc)
         && k <= |rc.entries| + 1
         && (ready.Some? ==> k < |rc.entries| && ready.value.art.role.POST? && ready.value.art.target == rc.entries[k].path
                             && Some(Sum(ready.value.art.data)) == rc.entries[k].post && ReadyFor(ready.value, rc))
  }

  /** The receipt a writer or a redo works from. */
  function WorksFrom(s: State): Option<ReceiptDoc> {
    match s.ctl
    case Idle => None
    case Writing(t, _, _) => Some(t.plan.receipt)
    case Redoing(rc, _, _, _) => Some(rc)
  }

  /** One entry of `rc` takes `p` from absent, or from exactly its pre, to its post. */
  predicate Moves(rc: ReceiptDoc, p: Path, before: Option<Digest>, after: Option<Digest>) {
    exists i :: 0 <= i < |rc.entries| && rc.entries[i].path == p && after == rc.entries[i].post
                && (before.None? || before == rc.entries[i].pre)
  }

  /** Every projection a step changes goes from absent, or from exactly the pre
      digest of the receipt at work, to that receipt's post. */
  ghost predicate OnlyPreToPost(s: State, s': State) {
    forall p: Path :: PostPath(p) && !p.Evidence? && DigestAt(s'.disk, p) != DigestAt(s.disk, p) ==>
      WorksFrom(s).Some? && Moves(WorksFrom(s).value, p, DigestAt(s.disk, p), DigestAt(s'.disk, p))
  }

  /** Where the action at each index comes from. */
  lemma ActionAt(t: Tx, except: Option<Path>, k: nat)
    requires Planned(t, except) && k < |Actions(t.plan)|
    ensures var x, ev, ps, ds := Actions(t.plan)[k], EvidencePhase(t.plan), PostPhase(t.plan), Drops(t.plan.receipt.entries);
      if k < |ev| then x == Put(ev[k]) && IsEvidence(ev[k])
      else if k == |ev| then x == Put(ReceiptArt(t.plan))
      else if k < |ev| + 1 + |ps| then x == Put(ps[k - |ev| - 1]) && Carries(t.plan.receipt, ps[k - |ev| - 1])
      else if k < |ev| + 1 + |ps| + |ds| then x in ds
      else x == Put(HeadArt(t.plan))
  {
    hide Planned, Fits, InPhase, Drops, Carries, IsEvidence;
    PlannedFrozen(t, except);
  }

  lemma CarriesPath(rc: ReceiptDoc, a: Artifact)
    requires ValidReceipt(rc) && Carries(rc, a)
    ensures PostPath(a.target)
  {
    var i :| 0 <= i < |rc.entries| && rc.entries[i].path == a.target && rc.entries[i].post == Some(Sum(a.data));
    assert ValidEntry(rc.entries[i], rc.kind);
  }

  lemma DropMoves(rc: ReceiptDoc, x: Action)
    requires ValidReceipt(rc) && x in Drops(rc.entries)
    ensures x.DropBarrier? && Moves(rc, Barrier, Some(x.expected), None)
  {
    DropsShape(rc.entries, rc.kind);
    var i :| 0 <= i < |rc.entries| && Deletes(rc.entries[i]) && rc.entries[i].pre.Some? && Drops(rc.entries)[0] == DropBarrier(rc.entries[i].pre.value);
    assert ValidEntry(rc.entries[i], rc.kind);
  }

  /** Where each action of a frozen plan points. */
  lemma ActionTarget(t: Tx, except: Option<Path>, k: nat)
    requires Planned(t, except) && k < |Actions(t.plan)|
    ensures var x := Actions(t.plan)[k];
      && (k + 1 < CommitPoint(t.plan) ==> x.Put? && x.art.target.Evidence?)
      && (k + 1 == CommitPoint(t.plan) ==> x == Put(ReceiptArt(t.plan)))
      && (k + 1 != CommitPoint(t.plan) && x.Put? ==> !x.art.role.RECEIPT?)
      && (k >= CommitPoint(t.plan) && x.Put? ==> x.art == HeadArt(t.plan) || (Carries(t.plan.receipt, x.art) && PostPath(x.art.target)))
      && (k >= CommitPoint(t.plan) && x.DropBarrier? ==> Moves(t.plan.receipt, Barrier, Some(x.expected), None))
  {
    PlanReceiptValid(t, except);
    ActionAt(t, except, k);
    var x, rc := Actions(t.plan)[k], t.plan.receipt;
    if k >= CommitPoint(t.plan) {
      if x in Drops(rc.entries) { DropMoves(rc, x); }
      else if x != Put(HeadArt(t.plan)) { CarriesPath(rc, x.art); }
    }
  }

  lemma PlanReceiptValid(t: Tx, except: Option<Path>)
    requires Planned(t, except)
    ensures ValidReceipt(t.plan.receipt)
  {
    PlannedFrozen(t, except);
  }

  /** What one publication may change. */
  lemma PublishChanges(d: Disk, a: Artifact, how: How, p: Path)
    requires Publish(d, a, how).Ok?
    ensures var d' := Publish(d, a, how).value; DigestAt(d', p) != DigestAt(d, p) ==>
      p == a.target && DigestAt(d', p) == Some(Sum(a.data))
      && (DigestAt(d, p).None? || (how.Replace? && DigestAt(d, p) == Some(how.expected)))
  {
  }

  lemma CarriedEntry(rc: ReceiptDoc, a: Artifact, how: How, d: Disk, p: Path)
    requires ValidReceipt(rc) && Carries(rc, a) && ReadyFor(Ready(a, how), rc)
    requires Publish(d, a, how).Ok? && DigestAt(Publish(d, a, how).value, p) != DigestAt(d, p)
    ensures Moves(rc, p, DigestAt(d, p), DigestAt(Publish(d, a, how).value, p))
  {
    PublishChanges(d, a, how, p);
    var i :| 0 <= i < |rc.entries| && rc.entries[i].path == a.target && rc.entries[i].post == Some(Sum(a.data));
    PreOfAt(rc.entries, i);
  }

  /** No third value is overwritten, by a first write or by a redo, whatever was
      edited between the decision and the publication. */
  lemma NoThirdValue(s: State, s': State)
    requires Guarded(s) && Step(s, s')
    ensures OnlyPreToPost(s, s')
  {
    forall p: Path | PostPath(p) && !p.Evidence? && DigestAt(s'.disk, p) != DigestAt(s.disk, p)
      ensures WorksFrom(s).Some? && Moves(WorksFrom(s).value, p, DigestAt(s.disk, p), DigestAt(s'.disk, p))
    {
      if s.ctl.Writing? {
        WriteChanges(s, s', p);
      } else if s.ctl.Redoing? && EffectAgain(s, s') {
        var r, rc := s.ctl.ready.value, s.ctl.rc;
        assert Carries(rc, r.art) by { assert rc.entries[s.ctl.next].path == r.art.target; }
        CarriedEntry(rc, r.art, r.how, s.disk, p);
      }
    }
  }

  lemma WriteChanges(s: State, s': State, p: Path)
    requires Guarded(s) && s.ctl.Writing? && Step(s, s')
    requires PostPath(p) && !p.Evidence? && DigestAt(s'.disk, p) != DigestAt(s.disk, p)
    ensures Moves(s.ctl.t.plan.receipt, p, DigestAt(s.disk, p), DigestAt(s'.disk, p))
  {
    hide Moves, Frozen, Fits, ReadyFor, Decide, Publish, ValidReceipt, CommitPoint;
    hide Planned, Carries;
    var t, k := s.ctl.t, s.ctl.next;
    var except :| Planned(t, except);
    PlannedFrozen(t, except);
    assert Effect(s, s') || Lift(s, s');
    ActionTarget(t, except, k);
    if Effect(s, s') {
      var r := s.ctl.ready.value;
      PublishChanges(s.disk, r.art, r.how, p);
      assert Carries(t.plan.receipt, r.art);
      CarriedEntry(t.plan.receipt, r.art, r.how, s.disk, p);
    } else if k >= CommitPoint(t.plan) {
      assert p == Barrier && DigestAt(s.disk, p) == Some(Actions(t.plan)[k].expected);
    }
  }

  // ----- at most one commit per request -----

  lemma JournalRequests(d: Disk, e: Disk)
    requires SameJournal(d, e)
    ensures forall n: nat :: ReceiptOf(e, n) == ReceiptOf(d, n)
    ensures OnceEach(d) ==> OnceEach(e)
  {
    forall n: nat ensures ReceiptOf(e, n) == ReceiptOf(d, n) && RequestAt(e, n) == RequestAt(d, n) {
      assert DigestAt(e, Receipt(n)) == DigestAt(d, Receipt(n));
    }
  }

  /** A planned request is new to the journal it was planned over. */
  lemma PlannedRequestIsNew(t: Tx, except: Option<Path>, n: nat)
    requires Planned(t, except)
    ensures RequestAt(t.d0, n) != Some(t.q.requestId)
  {
    PlanReceiptValid(t, except);
    assert Request(t.q.requestId) !in t.d0 by { FreezeParts(t.q, t.d0, t.base, t.posts, t.eff, t.plan); }
    FreshRequest(t.d0, t.base, t.q.requestId, except);
    UnrecordedRequest(t.d0, t.base, t.q.requestId, n);
  }

  /** A request the fold does not know is in no receipt. */
  lemma UnrecordedRequest(d: Disk, head: HeadDoc, id: string, n: nat)
    requires JournalFits(d) && HeadOf(d) == Some(head) && !IsPending(d, head)
    requires LatestOf(History(d, head.lastSeq), Request(id)).None?
    ensures RequestAt(d, n) != Some(id)
  {
    hide LatestOf, History;
    var h := History(d, head.lastSeq);
    LatestRequest(d, head, h, id);
    assert Receipt(n) in d <==> 1 <= n <= head.lastSeq;
    assert forall i :: 0 <= i < |h| ==> Some(h[i]) == ReceiptOf(d, i + 1) && h[i].requestId != Some(id);
    assert 1 <= n <= head.lastSeq ==> ReceiptOf(d, n) == Some(h[n - 1]);
  }

  lemma LinkOnce(d: Disk, n: nat, rc: ReceiptDoc, id: string)
    requires OnceEach(d) && rc.requestId == Some(id) && forall i: nat :: RequestAt(d, i) != Some(id)
    requires Receipt(n) !in d
    ensures OnceEach(d[Receipt(n) := ReceiptFile(rc)])
  {
    var d' := d[Receipt(n) := ReceiptFile(rc)];
    forall i: nat ensures RequestAt(d', i) == if i == n then Some(id) else RequestAt(d, i) {}
    forall i: nat, j: nat | i != j && RequestAt(d', i).Some? ensures RequestAt(d', i) != RequestAt(d', j) {
      assert i != n && j != n ==> RequestAt(d, i) != RequestAt(d, j);
      assert RequestAt(d, i) != Some(id) && RequestAt(d, j) != Some(id);
    }
  }

  lemma CommitOnce(t: Tx, except: Option<Path>, d: Disk)
    requires Planned(t, except) && SameJournal(t.d0, d) && OnceEach(d) && Receipt(t.plan.receipt.seqNo) !in d
    ensures OnceEach(d[Receipt(t.plan.receipt.seqNo) := ReceiptFile(t.plan.receipt)])
  {
    JournalRequests(t.d0, d);
    PlannedReceipt(t, except);
    forall i: nat ensures RequestAt(d, i) != Some(t.q.requestId) {
      PlannedRequestIsNew(t, except, i);
      assert ReceiptOf(d, i) == ReceiptOf(t.d0, i);
    }
    LinkOnce(d, t.plan.receipt.seqNo, t.plan.receipt, t.q.requestId);
  }

  lemma PlannedReceipt(t: Tx, except: Option<Path>)
    requires Planned(t, except)
    ensures t.plan.receipt.requestId == Some(t.q.requestId)
  {
  }

  lemma WriteKeepsGuard(s: State, s': State)
    requires Guarded(s) && s.ctl.Writing? && (Effect(s, s') || Lift(s, s'))
    ensures Guarded(s')
  {
    hide Fits, Frozen;
    var t, k := s.ctl.t, s.ctl.next;
    var except :| Planned(t, except);
    PlannedFrozen(t, except);
    ActionTarget(t, except, k);
    if k + 1 == CommitPoint(t.plan) {
      assert s'.disk == s.disk[Receipt(t.plan.receipt.seqNo) := ReceiptFile(t.plan.receipt)];
      CommitOnce(t, except, s.disk);
    } else {
      forall n: nat ensures DigestAt(s'.disk, Receipt(n)) == DigestAt(s.disk, Receipt(n)) {
        if Effect(s, s') { PublishChanges(s.disk, s.ctl.ready.value.art, s.ctl.ready.value.how, Receipt(n)); }
      }
      JournalRequests(s.disk, s'.disk);
    }
  }

  lemma ChooseKeepsGuard(s: State, s': State)
    requires Guarded(s) && Choose(s, s')
    ensures Guarded(s')
  {
    hide Planned, Moves;
    var except :| Planned(s.ctl.t, except);
    ActionTarget(s.ctl.t, except, s.ctl.next);
  }

  lemma RedoKeepsGuard(s: State, s': State)
    requires Guarded(s) && (BeginRedo(s, s') || ChooseAgain(s, s') || EffectAgain(s, s') || Advance(s, s'))
    ensures Guarded(s')
  {
    if BeginRedo(s, s') {
      PendingFits(s.disk);
    } else if ChooseAgain(s, s') {
      assert ValidEntry(s.ctl.rc.entries[s.ctl.next], s.ctl.rc.kind);
    } else if EffectAgain(s, s') {
      assert ValidEntry(s.ctl.rc.entries[s.ctl.next], s.ctl.rc.kind);
      forall n: nat ensures DigestAt(s'.disk, Receipt(n)) == DigestAt(s.disk, Receipt(n)) {
        PublishChanges(s.disk, s.ctl.ready.value.art, s.ctl.ready.value.how, Receipt(n));
      }
      JournalRequests(s.disk, s'.disk);
    } else {
      JournalRequests(s.disk, s'.disk);
    }
  }

  lemma PendingFits(d: Disk)
    requires PreOrPost(d) && ReceiptOf(d, HeadOf(d).value.lastSeq + 1).Some?
    ensures ValidReceipt(ReceiptOf(d, HeadOf(d).value.lastSeq + 1).value)
  {
    hide PreOrPost, ReceiptFits, EntryFits, History;
    PendingLast(d);
    var head := HeadOf(d).value;
    FitsValid(d, History(d, head.lastSeq + 1)[..head.lastSeq], head, ReceiptOf(d, head.lastSeq + 1).value);
  }

  lemma EditKeepsGuard(s: State, s': State)
    requires Guarded(s) && Edit(s, s')
    ensures Guarded(s')
  {
    var p: Path :| !p.Head? && !p.Receipt? && s'.disk - {p} == s.disk - {p};
    forall n: nat ensures DigestAt(s'.disk, Receipt(n)) == DigestAt(s.disk, Receipt(n)) {
      assert Receipt(n) in s'.disk - {p} <==> Receipt(n) in s'.disk;
      assert Receipt(n) in s.disk - {p} <==> Receipt(n) in s.disk;
      assert Receipt(n) in s.disk ==> (s'.disk - {p})[Receipt(n)] == (s.disk - {p})[Receipt(n)];
    }
    JournalRequests(s.disk, s'.disk);
  }

  lemma GuardKept(s: State, s': State)
    requires Guarded(s) && (Step(s, s') || Edit(s, s'))
    ensures Guarded(s')
  {
    if Edit(s, s') { EditKeepsGuard(s, s'); }
    else if Stop(s, s') {}
    else if Effect(s, s') || Lift(s, s') { WriteKeepsGuard(s, s'); }
    else if Choose(s, s') { ChooseKeepsGuard(s, s'); }
    else if Begin(s, s') {}
    else { RedoKeepsGuard(s, s'); }
  }

  /** A run: each state follows from the one before it. */
  ghost predicate IsRun(run: seq<State>, edits: bool) {
    forall i {:trigger run[i]} :: 0 < i < |run| ==> Step(run[i - 1], run[i]) || (edits && Edit(run[i - 1], run[i]))
  }

  /** Over any run, with any edits, each request is answered by at most one receipt,
      and no writer or redo step overwrites a third value. */
  lemma {:induction false} RunsAreGuarded(run: seq<State>, n: nat)
    requires n < |run| && IsRun(run, true) && OnceEach(run[0].disk) && run[0].ctl.Idle?
    ensures Guarded(run[n]) && OnceEach(run[n].disk)
    ensures n + 1 < |run| && Step(run[n], run[n + 1]) ==> OnlyPreToPost(run[n], run[n + 1])
  {
    if n > 0 {
      RunsAreGuarded(run, n - 1);
      GuardKept(run[n - 1], run[n]);
    }
    if n + 1 < |run| && Step(run[n], run[n + 1]) { NoThirdValue(run[n], run[n + 1]); }
  }
}
