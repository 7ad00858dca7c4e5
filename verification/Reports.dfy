/** What a writer reports: the answer of the journal, the outcome of a plan, and how a
    redo of a pending receipt ended. */
module Reports {
  import opened Wrappers
  import opened Documents
  import opened Publication
  import opened Commit
  import opened Audit
  import opened Recovery
  import opened Refinement
  import opened Staging
  import opened Progress

  /** How the redo before a mutation ended. */
  datatype Redo = Redo(disk: Disk, slots: set<nat>, done: nat, redone: bool, error: Option<Code>)

  datatype Planning = Planning(posts: seq<Post>, eff: TicketEffect)

  datatype Report = Replayed(outcome: Outcome) | Conflict | Committed(seqNo: nat) | Stopped(code: Code)

  /** A store whose journal answers requests: settled, whatever the intent files hold. */
  ghost predicate Readable(d: Disk) {
    Fits(d, None, false) && !IsPending(d, HeadOf(d).value)
  }

  // ----- what the journal answers -----

  /** What the journal of a settled store answers to a request. */
  function Answer(d: Disk, id: string): Option<RequestDoc> {
    if HeadOf(d).None? then None else Recorded(d, History(d, Retained(d, HeadOf(d).value)), id)
  }

  lemma AgreeingReads(d: Disk)
    ensures Agrees(d) ==> Readable(d)
  {
    hide JournalFits, History, LatestOf, Retained;
  }

  /** The request is for this store, and the plan it makes freezes. */
  predicate Freezes(q: Asked, d: Disk, planning: Disk -> Result<Planning>) {
    && HeadOf(d).Some? && q.queueId == HeadOf(d).value.queueId && planning(d).Ok?
    && Freeze(q, d, HeadOf(d).value, planning(d).value.posts, planning(d).value.eff).Ok?
  }

  /** A frozen plan can be applied: no action refuses, and the slots suffice. */
  lemma PlanRuns(t: Tx)
    requires Planned(t, None)
    ensures Run(t.d0, Actions(t.plan), t.plan.receipt).Ok? && |t.plan.artifacts| <= LAST_SLOT + 1
  {
    hide Fits, Staged, Actions;
    PlannedFrozen(t, None);
    ApplyPrefix(t.d0, t.base, t.plan, |Actions(t.plan)|);
    assert Actions(t.plan)[..|Actions(t.plan)|] == Actions(t.plan);
  }

  // ----- a planned transaction and how far it got -----

  /** A planned transaction some prefix of which is what has happened to the disk. */
  ghost predicate Attempted(t: Tx, d: Disk) {
    exists k {:trigger Actions(t.plan)[..k]} :: 0 <= k <= |Actions(t.plan)| && PlannedTo(t, k, d)
  }

  ghost predicate PlannedTo(t: Tx, k: nat, d: Disk)
    requires k <= |Actions(t.plan)|
  {
    Planned(t, None) && Run(t.d0, Actions(t.plan)[..k], t.plan.receipt) == Result.Ok(d)
  }

  lemma AttemptedPrefix(t: Tx, k: nat, d: Disk)
    requires Planned(t, None) && k <= |Actions(t.plan)| && Run(t.d0, Actions(t.plan)[..k], t.plan.receipt) == Result.Ok(d)
    ensures Attempted(t, d)
  {
    assert PlannedTo(t, k, d);
  }

  lemma PlannedId(t: Tx)
    requires Planned(t, None)
    ensures t.plan.receipt.requestId == Some(t.q.requestId)
  {
  }

  /** After the last action, the journal answers the request that was committed. */
  lemma CommittedAnswer(t: Tx, d: Disk)
    requires Planned(t, None) && Run(t.d0, Actions(t.plan), t.plan.receipt) == Result.Ok(d)
    ensures Agrees(d) && HeadOf(d) == Some(t.plan.head)
    ensures Answer(d, t.q.requestId) == Some(RequestDoc(t.q.requestId, t.base.lastSeq + 1, t.q.mutation, OutcomeOf(t.q, t.base.lastSeq + 1, t.eff)))
  {
    PlannedFrozen(t, None);
    ApplyPrefix(t.d0, t.base, t.plan, |Actions(t.plan)|);
    assert Actions(t.plan)[..|Actions(t.plan)|] == Actions(t.plan);
    FinishedAgrees(t, None, d);
    FinishedKeeps(t.d0, t.base, t.plan, d);
    KeptSinceCommit(t.d0, t.base, t.plan, d);
    PlanRevisions(t, d);
    PlannedId(t);
    assert History(d, t.plan.head.lastSeq)[..t.base.lastSeq] == History(t.d0, t.base.lastSeq);
  }

  ghost predicate CommittedAs(r: Report, t: Tx, d: Disk) {
    && Agrees(d) && HeadOf(d) == Some(t.plan.head) && r == Committed(t.base.lastSeq + 1)
    && Answer(d, t.q.requestId) == Some(RequestDoc(t.q.requestId, t.base.lastSeq + 1, t.q.mutation, OutcomeOf(t.q, t.base.lastSeq + 1, t.eff)))
  }

  lemma CommittedPlan(t: Tx, k: nat, d: Disk)
    requires Planned(t, None) && k == |Actions(t.plan)| && Run(t.d0, Actions(t.plan)[..k], t.plan.receipt) == Result.Ok(d)
    ensures CommittedAs(Committed(t.plan.receipt.seqNo), t, d)
  {
    hide Freeze;
    assert Actions(t.plan)[..k] == Actions(t.plan);
    PlannedFrozen(t, None);
    CommittedAnswer(t, d);
  }

  /** A replay returns the recorded outcome, a conflict other bytes; both leave the
      disk as it was. A commit leaves an agreeing store that answers the request. */
  ghost predicate ReportHolds(r: Report, q: Asked, settled: Disk, d: Disk, tx: Option<Tx>) {
    match r
    case Stopped(_) => true
    case Conflict => tx.None? && Answer(settled, q.requestId).Some? && Answer(settled, q.requestId).value.mutation != q.mutation
    case Replayed(out) => tx.None? && Answer(settled, q.requestId).Some? && Answer(settled, q.requestId).value.mutation == q.mutation
                          && out == Answer(settled, q.requestId).value.outcome.(replayed := true)
    case Committed(_) => tx.Some? && CommittedAs(r, tx.value, d)
  }

  // ----- what a redo finds -----

  lemma AgreeingReceipts(d: Disk)
    ensures Agrees(d) ==>
      (&& HeadOf(d).Some? && Receipt(HeadOf(d).value.lastSeq + 1) !in d && Receipt(HeadOf(d).value.lastSeq + 2) !in d
       && Receipt(HeadOf(d).value.lastSeq) in d && Sum(d[Receipt(HeadOf(d).value.lastSeq)]) == HeadOf(d).value.lastReceipt)
  {
    if Agrees(d) { HeadReceipt(d); }
    hide JournalFits, ProjectionsFit;
  }

  /** A validated pending store names one receipt beyond its head. */
  lemma PendingReceipt(d: Disk)
    ensures PreOrPost(d) ==>
      (&& HeadOf(d).Some? && ReceiptOf(d, HeadOf(d).value.lastSeq + 1).Some?
       && Receipt(HeadOf(d).value.lastSeq + 2) !in d
       && Receipt(HeadOf(d).value.lastSeq) in d && Sum(d[Receipt(HeadOf(d).value.lastSeq)]) == HeadOf(d).value.lastReceipt)
  {
    if PreOrPost(d) {
      HeadReceipt(d);
      PendingLast(d);
    }
    hide JournalFits, ProjectionsFit, ReceiptFits, History;
  }

  /** `d'` is the redo of the receipt pending on `d` after `k` of its effects. */
  ghost predicate RedoneTo(d: Disk, d': Disk, k: nat, complete: bool) {
    && HeadOf(d).Some? && ReceiptOf(d, HeadOf(d).value.lastSeq + 1).Some?
    && var rc := ReceiptOf(d, HeadOf(d).value.lastSeq + 1).value;
       RedoTo(d, HeadOf(d).value, rc, k) == Result.Ok(d') && (complete ==> k == |rc.entries| + 1)
  }

  lemma NothingRedone(d: Disk)
    ensures PreOrPost(d) ==> RedoneTo(d, d, 0, false)
  {
    PendingReceipt(d);
    if PreOrPost(d) {
      var rc := ReceiptOf(d, HeadOf(d).value.lastSeq + 1).value;
      assert rc.entries[..0] == [];
    }
  }

  /** A pending receipt that a redo without faults completes. */
  ghost predicate Redoable(d: Disk) {
    && PreOrPost(d) && ReceiptOf(d, HeadOf(d).value.lastSeq + 1).Some?
    && var rc := ReceiptOf(d, HeadOf(d).value.lastSeq + 1).value;
       RedoEntries(d, rc.entries, rc).Ok? && Writes(d, rc.entries, rc) <= LAST_SLOT + 1
  }

  /** A redo got past the posts: its last effect is the head. */
  ghost predicate HeadReached(d: Disk, done: nat) {
    HeadOf(d).Some? && ReceiptOf(d, HeadOf(d).value.lastSeq + 1).Some? && done > |ReceiptOf(d, HeadOf(d).value.lastSeq + 1).value.entries|
  }

  /** Only the head of the pending receipt is missing. */
  ghost predicate AllPosted(d: Disk)
    requires Redoable(d)
  {
    var rc := ReceiptOf(d, HeadOf(d).value.lastSeq + 1).value; Writes(d, rc.entries, rc) == 0
  }

  lemma {:induction false} RedoKeepsHead(d: Disk, es: seq<Entry>, rc: ReceiptDoc)
    requires RedoEntries(d, es, rc).Ok? && forall i :: 0 <= i < |es| ==> PostPath(es[i].path)
    ensures DigestAt(RedoEntries(d, es, rc).value, Path.Head) == DigestAt(d, Path.Head)
    decreases |es|
  {
    if es != [] {
      var d1 := RedoEntry(d, es[0], rc).value;
      var f := PostBytes(d, es[0]).value;
      assert d1 == d || d1 == d[es[0].path := f];
      RedoKeepsHead(d1, es[1..], rc);
    }
  }

  /** Redoing posts leaves the head alone, and the head it stands for is a later one. */
  lemma PendingHead(d: Disk, d': Disk)
    requires PreOrPost(d) && ReceiptOf(d, HeadOf(d).value.lastSeq + 1).Some?
    requires var rc := ReceiptOf(d, HeadOf(d).value.lastSeq + 1).value; RedoEntries(d, rc.entries, rc) == Result.Ok(d')
    ensures var rc := ReceiptOf(d, HeadOf(d).value.lastSeq + 1).value;
      Path.Head in d' && d'[Path.Head] != HeadFile(HeadAfter(HeadOf(d).value, rc))
  {
    hide PreOrPost, ReceiptFits, EntryFits, History, RedoEntries;
    PendingLast(d);
    var head := HeadOf(d).value;
    var rc := ReceiptOf(d, head.lastSeq + 1).value;
    FitsValid(d, History(d, head.lastSeq + 1)[..head.lastSeq], head, rc);
    RedoKeepsHead(d, rc.entries, rc);
  }

  lemma PendingNamed(d: Disk, rc: ReceiptDoc)
    requires PreOrPost(d) && ReceiptOf(d, HeadOf(d).value.lastSeq + 1) == Some(rc)
    ensures forall i :: 0 <= i < |rc.entries| && !Deletes(rc.entries[i]) ==> NamedByContent(rc.entries[i].path, rc.entries[i].post.value)
  {
    hide PreOrPost, ReceiptFits, History;
    PendingLast(d);
    var n := HeadOf(d).value.lastSeq;
    var h := History(d, n + 1)[..n];
    FitsValid(d, h, HeadOf(d).value, rc);
    forall i | 0 <= i < |rc.entries| && !Deletes(rc.entries[i]) ensures NamedByContent(rc.entries[i].path, rc.entries[i].post.value) {
      assert EntryFits(d, h, rc, rc.entries[i]);
    }
  }

  lemma {:induction false} RedoAddressed(d: Disk, es: seq<Entry>, rc: ReceiptDoc)
    requires Addressed(d) && RedoEntries(d, es, rc).Ok?
    requires forall i :: 0 <= i < |es| && !Deletes(es[i]) ==> NamedByContent(es[i].path, es[i].post.value)
    ensures Addressed(RedoEntries(d, es, rc).value)
    decreases |es|
  {
    if es != [] {
      var d1 := RedoEntry(d, es[0], rc).value;
      var f := PostBytes(d, es[0]).value;
      assert d1 == d || d1 == d[es[0].path := f];
      RedoAddressed(d1, es[1..], rc);
    }
  }

  lemma RedoneAddressed(d: Disk, d': Disk, k: nat, complete: bool)
    requires Addressed(d)
    requires if PreOrPost(d) then RedoneTo(d, d', k, complete) else d' == d
    ensures Addressed(d')
  {
    if PreOrPost(d) {
      var head := HeadOf(d).value;
      var rc := ReceiptOf(d, head.lastSeq + 1).value;
      PendingNamed(d, rc);
      var es := if k <= |rc.entries| then rc.entries[..k] else rc.entries;
      RedoAddressed(d, es, rc);
    }
  }
}
