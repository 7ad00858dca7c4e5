/** Restarting after a crash, with the audit, the staging directory and the faults of the
    session in the way: when a redo completes, what a retried request is answered, and
    when a store can no longer be repaired. */
module Completion {
  import opened Wrappers
  import opened Documents
  import opened Publication
  import opened Commit
  import opened Audit
  import opened Recovery
  import opened Refinement
  import opened Isolation
  import opened Staging
  import opened Progress
  import opened Reports
  import opened Session

  /** Committed, deleting nothing, and not finished. */
  ghost predicate Open(t: Tx, d: Disk) {
    OpenAs(t, d) && NoDeletions(t.plan.receipt)
  }

  /** The disk that the uninterrupted apply ends with. */
  ghost predicate Final(t: Tx, d: Disk) {
    Planned(t, None) && Publication.Run(t.d0, Actions(t.plan), t.plan.receipt) == Result.Ok(d)
  }

  // ----- the slots suffice -----

  lemma {:induction false} PostArtsAll(posts: seq<Post>)
    requires forall i :: 0 <= i < |posts| ==> posts[i].file.Some?
    ensures |PostArts(posts)| == |posts|
  {
    if posts != [] { PostArtsAll(posts[1..]); }
  }

  /** A frozen plan has eleven artifacts at most, two of them the receipt and the head,
      so at most nine entries when it deletes nothing. */
  lemma FewEntries(t: Tx)
    requires Planned(t, None) && NoDeletions(t.plan.receipt)
    ensures |t.plan.receipt.entries| <= LAST_SLOT - 1
  {
    hide Fits, PlannedPosts, BlobArts;
    var all := AllPosts(t.q, t.base, t.posts, t.eff);
    FreezeParts(t.q, t.d0, t.base, t.posts, t.eff, t.plan);
    forall i | 0 <= i < |all| ensures all[i].file.Some? {
      assert t.plan.receipt.entries[i] == EntryOf(t.d0, all[i]) && !Deletes(t.plan.receipt.entries[i]);
    }
    PostArtsAll(all);
  }

  // ----- one redo of an open transaction -----

  lemma FinalFinished(t: Tx, d: Disk)
    requires Planned(t, None)
    ensures Final(t, d) <==> Finished(AtCommit(t.d0, t.plan), t.plan.receipt, t.plan.head, d)
  {
    hide Fits, Staged, Actions, Finished;
    PlannedFrozen(t, None);
    ApplyPrefix(t.d0, t.base, t.plan, |Actions(t.plan)|);
    assert Actions(t.plan)[..|Actions(t.plan)|] == Actions(t.plan);
    if Finished(AtCommit(t.d0, t.plan), t.plan.receipt, t.plan.head, d) {
      FinishedUnique(AtCommit(t.d0, t.plan), t.plan.receipt, t.plan.head, d, Publication.Run(t.d0, Actions(t.plan), t.plan.receipt).value);
    }
  }

  /** A redo of an open transaction that stops among the posts leaves it open, and one
      that reaches the head ends with the disk of the uninterrupted apply. */
  lemma RedoFromOpen(t: Tx, d: Disk, k: nat)
    requires Open(t, d)
    ensures RedoTo(d, t.base, t.plan.receipt, k).Ok?
    ensures k <= |t.plan.receipt.entries| ==> Open(t, RedoTo(d, t.base, t.plan.receipt, k).value)
    ensures k > |t.plan.receipt.entries| ==> Final(t, RedoTo(d, t.base, t.plan.receipt, k).value)
  {
    hide Planned, RedoEntries;
    var c, rc := AtCommit(t.d0, t.plan), t.plan.receipt;
    PlannedFrozen(t, None);
    CommitLinks(t.d0, t.base, t.plan);
    if k <= |rc.entries| {
      RedoRun(c, rc, d, k);
    } else {
      RedoRun(c, rc, d, |rc.entries|);
      assert rc.entries[..|rc.entries|] == rc.entries;
      var m := RedoEntries(d, rc.entries, rc).value;
      HeadAdvanced(c, rc, HeadAfter(t.base, rc), m);
      FinalFinished(t, AdvanceHead(m, t.base, rc));
    }
  }

  /** The gates of a redo stand open on every open transaction. */
  lemma OpenRedoable(t: Tx, d: Disk)
    requires Open(t, d)
    ensures Redoable(d) && PreOrPost(d) && Addressed(d) && !Agrees(d)
    ensures HeadOf(d) == Some(t.base) && ReceiptOf(d, t.base.lastSeq + 1) == Some(t.plan.receipt)
  {
    hide Planned, Midway, Fits, Addressed, RedoEntries, Writes, HeadOf, ReceiptOf;
    var rc := t.plan.receipt;
    FewEntries(t);
    OpenConsistent(t, d);
    RedoFromOpen(t, d, |rc.entries|);
    assert rc.entries[..|rc.entries|] == rc.entries;
    RedoPart(d, rc.entries, |rc.entries|, rc);
  }

  // ----- every crash, and every crash of a redo -----

  /** Redo attempts that each stop after so many entries. */
  function Interrupted(d: Disk, base: HeadDoc, rc: ReceiptDoc, stops: seq<nat>): Result<Disk>
    decreases |stops|
  {
    if stops == [] then Ok(d)
    else match RedoTo(d, base, rc, stops[0])
      case Err(c) => Err(c)
      case Ok(d') => Interrupted(d', base, rc, stops[1..])
  }

  lemma {:induction false} InterruptedOpen(t: Tx, d: Disk, stops: seq<nat>)
    requires Open(t, d) && forall i :: 0 <= i < |stops| ==> stops[i] <= |t.plan.receipt.entries|
    ensures Interrupted(d, t.base, t.plan.receipt, stops).Ok? && Open(t, Interrupted(d, t.base, t.plan.receipt, stops).value)
    decreases |stops|
  {
    hide Open, RedoTo;
    if stops != [] {
      RedoFromOpen(t, d, stops[0]);
      InterruptedOpen(t, RedoTo(d, t.base, t.plan.receipt, stops[0]).value, stops[1..]);
    }
  }

  /** The apply stopped after `k` actions, the receipt among them, and then redos did. */
  ghost predicate CrashedAt(t: Tx, k: nat, stops: seq<nat>, d: Disk) {
    && Planned(t, None) && NoDeletions(t.plan.receipt) && CommitPoint(t.plan) <= k < |Actions(t.plan)|
    && (forall i :: 0 <= i < |stops| ==> stops[i] <= |t.plan.receipt.entries|)
    && Publication.Run(t.d0, Actions(t.plan)[..k], t.plan.receipt).Ok?
    && Interrupted(Publication.Run(t.d0, Actions(t.plan)[..k], t.plan.receipt).value, t.base, t.plan.receipt, stops) == Result.Ok(d)
  }

  lemma CrashedOpen(t: Tx, k: nat, stops: seq<nat>, d: Disk)
    requires CrashedAt(t, k, stops, d)
    ensures Open(t, d)
  {
    hide Actions, Fits, Freeze, PlannedPosts, Interrupted, NoDeletions;
    var d1 := Publication.Run(t.d0, Actions(t.plan)[..k], t.plan.receipt).value;
    WriterStands(t, k, d1);
    hide Planned;
    InterruptedOpen(t, d1, stops);
  }

  // ----- restarting -----

  lemma FinalAgrees(t: Tx, d: Disk)
    requires Final(t, d)
    ensures Agrees(d) && Addressed(d) && !PreOrPost(d)
    ensures Answer(d, t.q.requestId) == Some(RequestDoc(t.q.requestId, t.base.lastSeq + 1, t.q.mutation, OutcomeOf(t.q, t.base.lastSeq + 1, t.eff)))
  {
    FinalFinished(t, d);
    CommittedAnswer(t, d);
    FinishedConsistent(t, d);
    hide Planned, Finished, Fits;
  }

  /** One session over a committed transaction. Whatever faults it meets, the transaction
      stays open or ends as the uninterrupted apply would have ended; without faults
      that depends on the staging directory alone. */
  method Restart(ghost t: Tx, w: Writer) returns (redone: bool, error: Option<Code>)
    requires (Open(t, w.disk) || Final(t, w.disk)) && w.Valid()
    modifies w
    ensures w.Valid()
    ensures Open(t, w.disk) || Final(t, w.disk)
    ensures Final(t, old(w.disk)) ==> !redone && error.None? && w.disk == old(w.disk) && w.slots == old(w.slots)
    ensures Open(t, old(w.disk)) ==> if redone then error.None? && Final(t, w.disk) else error.Some?
    ensures Open(t, old(w.disk)) && old(w.slots) != {} ==> error == Some(Malformed) && w.disk == old(w.disk) && w.slots == old(w.slots)
    ensures Open(t, old(w.disk)) && CleanFrom(w.faults, old(w.calls)) ==> (redone <==> old(w.slots) == {}) && w.slots == old(w.slots)
  {
    hide Open, Final, RedoTo, CleanFrom;
    ghost var d := w.disk;
    if Open(t, d) { OpenRedoable(t, d); }
    if Final(t, d) { FinalAgrees(t, d); }
    var done;
    ghost var begun, ended;
    redone, error, done, begun, ended := w.RedoPending();
    if Open(t, d) { RedoFromOpen(t, d, done); }
  }

  /** Redo convergence through the gates: from every crash after the link, and after
      every interrupted redo, a session without faults over empty staging ends with
      the disk of the uninterrupted apply. */
  method RestartAfter(ghost t: Tx, ghost k: nat, ghost stops: seq<nat>, w: Writer) returns (redone: bool)
    requires CrashedAt(t, k, stops, w.disk)
    requires w.Valid() && w.slots == {} && CleanFrom(w.faults, w.calls)
    modifies w
    ensures redone && w.slots == {}
    ensures Publication.Run(t.d0, Actions(t.plan), t.plan.receipt) == Result.Ok(w.disk)
  {
    CrashedOpen(t, k, stops, w.disk);
    hide Open, CrashedAt;
    var error;
    redone, error := Restart(t, w);
  }

  lemma {:induction false} DeletionRefused(d: Disk, es: seq<Entry>, rc: ReceiptDoc, i: nat)
    requires i < |es| && Deletes(es[i])
    ensures RedoEntries(d, es, rc).Err?
    decreases i
  {
    if i > 0 {
      match RedoEntry(d, es[0], rc)
      case Err(_) =>
      case Ok(m) => DeletionRefused(m, es[1..], rc, i - 1);
    }
  }

  /** A transaction that deletes, once committed and crashed, is refused by every session
      whatever its faults: redo does not delete. */
  method RestartDeletion(ghost t: Tx, w: Writer) returns (error: Option<Code>)
    requires OpenAs(t, w.disk) && !NoDeletions(t.plan.receipt) && w.Valid()
    modifies w
    ensures error.Some?
  {
    hide Planned, Midway, Fits, RedoEntries;
    ghost var d, rc := w.disk, t.plan.receipt;
    OpenConsistent(t, d);
    hide PreOrPost, Agrees, HeadOf, ReceiptOf;
    var redone, done;
    ghost var begun, ended;
    redone, error, done, begun, ended := w.RedoPending();
    ghost var i :| 0 <= i < |rc.entries| && Deletes(rc.entries[i]);
    DeletionRefused(d, rc.entries, rc, i);
  }

  /** Any number of sessions one after another, each with its own faults; `left` is the
      staging directory before each and at the end. It fills up for good, and once one
      session without faults finds it empty the transaction is complete. */
  method Restarts(ghost t: Tx, disk: Disk, slots: set<nat>, scripts: seq<nat -> Fault>) returns (end: Disk, left: seq<set<nat>>)
    requires Open(t, disk) || Final(t, disk)
    ensures Open(t, end) || Final(t, end)
    ensures |left| == |scripts| + 1 && left[0] == slots
    ensures forall i :: 0 <= i < |scripts| && left[i] != {} ==> left[i + 1] == left[i]
    ensures slots != {} ==> end == disk
    ensures forall i :: 0 <= i < |scripts| && left[i] == {} && CleanFrom(scripts[i], 0) ==> Final(t, end)
  {
    hide Open, Final, CleanFrom;
    end, left := disk, [slots];
    for n := 0 to |scripts|
      invariant Open(t, end) || Final(t, end)
      invariant |left| == n + 1 && left[0] == slots
      invariant forall i :: 0 <= i < n && left[i] != {} ==> left[i + 1] == left[i]
      invariant slots != {} ==> end == disk && left[n] == slots
      invariant forall i :: 0 <= i < n && left[i] == {} && CleanFrom(scripts[i], 0) ==> Final(t, end)
    {
      var w := new Writer(end, left[n], scripts[n]);
      var _, _ := Restart(t, w);
      end, left := w.disk, left + [w.slots];
    }
  }

  /** A request that crashed after its commit and is sent again: the redo completes it
      and the same bytes get the recorded outcome, other bytes conflict, and another
      request is committed after it when its plan freezes. */
  method Retry(ghost t: Tx, w: Writer, q: Asked, planning: Disk -> Result<Planning>) returns (r: Report)
    requires Open(t, w.disk) && w.Valid() && w.slots == {} && CleanFrom(w.faults, w.calls)
    requires forall d :: planning(d).Ok? ==> PlannedPosts(q, planning(d).value.posts, planning(d).value.eff)
    modifies w
    ensures q.requestId == t.q.requestId ==> Final(t, w.disk)
    ensures q.requestId == t.q.requestId && q.mutation == t.q.mutation ==>
      r == Replayed(OutcomeOf(t.q, t.base.lastSeq + 1, t.eff).(replayed := true))
    ensures q.requestId == t.q.requestId && q.mutation != t.q.mutation ==> r == Conflict
    ensures forall d :: Final(t, d) && Answer(d, q.requestId).None? && Freezes(q, d, planning) ==> r.Committed?
  {
    hide Open, Final, RedoTo, Freezes, Answer, Readable, PlannedPosts, PreOrPost, Agrees, Redoable, HeadOf, ReceiptOf, Attempted, CommittedAs;
    OpenRedoable(t, w.disk);
    ghost var d := w.disk;
    ghost var redo, tx;
    r, redo, tx := w.Mutate(q, planning);
    RedoFromOpen(t, d, redo.done);
    FinalAgrees(t, redo.disk);
    AgreeingReads(redo.disk);
    forall e | Final(t, e) ensures e == redo.disk { FinalOne(t, e, redo.disk); }
  }

  lemma FinalOne(t: Tx, d: Disk, e: Disk)
    requires Final(t, d) && Final(t, e)
    ensures d == e
  {
  }

  // ----- a store that cannot be repaired -----

  lemma {:induction false} SettledWrites(c: Disk, rc: ReceiptDoc, d: Disk, i: nat)
    requires OnDisk(c, rc) && NoDeletions(rc) && Midway(c, rc, d) && i <= |rc.entries|
    requires forall j :: 0 <= j < |rc.entries| ==> AtPost(rc, d, j)
    ensures Writes(d, rc.entries[i..], rc) == 0
    decreases |rc.entries| - i
  {
    if i < |rc.entries| {
      var e := rc.entries[i];
      SameBlobs(c, rc, d, e);
      assert PostBytes(c, e).Ok? && AtPost(rc, d, i);
      assert RedoEntry(d, e, rc) == Result.Ok(d);
      assert rc.entries[i..][0] == e && rc.entries[i..][1..] == rc.entries[i + 1..];
      SettledWrites(c, rc, d, i + 1);
    }
  }

  /** The apply of `t` stopped just before its last action. */
  ghost predicate BeforeHead(t: Tx, d: Disk) {
    && Planned(t, None) && NoDeletions(t.plan.receipt) && Actions(t.plan) != []
    && Publication.Run(t.d0, Actions(t.plan)[..|Actions(t.plan)| - 1], t.plan.receipt) == Result.Ok(d)
  }

  lemma CrashBeforeHead(t: Tx)
    requires Planned(t, None) && NoDeletions(t.plan.receipt)
    ensures Actions(t.plan) != [] && Publication.Run(t.d0, Actions(t.plan)[..|Actions(t.plan)| - 1], t.plan.receipt).Ok?
    ensures BeforeHead(t, Publication.Run(t.d0, Actions(t.plan)[..|Actions(t.plan)| - 1], t.plan.receipt).value)
  {
    hide Fits, Freeze, Addressed;
    PlannedFrozen(t, None);
    ApplyPrefix(t.d0, t.base, t.plan, |Actions(t.plan)| - 1);
  }

  /** Then everything but the head is on the disk. */
  lemma OnlyHeadMissing(t: Tx, d: Disk)
    requires BeforeHead(t, d)
    ensures Open(t, d) && Writes(d, t.plan.receipt.entries, t.plan.receipt) == 0
  {
    hide Planned, Fits, Writes, ValidReceipt;
    var rc, c := t.plan.receipt, AtCommit(t.d0, t.plan);
    PlannedFrozen(t, None);
    CommitLinks(t.d0, t.base, t.plan);
    DropsShape(rc.entries, rc.kind) by { assert Staged(t.d0, t.plan); ValidEntries(rc); }
    PostsAt(t.d0, t.base, t.plan, |PostPhase(t.plan)|);
    hide OnDisk, Midway;
    assert PostPhase(t.plan)[..|PostPhase(t.plan)|] == PostPhase(t.plan);
    assert Actions(t.plan)[..|Actions(t.plan)| - 1] == Puts(EvidencePhase(t.plan)) + [Put(ReceiptArt(t.plan))] + Puts(PostPhase(t.plan));
    SettledWrites(c, rc, d, 0);
    assert rc.entries[0..] == rc.entries;
  }

  lemma ValidEntries(rc: ReceiptDoc)
    requires ValidReceipt(rc)
    ensures forall i :: 0 <= i < |rc.entries| ==> ValidEntry(rc.entries[i], rc.kind)
  {
  }

  /** The second call of this session fails before its effect, and no other fails. */
  function SecondFails(): nat -> Fault { (n: nat) => if n == 1 then Before else Clean }

  /** A crash just before the head, one failed rename in the redo, and from then on
      every session is refused, with no fault at all. */
  method HeadRenameFails(ghost t: Tx, disk: Disk, later: nat -> Fault) returns (left: set<nat>, again: Option<Code>)
    requires BeforeHead(t, disk)
    ensures left != {} && again == Some(Malformed)
  {
    hide BeforeHead, Open, Final, PreOrPost, Agrees, Fits, Actions, Publication.Run, HeadOf, ReceiptOf, PostsLeaveSlot, RedoEntries, RedoTo, CleanFrom;
    OnlyHeadMissing(t, disk);
    OpenRedoable(t, disk);
    var w := new Writer(disk, {}, SecondFails());
    var redone, error, done;
    ghost var begun, ended;
    redone, error, done, begun, ended := w.RedoPending();
    left := w.slots;
    var v := new Writer(w.disk, w.slots, later);
    RedoFromOpen(t, disk, done);
    OpenRedoable(t, w.disk);
    redone, error, done, begun, ended := v.RedoPending();
    again := error;
  }
}
