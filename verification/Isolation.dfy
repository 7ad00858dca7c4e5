/** Readers take no lock. Without edits every state of the store either agrees or has
    one transaction open, receipts are never lost and heads never go back; so a head
    seen again with no receipt beyond it means nothing a reader reads has moved. */
module Isolation {
  import opened Wrappers
  import opened Documents
  import opened Publication
  import opened Commit
  import opened Recovery
  import opened Audit
  import opened Refinement
  import opened Runs

  /** `t` has been committed on `d` and is not finished. */
  ghost predicate OpenAs(t: Tx, d: Disk) {
    Planned(t, None) && Midway(AtCommit(t.d0, t.plan), t.plan.receipt, d)
  }

  ghost predicate Consistent(d: Disk) {
    Addressed(d) && (Agrees(d) || exists t :: OpenAs(t, d))
  }

  ghost predicate WritingSoundly(d: Disk, t: Tx, k: nat, ready: Option<Ready>) {
    && Planned(t, None) && k <= |Actions(t.plan)|
    && Publication.Run(t.d0, Actions(t.plan)[..k], t.plan.receipt) == Result.Ok(d)
    && (ready.Some? ==>
          && k < |Actions(t.plan)| && Actions(t.plan)[k] == Put(ready.value.art)
          && Decide(d, ready.value.art, PreOf(t.plan.receipt.entries, ready.value.art.target)) == Result.Ok(ready.value.how))
  }

  ghost predicate RedoSoundly(t: Tx, d: Disk, rc: ReceiptDoc, base: HeadDoc, k: nat) {
    OpenAs(t, d) && t.plan.receipt == rc && t.base == base && k <= |rc.entries| && forall j :: 0 <= j < k ==> AtPost(rc, d, j)
  }

  ghost predicate RedoingSoundly(d: Disk, rc: ReceiptDoc, base: HeadDoc, k: nat, ready: Option<Ready>) {
    && k <= |rc.entries| + 1
    && (k <= |rc.entries| ==> exists t :: RedoSoundly(t, d, rc, base, k))
    && (ready.Some? ==>
          && k < |rc.entries|
          && ready.value.art == Artifact(POST, rc.entries[k].path, ready.value.art.data)
          && Some(Sum(ready.value.art.data)) == rc.entries[k].post
          && Decide(d, ready.value.art, PreOf(rc.entries, ready.value.art.target)) == Result.Ok(ready.value.how))
  }

  ghost predicate Sound(s: State) {
    && Consistent(s.disk)
    && match s.ctl
       case Idle => true
       case Writing(t, k, ready) => WritingSoundly(s.disk, t, k, ready)
       case Redoing(rc, base, k, ready) => RedoingSoundly(s.disk, rc, base, k, ready)
  }

  // ----- each step keeps it -----

  lemma PinnedAddressed(t: Tx, d: Disk)
    requires Planned(t, None)
    requires forall p: Path :: p.Evidence? || (!PostOf(t.plan.receipt, p) && !p.Head?) ==> DigestAt(d, p) == DigestAt(AtCommit(t.d0, t.plan), p)
    requires PostsHeld(d, t.plan.receipt, true)
    ensures Addressed(d)
  {
    var c, rc := AtCommit(t.d0, t.plan), t.plan.receipt;
    PlannedFrozen(t, None);
    CommitLinks(t.d0, t.base, t.plan);
    forall x | Evidence(x) in d ensures Sum(d[Evidence(x)]) == x {
      assert DigestAt(d, Evidence(x)) == DigestAt(c, Evidence(x));
    }
    forall x | Pinned(x) in d ensures Sum(d[Pinned(x)]) == x {
      if PostOf(rc, Pinned(x)) {
        var i :| 0 <= i < |rc.entries| && rc.entries[i].path == Pinned(x);
        assert AtPost(rc, d, i) || DigestAt(d, rc.entries[i].path) == rc.entries[i].pre;
        assert rc.entries[i].pre == DigestAt(t.d0, Pinned(x));
      } else {
        assert DigestAt(d, Pinned(x)) == DigestAt(c, Pinned(x));
      }
    }
  }

  lemma OpenConsistent(t: Tx, d: Disk)
    requires OpenAs(t, d)
    ensures Consistent(d) && PreOrPost(d) && !Agrees(d) && HeadOf(d) == Some(t.base)
    ensures ReceiptOf(d, t.base.lastSeq + 1) == Some(t.plan.receipt) && t.plan.receipt.seqNo == t.base.lastSeq + 1
  {
    CommittedPending(t, None, d);
    PlannedFrozen(t, None);
    PlanReceiptValid(t, None);
    NoPostOutside(t.plan.receipt);
    assert PostsHeld(d, t.plan.receipt, true);
    PinnedAddressed(t, d);
    var h := History(d, t.base.lastSeq + 1);
    assert Decodable(d, t.base.lastSeq + 1);
    assert Some(h[t.base.lastSeq]) == ReceiptOf(d, t.base.lastSeq + 1);
  }

  lemma FinishedConsistent(t: Tx, d: Disk)
    requires Planned(t, None) && Finished(AtCommit(t.d0, t.plan), t.plan.receipt, t.plan.head, d)
    ensures Consistent(d) && Agrees(d) && HeadOf(d) == Some(t.plan.head) && t.plan.head.lastSeq == t.base.lastSeq + 1
  {
    PlannedFrozen(t, None);
    FinishedAgrees(t, None, d);
    FinishedKeeps(t.d0, t.base, t.plan, d);
    assert PostsHeld(d, t.plan.receipt, true);
    PinnedAddressed(t, d);
  }

  /** Where a writer stands after `k` actions. */
  lemma WriterStands(t: Tx, k: nat, d: Disk)
    requires Planned(t, None) && k <= |Actions(t.plan)|
    requires Publication.Run(t.d0, Actions(t.plan)[..k], t.plan.receipt) == Result.Ok(d)
    ensures Consistent(d)
    ensures k < CommitPoint(t.plan) ==> Agrees(d) && HeadOf(d) == Some(t.base)
    ensures CommitPoint(t.plan) <= k < |Actions(t.plan)| ==> OpenAs(t, d) && PreOrPost(d) && HeadOf(d) == Some(t.base)
    ensures k == |Actions(t.plan)| ==> Agrees(d) && HeadOf(d) == Some(t.plan.head) && t.plan.head.lastSeq == t.base.lastSeq + 1
  {
    PlannedFrozen(t, None);
    ApplyPrefix(t.d0, t.base, t.plan, k);
    if k < CommitPoint(t.plan) {
      PreparedFits(t.d0, d, None);
    } else if k < |Actions(t.plan)| {
      assert OpenAs(t, d);
      OpenConsistent(t, d);
    } else {
      FinishedConsistent(t, d);
    }
  }

  lemma RunSnoc(d0: Disk, xs: seq<Action>, k: nat, rc: ReceiptDoc, d: Disk)
    requires k < |xs| && Publication.Run(d0, xs[..k], rc) == Result.Ok(d)
    ensures Publication.Run(d0, xs[..k + 1], rc) == Perform(d, xs[k], rc)
  {
    assert xs[..k + 1] == xs[..k] + [xs[k]];
    RunSplit(d0, xs[..k], [xs[k]], rc);
    assert [xs[k]][1..] == [];
  }

  lemma WriteSound(s: State, s': State)
    requires Sound(s) && (Effect(s, s') || Lift(s, s'))
    ensures Sound(s')
    ensures s'.ctl == Writing(s.ctl.t, s.ctl.next + 1, None)
  {
    var t, k := s.ctl.t, s.ctl.next;
    RunSnoc(t.d0, Actions(t.plan), k, t.plan.receipt, s.disk);
    assert Perform(s.disk, Actions(t.plan)[k], t.plan.receipt) == Result.Ok(s'.disk);
    WriterStands(t, k + 1, s'.disk);
  }

  lemma BeginSound(s: State, s': State)
    requires Sound(s) && Begin(s, s')
    ensures Sound(s')
  {
    var t := s'.ctl.t;
    var except :| Planned(t, except);
    if !Agrees(s.disk) {
      var o :| OpenAs(o, s.disk);
      OpenConsistent(o, s.disk);
    }
    assert Planned(t, None);
    assert Actions(t.plan)[..0] == [];
  }

  lemma BeginRedoSound(s: State, s': State)
    requires Sound(s) && BeginRedo(s, s')
    ensures Sound(s')
  {
    hide OpenAs;
    var t :| OpenAs(t, s.disk);
    OpenConsistent(t, s.disk);
    assert RedoSoundly(t, s.disk, s'.ctl.rc, s'.ctl.base, 0);
  }

  lemma RedoPublishes(t: Tx, d: Disk, rc: ReceiptDoc, base: HeadDoc, k: nat, f: File, how: How, d': Disk)
    requires RedoSoundly(t, d, rc, base, k) && k < |rc.entries| && rc.entries[k].post == Some(Sum(f))
    requires Decide(d, Artifact(POST, rc.entries[k].path, f), PreOf(rc.entries, rc.entries[k].path)) == Result.Ok(how)
    requires Publish(d, Artifact(POST, rc.entries[k].path, f), how) == Result.Ok(d')
    ensures RedoSoundly(t, d', rc, base, k + 1)
  {
    hide Planned, AtCommit, Settled, OnDisk, AtPost;
    PlannedFrozen(t, None);
    CommitLinks(t.d0, t.base, t.plan);
    assert Perform(d, Put(Artifact(POST, rc.entries[k].path, f)), rc) == Result.Ok(d');
    hide Decide, Publish, Perform, Planned, Midway;
    PostStep(AtCommit(t.d0, t.plan), rc, d, k, f);
  }

  lemma RedoSound(s: State, s': State)
    requires Sound(s) && EffectAgain(s, s')
    ensures Sound(s')
  {
    hide Consistent, Planned, Midway, Addressed, PreOrPost, Agrees, Fits, PostBytes;
    var rc, base, k, r := s.ctl.rc, s.ctl.base, s.ctl.next, s.ctl.ready.value;
    var t :| RedoSoundly(t, s.disk, rc, base, k);
    hide Decide, Publish;
    RedoPublishes(t, s.disk, rc, base, k, r.art.data, r.how, s'.disk);
    OpenConsistent(t, s'.disk);
    hide OpenAs, Consistent, PreOrPost, Agrees;
  }

  lemma AdvanceSound(s: State, s': State)
    requires Sound(s) && Advance(s, s')
    ensures Sound(s')
    ensures Agrees(s'.disk) && HeadOf(s.disk) == Some(s.ctl.base) && HeadOf(s'.disk).Some? && HeadOf(s'.disk).value.lastSeq == s.ctl.base.lastSeq + 1
  {
    var rc, base := s.ctl.rc, s.ctl.base;
    var t :| RedoSoundly(t, s.disk, rc, base, |rc.entries|);
    OpenConsistent(t, s.disk);
    PlannedFrozen(t, None);
    HeadAdvanced(AtCommit(t.d0, t.plan), rc, t.plan.head, s.disk);
    FinishedConsistent(t, s'.disk);
  }

  lemma ChooseAgainSound(s: State, s': State)
    requires Sound(s) && ChooseAgain(s, s')
    ensures Sound(s')
  {
    var k, rc := s.ctl.next, s.ctl.rc;
    assert s'.disk == s.disk && k < |rc.entries|;
    PostBytesSum(s.disk, rc.entries[k]);
    assert RedoingSoundly(s'.disk, rc, s.ctl.base, k, s'.ctl.ready);
  }

  lemma PostBytesSum(d: Disk, e: Entry)
    requires !Deletes(e) && PostBytes(d, e).Ok?
    ensures Some(Sum(PostBytes(d, e).value)) == e.post
  {
  }

  lemma SoundKept(s: State, s': State)
    requires Sound(s) && Step(s, s')
    ensures Sound(s')
  {
    if Stop(s, s') {}
    else if Begin(s, s') { BeginSound(s, s'); }
    else if Effect(s, s') || Lift(s, s') { WriteSound(s, s'); }
    else if BeginRedo(s, s') { BeginRedoSound(s, s'); }
    else if EffectAgain(s, s') { RedoSound(s, s'); }
    else if ChooseAgain(s, s') { ChooseAgainSound(s, s'); }
    else if Advance(s, s') { AdvanceSound(s, s'); }
  }

  /** Every state a store reaches without edits passes the audit, or is exactly one
      validated transaction short of passing it. */
  lemma SoundAudits(s: State)
    requires Sound(s)
    ensures Agrees(s.disk) || PreOrPost(s.disk)
    ensures HeadOf(s.disk).Some? && (Agrees(s.disk) <==> Receipt(HeadOf(s.disk).value.lastSeq + 1) !in s.disk)
  {
    if !Agrees(s.disk) {
      var t :| OpenAs(t, s.disk);
      OpenConsistent(t, s.disk);
    }
  }

  // ----- growth -----

  lemma AppendOnly(s: State, s': State, p: Path)
    requires Step(s, s') && p in s.disk && (p.Receipt? || p.Evidence?)
    ensures p in s'.disk && s'.disk[p] == s.disk[p]
  {
  }

  ghost predicate HeadGrows(d: Disk, d': Disk) {
    HeadOf(d).Some? && HeadOf(d').Some? && HeadOf(d).value.lastSeq <= HeadOf(d').value.lastSeq
  }

  lemma WriteHead(s: State, s': State)
    requires Sound(s) && (Effect(s, s') || Lift(s, s'))
    ensures HeadGrows(s.disk, s'.disk)
  {
    hide Consistent;
    WriteSound(s, s');
    WriterStands(s.ctl.t, s.ctl.next, s.disk);
    WriterStands(s.ctl.t, s.ctl.next + 1, s'.disk);
  }

  lemma HeadStays(s: State, s': State)
    requires Sound(s) && Step(s, s')
    ensures HeadGrows(s.disk, s'.disk)
  {
    if Effect(s, s') || Lift(s, s') {
      WriteHead(s, s');
    } else if EffectAgain(s, s') {
      SoundAudits(s);
      var t :| RedoSoundly(t, s.disk, s.ctl.rc, s.ctl.base, s.ctl.next);
      RedoHead(s, s', t);
    } else if Advance(s, s') {
      AdvanceSound(s, s');
    } else {
      SoundAudits(s);
      assert s'.disk == s.disk;
    }
  }

  lemma RedoHead(s: State, s': State, t: Tx)
    requires Sound(s) && EffectAgain(s, s') && RedoSoundly(t, s.disk, s.ctl.rc, s.ctl.base, s.ctl.next)
    ensures HeadOf(s'.disk) == HeadOf(s.disk)
  {
    PlanReceiptValid(t, None);
    assert ValidEntry(s.ctl.rc.entries[s.ctl.next], s.ctl.rc.kind);
    PublishChanges(s.disk, s.ctl.ready.value.art, s.ctl.ready.value.how, Path.Head);
  }

  /** Between two agreeing states with one head, a step can only have added evidence. */
  lemma QuietStep(s: State, s': State, p: Path)
    requires Sound(s) && Step(s, s') && Agrees(s.disk) && Agrees(s'.disk)
    requires HeadOf(s.disk).value.lastSeq == HeadOf(s'.disk).value.lastSeq && !p.Evidence?
    ensures DigestAt(s'.disk, p) == DigestAt(s.disk, p)
  {
    hide Fits, Decide;
    hide OpenAs, PreOrPost, Consistent;
    if Effect(s, s') || Lift(s, s') {
      WriteSound(s, s');
      var t, k := s.ctl.t, s.ctl.next;
      WriterStands(t, k, s.disk);
      WriterStands(t, k + 1, s'.disk);
      assert k + 1 < CommitPoint(t.plan);
      ActionTarget(t, None, k);
      if Effect(s, s') { PublishChanges(s.disk, s.ctl.ready.value.art, s.ctl.ready.value.how, p); }
    } else if EffectAgain(s, s') {
      var t :| RedoSoundly(t, s.disk, s.ctl.rc, s.ctl.base, s.ctl.next);
      OpenConsistent(t, s.disk);
      assert false;
    } else if Advance(s, s') {
      AdvanceSound(s, s');
      assert false;
    }
  }

  // ----- windows of a history -----

  ghost predicate Ticks(w: nat -> State, i: nat) {
    w(i + 1) == w(i) || Step(w(i), w(i + 1))
  }

  /** An initialised store with no writer at work. */
  ghost predicate AtRest(s: State) {
    s.ctl.Idle? && Agrees(s.disk) && Addressed(s.disk)
  }

  /** The store over time, unedited: at every moment it rests or takes one step. */
  ghost predicate Unedited(w: nat -> State) {
    && AtRest(w(0))
    && forall i: nat :: Ticks(w, i)
  }

  lemma {:induction false} Always(inv: State -> bool, w: nat -> State, i: nat)
    requires inv(w(0)) && forall k: nat, l: nat :: l == k + 1 && inv(w(k)) ==> inv(w(l))
    ensures inv(w(i))
  {
    if i > 0 { Always(inv, w, i - 1); }
  }

  lemma AlwaysSound(w: nat -> State, i: nat)
    requires Unedited(w)
    ensures Sound(w(i))
  {
    ghost var inv := (s: State) => Sound(s);
    forall k: nat, l: nat | l == k + 1 && inv(w(k)) ensures inv(w(l)) {
      assert Ticks(w, k);
      if w(l) != w(k) { SoundKept(w(k), w(l)); }
    }
    Always(inv, w, i);
  }

  /** Receipts and evidence are append-only. */
  ghost predicate ReceiptsKept(d: Disk, d': Disk) {
    && (forall n: nat :: Receipt(n) in d ==> Receipt(n) in d' && d'[Receipt(n)] == d[Receipt(n)])
    && BlobsKept(d, d')
  }

  lemma StepKeeps(s: State, s': State)
    requires Step(s, s')
    ensures ReceiptsKept(s.disk, s'.disk)
  {
    forall p: Path | (p.Receipt? || p.Evidence?) && p in s.disk ensures p in s'.disk && s'.disk[p] == s.disk[p] { AppendOnly(s, s', p); }
  }

  /** One tick of the clock. */
  lemma Tick(w: nat -> State, i: nat)
    requires Unedited(w)
    ensures w(i + 1) == w(i) || (Step(w(i), w(i + 1)) && Sound(w(i)) && Sound(w(i + 1)))
    ensures HeadGrows(w(i).disk, w(i + 1).disk) && ReceiptsKept(w(i).disk, w(i + 1).disk)
  {
    AlwaysSound(w, i);
    AlwaysSound(w, i + 1);
    assert Ticks(w, i);
    if w(i + 1) == w(i) {
      SoundAudits(w(i));
    } else {
      HeadStays(w(i), w(i + 1));
      StepKeeps(w(i), w(i + 1));
    }
  }

  ghost predicate Grown(d: Disk, d': Disk) {
    HeadGrows(d, d') && ReceiptsKept(d, d')
  }

  lemma {:induction false} GrownFrom(disks: nat -> Disk, i: nat, j: nat)
    requires i <= j && HeadOf(disks(i)).Some?
    requires forall k: nat, l: nat :: l == k + 1 ==> Grown(disks(k), disks(l))
    ensures Grown(disks(i), disks(j))
    decreases j
  {
    if i < j {
      GrownFrom(disks, i, j - 1);
      assert Grown(disks(j - 1), disks(j));
    }
  }

  lemma Grows(w: nat -> State, i: nat, j: nat)
    requires Unedited(w) && i <= j
    ensures Grown(w(i).disk, w(j).disk)
  {
    var disks := (k: nat) => w(k).disk;
    forall k: nat, l: nat | l == k + 1 ensures Grown(disks(k), disks(l)) { Tick(w, k); }
    Tick(w, i);
    GrownFrom(disks, i, j);
  }

  /** A head was read at `a`, and at `b` there was no receipt beyond it: then there
      was none at any moment between, and at each of them the store agreed. */
  lemma NoReceiptBeyond(w: nat -> State, a: nat, i: nat, b: nat)
    requires Unedited(w) && a <= i <= b
    requires HeadOf(w(a).disk).Some? && Receipt(HeadOf(w(a).disk).value.lastSeq + 1) !in w(b).disk
    ensures Receipt(HeadOf(w(a).disk).value.lastSeq + 1) !in w(i).disk
    ensures Agrees(w(i).disk) && HeadOf(w(i).disk).value.lastSeq == HeadOf(w(a).disk).value.lastSeq
  {
    Grows(w, a, i);
    Grows(w, i, b);
    AlwaysSound(w, i);
    SoundAudits(w(i));
    if HeadOf(w(i).disk).value.lastSeq > HeadOf(w(a).disk).value.lastSeq { HeadsFollowReceipts(w(i).disk, HeadOf(w(a).disk).value.lastSeq + 1); }
  }

  lemma HeadsFollowReceipts(d: Disk, n: nat)
    requires (Agrees(d) || PreOrPost(d)) && 1 <= n <= HeadOf(d).value.lastSeq
    ensures Receipt(n) in d
  {
  }

  lemma {:induction false} Steady(f: nat -> Option<Digest>, a: nat, i: nat)
    requires a <= i
    requires forall k: nat, l: nat :: a <= k < i && l == k + 1 ==> f(l) == f(k)
    ensures f(i) == f(a)
    decreases i
  {
    if a < i {
      Steady(f, a, i - 1);
      assert f(i) == f(i - 1);
    }
  }

  /** Read isolation: every file but orphaned evidence is the same throughout. */
  lemma ReadsOneState(w: nat -> State, a: nat, i: nat, b: nat, p: Path)
    requires Unedited(w) && a <= i <= b && !p.Evidence?
    requires HeadOf(w(a).disk).Some? && Receipt(HeadOf(w(a).disk).value.lastSeq + 1) !in w(b).disk
    ensures DigestAt(w(i).disk, p) == DigestAt(w(a).disk, p)
  {
    var f := (k: nat) => DigestAt(w(k).disk, p);
    forall k: nat, l: nat | a <= k < i && l == k + 1 ensures f(l) == f(k) { QuietWithin(w, a, k, b, p); }
    Steady(f, a, i);
  }

  lemma QuietWithin(w: nat -> State, a: nat, k: nat, b: nat, p: Path)
    requires Unedited(w) && a <= k < b && !p.Evidence?
    requires HeadOf(w(a).disk).Some? && Receipt(HeadOf(w(a).disk).value.lastSeq + 1) !in w(b).disk
    ensures DigestAt(w(k + 1).disk, p) == DigestAt(w(k).disk, p)
  {
    NoReceiptBeyond(w, a, k, b);
    NoReceiptBeyond(w, a, k + 1, b);
    QuietTick(w, k, p);
  }

  lemma QuietTick(w: nat -> State, i: nat, p: Path)
    requires Unedited(w) && Agrees(w(i).disk) && Agrees(w(i + 1).disk) && !p.Evidence?
    requires HeadOf(w(i).disk).value.lastSeq == HeadOf(w(i + 1).disk).value.lastSeq
    ensures DigestAt(w(i + 1).disk, p) == DigestAt(w(i).disk, p)
  {
    Tick(w, i);
    if w(i) != w(i + 1) { QuietStep(w(i), w(i + 1), p); }
  }
}
