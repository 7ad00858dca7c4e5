/** Every prefix of an apply, classified: before the receipt link only orphaned
    evidence is new; after it each post holds pre or post; at the end all is done. */
module Recovery {
  import opened Wrappers
  import opened Documents
  import opened Publication
  import opened Commit

  /** `d0` is a store with head `base`, and `plan` was frozen over it. */
  ghost predicate Frozen(d0: Disk, base: HeadDoc, plan: Plan) {
    && HeadOf(d0) == Some(base)
    && Addressed(d0)
    && Receipt(plan.receipt.seqNo) !in d0
    && Staged(d0, plan)
    && plan.head == HeadAfter(base, plan.receipt)
  }

  /** Freezing over a store whose head it was given yields such a plan, and its head
      is the one redo would write. */
  lemma FreezeFrozen(q: Asked, d0: Disk, base: HeadDoc, posts: seq<Post>, eff: TicketEffect, plan: Plan)
    requires HeadOf(d0) == Some(base) && q.queueId == base.queueId && Addressed(d0)
    requires Receipt(base.lastSeq + 1) !in d0
    requires PlannedPosts(q, posts, eff) && Freeze(q, d0, base, posts, eff) == Result.Ok(plan)
    ensures Frozen(d0, base, plan) && plan.receipt.seqNo == base.lastSeq + 1
  {
    FreezeStages(q, d0, base, posts, eff, plan);
  }

  /** The disk just after the receipt link. */
  function AtCommit(d0: Disk, plan: Plan): Disk {
    match Run(d0, Puts(EvidencePhase(plan)), plan.receipt)
    case Err(_) => d0
    case Ok(m) => m[Receipt(plan.receipt.seqNo) := ReceiptFile(plan.receipt)]
  }

  lemma {:induction false} CommitLinks(d0: Disk, base: HeadDoc, plan: Plan)
    requires Frozen(d0, base, plan)
    ensures var c, rc := AtCommit(d0, plan), plan.receipt;
      && Run(d0, Puts(EvidencePhase(plan)) + [Put(ReceiptArt(plan))], rc) == Result.Ok(c)
      && OnDisk(c, rc) && Midway(c, rc, c)
      && (forall p: Path :: (!p.Evidence? || p in d0) && p != Receipt(rc.seqNo) ==> DigestAt(c, p) == DigestAt(d0, p))
      && Addressed(c)
  {
    var rc := plan.receipt;
    EvidenceRun(d0, d0, EvidencePhase(plan), rc);
    var m := Run(d0, Puts(EvidencePhase(plan)), rc).value;
    var c := AtCommit(d0, plan);
    assert DigestAt(m, Receipt(rc.seqNo)) == DigestAt(d0, Receipt(rc.seqNo));
    assert Perform(m, Put(ReceiptArt(plan)), rc) == Result.Ok(c);
    RunSplit(d0, Puts(EvidencePhase(plan)), [Put(ReceiptArt(plan))], rc);
    assert Run(m, [Put(ReceiptArt(plan))], rc) == Result.Ok(c) by { assert [Put(ReceiptArt(plan))][1..] == []; }
    forall i | 0 <= i < |rc.entries|
      ensures var e := rc.entries[i];
        && (!Deletes(e) ==> PostBytes(c, e).Ok?)
        && (e.path.Evidence? ==> AtPost(rc, c, i))
        && (!Deletes(e) && e.pre.Some? && e.pre != e.post ==> Mutable(e.path))
        && (DigestAt(c, e.path) == e.pre || AtPost(rc, c, i))
    {
      assert ValidEntry(rc.entries[i], rc.kind);
      EntryOnDisk(d0, base, plan, m, i);
    }
  }

  lemma EntryOnDisk(d0: Disk, base: HeadDoc, plan: Plan, m: Disk, i: nat)
    requires Frozen(d0, base, plan) && i < |plan.receipt.entries|
    requires Prepared(d0, m) && forall p :: p in d0 || Targets(EvidencePhase(plan), p) ==> p in m
    ensures var rc := plan.receipt; var e := rc.entries[i]; var c := m[Receipt(rc.seqNo) := ReceiptFile(rc)];
      && (!Deletes(e) ==> PostBytes(c, e).Ok?)
      && (e.path.Evidence? ==> AtPost(rc, c, i))
      && (!Deletes(e) && e.pre.Some? && e.pre != e.post ==> Mutable(e.path))
      && (DigestAt(c, e.path) == e.pre || AtPost(rc, c, i))
  {
    var rc := plan.receipt;
    var e := rc.entries[i];
    assert ValidEntry(e, rc.kind);
    if e.blob.Some? { assert Evidence(e.blob.value) in m; }
    if e.path.Evidence? { assert e.path in m; }
    if !e.path.Evidence? { assert DigestAt(m, e.path) == DigestAt(d0, e.path); }
  }

  // ----- the tail of the action list -----

  lemma {:induction false} DropsShape(es: seq<Entry>, kind: string)
    requires forall i :: 0 <= i < |es| ==> ValidEntry(es[i], kind)
    ensures |Drops(es)| <= 1
    ensures Drops(es) == [] ==> forall i :: 0 <= i < |es| ==> !Deletes(es[i])
    ensures Drops(es) != [] ==> exists i :: 0 <= i < |es| && Deletes(es[i]) && es[i].pre.Some? && Drops(es)[0] == DropBarrier(es[i].pre.value)
  {
    if es != [] {
      assert ValidEntry(es[0], kind);
      if !Deletes(es[0]) {
        DropsShape(es[1..], kind);
        if Drops(es) != [] {
          var i :| 0 <= i < |es[1..]| && Deletes(es[1..][i]) && es[1..][i].pre.Some? && Drops(es[1..])[0] == DropBarrier(es[1..][i].pre.value);
          assert es[i + 1] == es[1..][i];
        }
      }
    }
  }

  lemma DropRun(c: Disk, rc: ReceiptDoc, d: Disk)
    requires OnDisk(c, rc) && Midway(c, rc, d)
    requires forall i :: 0 <= i < |rc.entries| && !Deletes(rc.entries[i]) ==> AtPost(rc, d, i)
    ensures Run(d, Drops(rc.entries), rc).Ok?
    ensures var d' := Run(d, Drops(rc.entries), rc).value;
      Midway(c, rc, d') && forall i :: 0 <= i < |rc.entries| ==> AtPost(rc, d', i)
  {
    var xs := Drops(rc.entries);
    DropsShape(rc.entries, rc.kind);
    if xs == [] {
      assert forall i :: 0 <= i < |rc.entries| ==> AtPost(rc, d, i);
    } else {
      var j :| 0 <= j < |rc.entries| && Deletes(rc.entries[j]) && rc.entries[j].pre.Some? && xs[0] == DropBarrier(rc.entries[j].pre.value);
      assert ValidEntry(rc.entries[j], rc.kind);
      assert rc.entries[j].path == Barrier && PostOf(rc, Barrier);
      var d' := if Barrier in d then d - {Barrier} else d;
      assert DigestAt(d, rc.entries[j].path) == rc.entries[j].pre || AtPost(rc, d, j);
      assert Perform(d, xs[0], rc) == Result.Ok(d');
      assert xs[1..] == [];
      assert Run(d, xs, rc) == Result.Ok(d');
      forall i | 0 <= i < |rc.entries| ensures AtPost(rc, d', i) {
        if i != j { assert rc.entries[i].path != rc.entries[j].path; assert !Deletes(rc.entries[i]) by { assert ValidEntry(rc.entries[i], rc.kind); } }
      }
    }
  }

  lemma HeadRun(c: Disk, plan: Plan, d: Disk)
    requires OnDisk(c, plan.receipt) && Midway(c, plan.receipt, d)
    requires forall i :: 0 <= i < |plan.receipt.entries| ==> AtPost(plan.receipt, d, i)
    ensures Run(d, [Put(HeadArt(plan))], plan.receipt).Ok?
    ensures Finished(c, plan.receipt, plan.head, Run(d, [Put(HeadArt(plan))], plan.receipt).value)
  {
    var d' := d[Path.Head := HeadFile(plan.head)];
    assert DigestAt(d, Path.Head) == Some(Sum(HeadFile(plan.head))) ==> d' == d;
    assert Perform(d, Put(HeadArt(plan)), plan.receipt) == Result.Ok(d');
    assert [Put(HeadArt(plan))][1..] == [];
    HeadAdvanced(c, plan.receipt, plan.head, d);
  }

  // ----- every prefix -----

  lemma {:induction false} BeforeCommit(d0: Disk, base: HeadDoc, plan: Plan, k: nat)
    requires Frozen(d0, base, plan) && k < CommitPoint(plan)
    ensures k < |Actions(plan)| && Run(d0, Actions(plan)[..k], plan.receipt).Ok? && Prepared(d0, Run(d0, Actions(plan)[..k], plan.receipt).value)
  {
    var ev := EvidencePhase(plan);
    assert Actions(plan)[..k] == Puts(ev[..k]);
    EvidenceRun(d0, d0, ev[..k], plan.receipt);
  }

  lemma {:induction false} PostsAt(d0: Disk, base: HeadDoc, plan: Plan, j: nat)
    requires Frozen(d0, base, plan) && j <= |PostPhase(plan)|
    ensures var rc, c := plan.receipt, AtCommit(d0, plan);
      && Run(d0, Puts(EvidencePhase(plan)) + [Put(ReceiptArt(plan))] + Puts(PostPhase(plan)[..j]), rc).Ok?
      && var d := Run(d0, Puts(EvidencePhase(plan)) + [Put(ReceiptArt(plan))] + Puts(PostPhase(plan)[..j]), rc).value;
         && Midway(c, rc, d)
         && (j == |PostPhase(plan)| ==> forall i :: 0 <= i < |rc.entries| && !Deletes(rc.entries[i]) ==> AtPost(rc, d, i))
  {
    var rc, c, ps := plan.receipt, AtCommit(d0, plan), PostPhase(plan)[..j];
    CommitLinks(d0, base, plan);
    RunSplit(d0, Puts(EvidencePhase(plan)) + [Put(ReceiptArt(plan))], Puts(ps), rc);
    PostsRun(c, rc, c, ps);
    var d := Run(c, Puts(ps), rc).value;
    if j == |PostPhase(plan)| {
      assert ps == PostPhase(plan);
      forall i | 0 <= i < |rc.entries| && !Deletes(rc.entries[i]) ensures AtPost(rc, d, i) {
        if rc.entries[i].path.Evidence? { assert AtPost(rc, c, i); }
      }
    }
  }

  /** A prefix of an apply, by how much of it reached the disk. */
  lemma {:induction false} ApplyPrefix(d0: Disk, base: HeadDoc, plan: Plan, k: nat)
    requires Frozen(d0, base, plan) && k <= |Actions(plan)|
    ensures Run(d0, Actions(plan)[..k], plan.receipt).Ok?
    ensures var rc, c, d := plan.receipt, AtCommit(d0, plan), Run(d0, Actions(plan)[..k], plan.receipt).value;
      && (k < CommitPoint(plan) ==> Prepared(d0, d))
      && (CommitPoint(plan) <= k < |Actions(plan)| ==> Midway(c, rc, d))
      && (k == |Actions(plan)| ==> Finished(c, rc, plan.head, d))
  {
    var rc, c := plan.receipt, AtCommit(d0, plan);
    var er := Puts(EvidencePhase(plan)) + [Put(ReceiptArt(plan))];
    var ps, ds, hd := PostPhase(plan), Drops(rc.entries), [Put(HeadArt(plan))];
    CommitLinks(d0, base, plan);
    DropsShape(rc.entries, rc.kind);
    assert Actions(plan) == er + Puts(ps) + ds + hd;
    if k < CommitPoint(plan) {
      BeforeCommit(d0, base, plan, k);
    } else if k <= |er| + |ps| {
      var j := k - |er|;
      assert Actions(plan)[..k] == er + Puts(ps[..j]);
      PostsAt(d0, base, plan, j);
    } else {
      PostsAt(d0, base, plan, |ps|);
      assert ps[..|ps|] == ps;
      var d1 := Run(d0, er + Puts(ps), rc).value;
      DropRun(c, rc, d1);
      RunSplit(d0, er + Puts(ps), ds, rc);
      if k < |Actions(plan)| {
        assert Actions(plan)[..k] == er + Puts(ps) + ds;
      } else {
        assert Actions(plan)[..k] == er + Puts(ps) + ds + hd;
        RunSplit(d0, er + Puts(ps) + ds, hd, rc);
        HeadRun(c, plan, Run(d1, ds, rc).value);
      }
    }
  }

  /** Crash and redo convergence. The apply stops after any `k` actions that include
      the receipt link; redos crash any number of times at any entry; the first redo
      that completes leaves exactly the disk of the uninterrupted apply. */
  lemma RedoConverges(q: Asked, d0: Disk, base: HeadDoc, posts: seq<Post>, eff: TicketEffect, plan: Plan, k: nat, crashes: seq<nat>)
    requires HeadOf(d0) == Some(base) && q.queueId == base.queueId && Addressed(d0)
    requires Receipt(base.lastSeq + 1) !in d0
    requires PlannedPosts(q, posts, eff) && Freeze(q, d0, base, posts, eff) == Result.Ok(plan)
    requires NoDeletions(plan.receipt)
    requires CommitPoint(plan) <= k < |Actions(plan)|
    ensures Run(d0, Actions(plan)[..k], plan.receipt).Ok? && Run(d0, Actions(plan), plan.receipt).Ok?
    ensures Recover(Run(d0, Actions(plan)[..k], plan.receipt).value, base, plan.receipt, crashes)
         == Run(d0, Actions(plan), plan.receipt)
  {
    var rc, c := plan.receipt, AtCommit(d0, plan);
    FreezeFrozen(q, d0, base, posts, eff, plan);
    CommitLinks(d0, base, plan);
    ApplyPrefix(d0, base, plan, k);
    ApplyPrefix(d0, base, plan, |Actions(plan)|);
    assert Actions(plan)[..|Actions(plan)|] == Actions(plan);
    var d := Run(d0, Actions(plan)[..k], rc).value;
    RecoverFinishes(c, rc, base, d, crashes);
    FinishedUnique(c, rc, plan.head, Recover(d, base, rc, crashes).value, Run(d0, Actions(plan), rc).value);
  }
}
