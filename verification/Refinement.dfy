/** The audit refines the apply: it agrees before the receipt link, reports one
    validated pending receipt after it, and agrees one receipt later at the end. */
module Refinement {
  import opened Wrappers
  import opened Documents
  import opened Publication
  import opened Commit
  import opened Recovery
  import opened Audit

  /** Blobs of `d` are still there, unchanged, in `d'`. */
  ghost predicate BlobsKept(d: Disk, d': Disk) {
    forall x :: Evidence(x) in d ==> Evidence(x) in d' && d'[Evidence(x)] == d[Evidence(x)]
  }

  predicate SameReceipts(d: Disk, d': Disk, m: nat) {
    forall k :: 1 <= k <= m ==> ReceiptOf(d, k) == ReceiptOf(d', k)
  }

  lemma {:induction false} HistorySame(d: Disk, d': Disk, m: nat)
    requires SameReceipts(d, d', m)
    ensures History(d, m) == History(d', m)
  {
    if m > 0 { HistorySame(d, d', m - 1); }
  }

  lemma PostBytesKept(d: Disk, d': Disk, e: Entry)
    requires BlobsKept(d, d') && !Deletes(e) && PostBytes(d, e).Ok?
    ensures PostBytes(d', e) == PostBytes(d, e)
  {
  }

  lemma RequestInKept(d: Disk, d': Disk, rc: ReceiptDoc)
    requires BlobsKept(d, d') && forall i :: 0 <= i < |rc.entries| && !Deletes(rc.entries[i]) ==> PostBytes(d, rc.entries[i]).Ok?
    ensures RequestIn(d', rc) == RequestIn(d, rc) && TargetIn(d', rc) == TargetIn(d, rc)
  {
    if rc.requestId.Some? { EntryForIn(rc.entries, Request(rc.requestId.value)); }
    if rc.ticket.Some? { EntryForIn(rc.entries, Ticket(rc.ticket.value)); }
    forall e | e in rc.entries && !Deletes(e) ensures PostBytes(d', e) == PostBytes(d, e) {
      var i :| 0 <= i < |rc.entries| && rc.entries[i] == e;
      assert PostBytes(d, rc.entries[i]).Ok?;
      PostBytesKept(d, d', e);
    }
  }

  lemma ReceiptFitsKept(d: Disk, d': Disk, h: seq<ReceiptDoc>, head: HeadDoc, head': HeadDoc, rc: ReceiptDoc)
    requires ReceiptFits(d, h, head, rc) && BlobsKept(d, d')
    requires head'.init == head.init && (head' == head || |h| + 1 < head'.lastSeq)
    ensures ReceiptFits(d', h, head', rc)
  {
    forall i | 0 <= i < |rc.entries| ensures EntryFits(d', h, rc, rc.entries[i]) && (!Deletes(rc.entries[i]) ==> PostBytes(d, rc.entries[i]).Ok?) {
      assert EntryFits(d, h, rc, rc.entries[i]);
      if !Deletes(rc.entries[i]) { PostBytesKept(d, d', rc.entries[i]); }
    }
    RequestInKept(d, d', rc);
  }

  lemma ChainedKept(d: Disk, d': Disk, head: HeadDoc, head': HeadDoc, h: seq<ReceiptDoc>)
    requires Chained(d, head, h) && BlobsKept(d, d')
    requires head'.init == head.init && (head' == head || |h| < head'.lastSeq)
    ensures Chained(d', head', h)
  {
    forall i | 0 <= i < |h| ensures ReceiptFits(d', h[..i], head', h[i]) {
      assert ReceiptFits(d, h[..i], head, h[i]);
      ReceiptFitsKept(d, d', h[..i], head, head', h[i]);
    }
  }

  lemma {:induction false} LatestSeq(d: Disk, head: HeadDoc, h: seq<ReceiptDoc>, p: Path)
    requires Chained(d, head, h)
    ensures LatestOf(h, p).Some? ==> LatestOf(h, p).value.seqNo <= |h|
  {
    if h != [] {
      assert ReceiptFits(d, h[..|h| - 1], head, h[|h| - 1]);
      ChainedPrefix(d, head, h, |h| - 1);
      LatestSeq(d, head, h[..|h| - 1], p);
    }
  }

  /** Before the commit the receipts and the head are those of the base. */
  lemma PreparedReceipts(d0: Disk, d: Disk, m: nat)
    requires Prepared(d0, d)
    ensures HeadOf(d) == HeadOf(d0) && SameReceipts(d0, d, m)
    ensures forall k: nat :: Receipt(k) in d <==> Receipt(k) in d0
  {
    assert DigestAt(d, Path.Head) == DigestAt(d0, Path.Head);
    forall k: nat ensures (Receipt(k) in d <==> Receipt(k) in d0) && ReceiptOf(d0, k) == ReceiptOf(d, k) {
      assert DigestAt(d, Receipt(k)) == DigestAt(d0, Receipt(k));
    }
  }

  lemma PreparedJournal(d0: Disk, d: Disk)
    requires JournalFits(d0) && !IsPending(d0, HeadOf(d0).value) && Prepared(d0, d)
    ensures JournalFits(d) && HeadOf(d) == HeadOf(d0) && !IsPending(d, HeadOf(d).value)
    ensures History(d, HeadOf(d).value.lastSeq) == History(d0, HeadOf(d0).value.lastSeq)
  {
    var head := HeadOf(d0).value;
    PreparedReceipts(d0, d, head.lastSeq);
    EvidenceKept(d0, d);
    HistorySame(d0, d, head.lastSeq);
    hide Prepared, ReceiptFits, ReceiptOf, History, BlobsKept;
    ChainedKept(d0, d, head, head, History(d0, head.lastSeq));
  }

  /** A retained afterimage keeps its file: new evidence is never one. */
  lemma PreparedProjection(d0: Disk, d: Disk, except: Option<Path>, p: Path)
    requires Fits(d0, except, true) && !IsPending(d0, HeadOf(d0).value) && Prepared(d0, d)
    requires var h := History(d0, HeadOf(d0).value.lastSeq); LatestOf(h, p).Some? && InScope(p, except, true)
    ensures DigestAt(d, p) == LatestOf(History(d0, HeadOf(d0).value.lastSeq), p).value.digest
    ensures LatestOf(History(d0, HeadOf(d0).value.lastSeq), p).value.seqNo <= HeadOf(d0).value.lastSeq
  {
    hide ReceiptFits, ReceiptOf, Addressed, History;
    var head := HeadOf(d0).value;
    var h := History(d0, head.lastSeq);
    assert |h| == head.lastSeq by { assert Decodable(d0, head.lastSeq); }
    LatestSeq(d0, head, h, p);
    assert ProjectionFits(d0, p, LatestOf(h, p).value, false);
    if p.Evidence? { LatestKept(d0, head, h, p); }
    assert DigestAt(d, p) == DigestAt(d0, p);
  }

  lemma PreparedFile(d0: Disk, d: Disk, except: Option<Path>, p: Path)
    requires Fits(d0, except, true) && !IsPending(d0, HeadOf(d0).value) && Prepared(d0, d) && p in d
    ensures LatestOf(History(d0, HeadOf(d0).value.lastSeq), p).Some? || Exempt(p)
  {
    hide JournalFits, ReceiptOf, Addressed, History, LatestOf;
    if !p.Evidence? { assert DigestAt(d, p) == DigestAt(d0, p); }
  }

  /** Before the commit the audit answers as it did over the base. */
  lemma PreparedFits(d0: Disk, d: Disk, except: Option<Path>)
    requires Fits(d0, except, true) && !IsPending(d0, HeadOf(d0).value) && Prepared(d0, d)
    ensures Fits(d, except, true) && HeadOf(d) == HeadOf(d0) && !IsPending(d, HeadOf(d).value)
    ensures History(d, HeadOf(d).value.lastSeq) == History(d0, HeadOf(d0).value.lastSeq)
  {
    PreparedJournal(d0, d);
    var h := History(d0, HeadOf(d0).value.lastSeq);
    hide Prepared, JournalFits, HeadOf, ReceiptOf, History, LatestOf, Exempt;
    forall p | LatestOf(h, p).Some? && InScope(p, except, true)
      ensures ProjectionFits(d, p, LatestOf(h, p).value, LatestOf(h, p).value.seqNo > HeadOf(d).value.lastSeq)
    {
      PreparedProjection(d0, d, except, p);
    }
    forall p: Path | p in d ensures LatestOf(h, p).Some? || Exempt(p) {
      PreparedFile(d0, d, except, p);
    }
  }

  lemma EvidenceKept(d0: Disk, d: Disk)
    requires Prepared(d0, d)
    ensures BlobsKept(d0, d)
  {
    forall x | Evidence(x) in d0 ensures Evidence(x) in d && d[Evidence(x)] == d0[Evidence(x)] {
      assert DigestAt(d, Evidence(x)) == DigestAt(d0, Evidence(x));
    }
  }

  /** A retained afterimage is a deletion only for the barrier. */
  lemma {:induction false} LatestKept(d: Disk, head: HeadDoc, h: seq<ReceiptDoc>, p: Path)
    requires Chained(d, head, h) && !p.Barrier?
    ensures LatestOf(h, p).Some? ==> LatestOf(h, p).value.digest.Some?
  {
    if h != [] {
      var init, rc := h[..|h| - 1], h[|h| - 1];
      assert ReceiptFits(d, init, head, rc);
      ChainedPrefix(d, head, h, |h| - 1);
      LatestKept(d, head, init, p);
      EntryForIn(rc.entries, p);
      if EntryFor(rc.entries, p).Some? {
        var e := EntryFor(rc.entries, p).value;
        var i :| 0 <= i < |rc.entries| && rc.entries[i] == e;
        assert ValidEntry(rc.entries[i], rc.kind);
      }
    }
  }

  // ----- the frozen receipt passes the walk -----

  /** One transaction: what was asked, the disk and head it was planned over, and
      the plan frozen from them. */
  datatype Tx = Tx(q: Asked, d0: Disk, base: HeadDoc, posts: seq<Post>, eff: TicketEffect, plan: Plan)

  /** The plan was frozen over a disk whose audit agrees (apart from one diverged
      intent target, which the plan then posts). */
  ghost predicate Planned(t: Tx, except: Option<Path>) {
    && Fits(t.d0, except, true) && HeadOf(t.d0) == Some(t.base) && !IsPending(t.d0, t.base)
    && Addressed(t.d0) && t.q.queueId == t.base.queueId
    && PlannedPosts(t.q, t.posts, t.eff) && Freeze(t.q, t.d0, t.base, t.posts, t.eff) == Result.Ok(t.plan)
    && (except.Some? ==> PostOf(t.plan.receipt, except.value) && IntentPath(except.value))
  }

  /** The part of it that the projections depend on. */
  ghost predicate Basis(d0: Disk, base: HeadDoc, rc: ReceiptDoc, except: Option<Path>) {
    && Fits(d0, except, true) && HeadOf(d0) == Some(base) && !IsPending(d0, base)
    && ValidReceipt(rc) && rc.seqNo == base.lastSeq + 1
    && (except.Some? ==> PostOf(rc, except.value) && IntentPath(except.value))
  }

  lemma PlannedFrozen(t: Tx, except: Option<Path>)
    requires Planned(t, except)
    ensures Frozen(t.d0, t.base, t.plan) && Basis(t.d0, t.base, t.plan.receipt, except)
  {
    FreezeFrozen(t.q, t.d0, t.base, t.posts, t.eff, t.plan);
  }

  lemma FreshRequest(d0: Disk, base: HeadDoc, id: string, except: Option<Path>)
    requires Fits(d0, except, true) && HeadOf(d0) == Some(base) && !IsPending(d0, base)
    requires Request(id) !in d0 && (except.Some? ==> IntentPath(except.value))
    ensures LatestOf(History(d0, base.lastSeq), Request(id)).None?
  {
    hide History, LatestOf;
    var h := History(d0, base.lastSeq);
    LatestRequest(d0, base, h, id);
    LatestSeq(d0, base, h, Request(id));
    assert LatestOf(h, Request(id)).Some? ==> ProjectionFits(d0, Request(id), LatestOf(h, Request(id)).value, false);
  }

  function Posts(t: Tx): seq<Post> { AllPosts(t.q, t.base, t.posts, t.eff) }

  /** Every entry that is not a deletion has its bytes on the disk. */
  predicate BytesThere(d: Disk, rc: ReceiptDoc) {
    forall i :: 0 <= i < |rc.entries| && !Deletes(rc.entries[i]) ==> PostBytes(d, rc.entries[i]).Ok?
  }

  lemma EntryAt(t: Tx, i: nat)
    requires Freeze(t.q, t.d0, t.base, t.posts, t.eff) == Result.Ok(t.plan) && i <= |t.posts|
    ensures |t.plan.receipt.entries| == |Posts(t)| == |t.posts| + 1
    ensures t.plan.receipt.entries[i] == EntryOf(t.d0, Posts(t)[i])
    ensures ValidReceipt(t.plan.receipt) && ValidEntry(t.plan.receipt.entries[i], t.plan.receipt.kind)
    ensures EntryFor(t.plan.receipt.entries, Posts(t)[i].path) == Some(t.plan.receipt.entries[i])
  {
    FreezeParts(t.q, t.d0, t.base, t.posts, t.eff, t.plan);
    EntryForAt(t.plan.receipt.entries, i);
  }

  lemma PlanEntryFits(t: Tx, except: Option<Path>, d: Disk, i: nat)
    requires Planned(t, except) && BytesThere(d, t.plan.receipt) && i < |t.plan.receipt.entries|
    ensures EntryFits(d, History(t.d0, t.base.lastSeq), t.plan.receipt, t.plan.receipt.entries[i])
  {
    hide Fits, LatestOf, History;
    FreezeParts(t.q, t.d0, t.base, t.posts, t.eff, t.plan);
    EntryAt(t, i);
    if t.plan.receipt.entries[i].path.Request? {
      assert i == |t.posts|;
      FreshRequest(t.d0, t.base, t.q.requestId, except);
    }
  }

  lemma PlanRevisions(t: Tx, d: Disk)
    requires PlannedPosts(t.q, t.posts, t.eff) && Freeze(t.q, t.d0, t.base, t.posts, t.eff) == Result.Ok(t.plan)
    requires BytesThere(d, t.plan.receipt)
    ensures RequestIn(d, t.plan.receipt) ==
      Some(RequestDoc(t.q.requestId, t.base.lastSeq + 1, t.q.mutation, OutcomeOf(t.q, t.base.lastSeq + 1, t.eff)))
    ensures RevisionsBound(t.plan.receipt, RequestIn(d, t.plan.receipt), TargetIn(d, t.plan.receipt))
  {
    hide ValidEntry, EntryFor, History;
    EntryAt(t, |t.posts|);
    if t.eff.OnTicket? {
      var k :| 0 <= k < |t.posts| && t.posts[k].path == Ticket(t.eff.post.local) && t.posts[k].file == Some(TicketFile(t.eff.post));
      EntryAt(t, k);
    }
  }

  /** The frozen receipt continues the chain of the base, under either head. */
  lemma PlanFits(t: Tx, except: Option<Path>, d: Disk, head: HeadDoc)
    requires Planned(t, except) && BytesThere(d, t.plan.receipt)
    requires head == t.base || head == t.plan.head
    ensures ReceiptFits(d, History(t.d0, t.base.lastSeq), head, t.plan.receipt)
  {
    hide EntryFits, RevisionsBound, RequestIn, History;
    var h, rc := History(t.d0, t.base.lastSeq), t.plan.receipt;
    PlannedFrozen(t, except);
    assert ReceiptFits(t.d0, h[..|h| - 1], t.base, h[|h| - 1]);
    forall i | 0 <= i < |rc.entries| ensures EntryFits(d, h, rc, rc.entries[i]) {
      PlanEntryFits(t, except, d, i);
    }
    PlanRevisions(t, d);
  }

  // ----- after the commit -----

  ghost predicate OneReceiptMore(d0: Disk, d: Disk, rc: ReceiptDoc) {
    && (forall k: nat :: k != rc.seqNo ==> DigestAt(d, Receipt(k)) == DigestAt(d0, Receipt(k)))
    && DigestAt(d, Receipt(rc.seqNo)) == Some(Sum(ReceiptFile(rc)))
  }

  lemma ReceiptsMore(d0: Disk, d: Disk, rc: ReceiptDoc, m: nat)
    requires OneReceiptMore(d0, d, rc) && rc.seqNo == m + 1
    requires Contiguous(d0, m) && Decodable(d0, m)
    ensures Contiguous(d, m + 1) && Decodable(d, m + 1) && History(d, m + 1) == History(d0, m) + [rc]
  {
    forall k: nat | k != m + 1 ensures (Receipt(k) in d <==> Receipt(k) in d0) && ReceiptOf(d0, k) == ReceiptOf(d, k) {
      assert DigestAt(d, Receipt(k)) == DigestAt(d0, Receipt(k));
    }
    assert SameReceipts(d0, d, m);
    HistorySame(d0, d, m);
  }

  /** The journal of the committed and of the finished disk. */
  lemma JournalExtended(d0: Disk, base: HeadDoc, rc: ReceiptDoc, except: Option<Path>, d: Disk, head: HeadDoc)
    requires Basis(d0, base, rc, except) && OneReceiptMore(d0, d, rc)
    requires BlobsKept(d0, d) && HeadOf(d) == Some(head)
    requires head.init == base.init && (head == base || head.lastSeq == base.lastSeq + 1)
    requires ReceiptFits(d, History(d0, base.lastSeq), head, rc)
    ensures JournalFits(d) && Retained(d, head) == base.lastSeq + 1
    ensures History(d, base.lastSeq + 1) == History(d0, base.lastSeq) + [rc]
  {
    var h := History(d0, base.lastSeq);
    ReceiptsMore(d0, d, rc, base.lastSeq);
    ChainedKept(d0, d, base, head, h);
    ChainedMore(d, head, h, rc);
  }

  lemma LatestExtended(h: seq<ReceiptDoc>, rc: ReceiptDoc, p: Path)
    ensures LatestOf(h + [rc], p) == (match EntryFor(rc.entries, p) case Some(e) => Some(Latest(rc.seqNo, e.post, e.pre)) case None => LatestOf(h, p))
  {
    assert (h + [rc])[..|h|] == h;
  }

  /** Outside the posts nothing moved but the journal itself and new evidence. */
  ghost predicate OnlyPosts(d0: Disk, d: Disk, rc: ReceiptDoc) {
    forall p: Path :: !PostOf(rc, p) && !p.Receipt? && !p.Head? && (!p.Evidence? || p in d0) ==> DigestAt(d, p) == DigestAt(d0, p)
  }

  ghost predicate PostsHeld(d: Disk, rc: ReceiptDoc, open: bool) {
    forall i :: 0 <= i < |rc.entries| ==> AtPost(rc, d, i) || (open && DigestAt(d, rc.entries[i].path) == rc.entries[i].pre)
  }

  /** Projections of the extended history: posted paths by the receipt, others as
      they were. */
  lemma ProjectionsExtended(d0: Disk, base: HeadDoc, rc: ReceiptDoc, except: Option<Path>, d: Disk, settledUpTo: nat)
    requires Basis(d0, base, rc, except) && OnlyPosts(d0, d, rc) && settledUpTo >= base.lastSeq
    requires PostsHeld(d, rc, settledUpTo == base.lastSeq)
    ensures ProjectionsFit(d, History(d0, base.lastSeq) + [rc], settledUpTo, None, true)
  {
    hide EntryFor, LatestOf, History;
    var h := History(d0, base.lastSeq);
    var all := h + [rc];
    forall p | LatestOf(all, p).Some? && InScope(p, None, true)
      ensures ProjectionFits(d, p, LatestOf(all, p).value, LatestOf(all, p).value.seqNo > settledUpTo)
    {
      LatestExtended(h, rc, p);
      EntryForIn(rc.entries, p);
      if EntryFor(rc.entries, p).Some? {
        var i :| 0 <= i < |rc.entries| && rc.entries[i] == EntryFor(rc.entries, p).value;
        assert AtPost(rc, d, i) || (settledUpTo == base.lastSeq && DigestAt(d, rc.entries[i].path) == rc.entries[i].pre);
      } else {
        assert forall i :: 0 <= i < |rc.entries| ==> rc.entries[i] in rc.entries;
        UnpostedProjection(d0, base, rc, except, d, p);
      }
    }
    forall p: Path | p in d ensures LatestOf(all, p).Some? || Exempt(p) {
      LatestExtended(h, rc, p);
      EntryForIn(rc.entries, p);
      if !PostOf(rc, p) && !Exempt(p) {
        assert DigestAt(d, p) == DigestAt(d0, p);
        assert LatestOf(h, p).Some?;
      }
    }
  }

  lemma UnpostedProjection(d0: Disk, base: HeadDoc, rc: ReceiptDoc, except: Option<Path>, d: Disk, p: Path)
    requires Basis(d0, base, rc, except) && OnlyPosts(d0, d, rc) && !PostOf(rc, p)
    requires LatestOf(History(d0, base.lastSeq), p).Some?
    ensures DigestAt(d, p) == LatestOf(History(d0, base.lastSeq), p).value.digest
  {
    var h := History(d0, base.lastSeq);
    LatestSeq(d0, base, h, p);
    assert ProjectionFits(d0, p, LatestOf(h, p).value, false);
    LatestPosted(d0, base, h, p);
    if p.Evidence? { LatestKept(d0, base, h, p); }
  }

  /** Only post paths are ever folded. */
  lemma {:induction false} LatestPosted(d: Disk, head: HeadDoc, h: seq<ReceiptDoc>, p: Path)
    requires Chained(d, head, h)
    ensures LatestOf(h, p).Some? ==> PostPath(p)
  {
    if h != [] {
      var init, rc := h[..|h| - 1], h[|h| - 1];
      assert ReceiptFits(d, init, head, rc);
      ChainedPrefix(d, head, h, |h| - 1);
      LatestPosted(d, head, init, p);
      EntryForIn(rc.entries, p);
      if EntryFor(rc.entries, p).Some? {
        var i :| 0 <= i < |rc.entries| && rc.entries[i] == EntryFor(rc.entries, p).value;
        assert ValidEntry(rc.entries[i], rc.kind);
      }
    }
  }

  lemma NoPostOutside(rc: ReceiptDoc)
    requires ValidReceipt(rc)
    ensures !PostOf(rc, Path.Head) && forall k: nat :: !PostOf(rc, Receipt(k))
  {
    forall i | 0 <= i < |rc.entries| ensures PostPath(rc.entries[i].path) { assert ValidEntry(rc.entries[i], rc.kind); }
  }

  /** What a disk keeps of the commit: receipts, blobs, and everything unposted. */
  lemma KeptSinceCommit(d0: Disk, base: HeadDoc, plan: Plan, d: Disk)
    requires Frozen(d0, base, plan)
    requires forall p: Path :: p.Evidence? || (!PostOf(plan.receipt, p) && !p.Head?) ==> DigestAt(d, p) == DigestAt(AtCommit(d0, plan), p)
    ensures BlobsKept(d0, d) && BytesThere(d, plan.receipt)
    ensures OneReceiptMore(d0, d, plan.receipt) && OnlyPosts(d0, d, plan.receipt)
  {
    var c, rc := AtCommit(d0, plan), plan.receipt;
    CommitLinks(d0, base, plan);
    NoPostOutside(rc);
    forall k: nat ensures DigestAt(d, Receipt(k)) == DigestAt(c, Receipt(k)) {}
    forall k: nat | k != rc.seqNo ensures DigestAt(d, Receipt(k)) == DigestAt(d0, Receipt(k)) {
      assert DigestAt(d, Receipt(k)) == DigestAt(c, Receipt(k));
    }
    assert DigestAt(d, Receipt(rc.seqNo)) == DigestAt(c, Receipt(rc.seqNo));
    forall x | Evidence(x) in d0 ensures Evidence(x) in d && d[Evidence(x)] == d0[Evidence(x)] {
      assert DigestAt(d, Evidence(x)) == DigestAt(c, Evidence(x)) == DigestAt(d0, Evidence(x));
    }
    forall i | 0 <= i < |rc.entries| && !Deletes(rc.entries[i]) ensures PostBytes(d, rc.entries[i]).Ok? {
      var e := rc.entries[i];
      assert PostBytes(c, e).Ok?;
      if e.blob.Some? { assert DigestAt(d, Evidence(e.blob.value)) == DigestAt(c, Evidence(e.blob.value)); }
    }
    forall p: Path | !PostOf(rc, p) && !p.Receipt? && !p.Head? && (!p.Evidence? || p in d0) ensures DigestAt(d, p) == DigestAt(d0, p) {
      assert DigestAt(d, p) == DigestAt(c, p);
    }
  }

  /** A disk one receipt beyond the base, under the old head or the new one. */
  lemma ExtendedFits(d0: Disk, base: HeadDoc, rc: ReceiptDoc, except: Option<Path>, d: Disk, head: HeadDoc)
    requires Basis(d0, base, rc, except) && OneReceiptMore(d0, d, rc)
    requires BlobsKept(d0, d) && HeadOf(d) == Some(head)
    requires head.init == base.init && (head == base || head.lastSeq == base.lastSeq + 1)
    requires ReceiptFits(d, History(d0, base.lastSeq), head, rc)
    requires OnlyPosts(d0, d, rc) && PostsHeld(d, rc, head == base)
    ensures Fits(d, None, true) && (IsPending(d, head) <==> head == base)
    ensures History(d, base.lastSeq + 1) == History(d0, base.lastSeq) + [rc]
  {
    JournalExtended(d0, base, rc, except, d, head);
    ProjectionsExtended(d0, base, rc, except, d, if head == base then base.lastSeq else base.lastSeq + 1);
    assert DigestAt(d, Receipt(base.lastSeq + 2)) == DigestAt(d0, Receipt(base.lastSeq + 2));
  }

  /** After the link, and until the head: exactly one validated pending receipt, and
      every projection holds pre or post. */
  lemma CommittedPending(t: Tx, except: Option<Path>, d: Disk)
    requires Planned(t, except) && Midway(AtCommit(t.d0, t.plan), t.plan.receipt, d)
    ensures PreOrPost(d) && HeadOf(d) == Some(t.base)
    ensures History(d, t.base.lastSeq + 1) == History(t.d0, t.base.lastSeq) + [t.plan.receipt]
  {
    hide Planned, ReceiptFits, Basis;
    var c, rc := AtCommit(t.d0, t.plan), t.plan.receipt;
    PlannedFrozen(t, except);
    CommitLinks(t.d0, t.base, t.plan);
    NoPostOutside(rc);
    KeptSinceCommit(t.d0, t.base, t.plan, d);
    assert DigestAt(d, Path.Head) == DigestAt(c, Path.Head) == DigestAt(t.d0, Path.Head);
    PlanFits(t, except, d, t.base);
    ExtendedFits(t.d0, t.base, rc, except, d, t.base);
  }

  /** At the end: agreement one receipt later, each posted path holding its post. */
  lemma FinishedAgrees(t: Tx, except: Option<Path>, d: Disk)
    requires Planned(t, except) && Finished(AtCommit(t.d0, t.plan), t.plan.receipt, t.plan.head, d)
    ensures Agrees(d) && HeadOf(d) == Some(t.plan.head) && t.plan.head.lastSeq == t.base.lastSeq + 1
    ensures History(d, t.plan.head.lastSeq) == History(t.d0, t.base.lastSeq) + [t.plan.receipt]
  {
    hide ReceiptFits, Basis, History, AtCommit;
    hide Planned;
    var c, rc := AtCommit(t.d0, t.plan), t.plan.receipt;
    PlannedFrozen(t, except);
    FinishedKeeps(t.d0, t.base, t.plan, d);
    KeptSinceCommit(t.d0, t.base, t.plan, d);
    PlanFits(t, except, d, t.plan.head);
    ExtendedFits(t.d0, t.base, rc, except, d, t.plan.head);
  }

  lemma FinishedKeeps(d0: Disk, base: HeadDoc, plan: Plan, d: Disk)
    requires Frozen(d0, base, plan) && Finished(AtCommit(d0, plan), plan.receipt, plan.head, d)
    ensures forall p: Path :: p.Evidence? || (!PostOf(plan.receipt, p) && !p.Head?) ==> DigestAt(d, p) == DigestAt(AtCommit(d0, plan), p)
  {
    var c, rc := AtCommit(d0, plan), plan.receipt;
    CommitLinks(d0, base, plan);
    forall p: Path | p.Evidence? ensures DigestAt(d, p) == DigestAt(c, p) {
      if PostOf(rc, p) {
        var i :| 0 <= i < |rc.entries| && rc.entries[i].path == p;
        assert AtPost(rc, d, i) && AtPost(rc, c, i);
      }
    }
  }

  /** The canonical record of each posted path is the posted bytes. */
  lemma PostedRecords(t: Tx, except: Option<Path>, d: Disk, i: nat)
    requires Planned(t, except) && Finished(AtCommit(t.d0, t.plan), t.plan.receipt, t.plan.head, d) && i < |t.posts|
    ensures LatestOf(History(d, t.plan.head.lastSeq), t.posts[i].path) ==
      Some(Latest(t.plan.head.lastSeq, if t.posts[i].file.Some? then Some(Sum(t.posts[i].file.value)) else None, DigestAt(t.d0, t.posts[i].path)))
    ensures if t.posts[i].file.Some? then t.posts[i].path in d && d[t.posts[i].path] == t.posts[i].file.value else t.posts[i].path !in d
  {
    FinishedAgrees(t, except, d);
    PlannedFrozen(t, except);
    EntryAt(t, i);
    LatestExtended(History(t.d0, t.base.lastSeq), t.plan.receipt, t.posts[i].path);
    assert AtPost(t.plan.receipt, d, i);
  }

  /** Audit refinement, at every prefix of the apply. */
  lemma AuditTracksApply(t: Tx, except: Option<Path>, k: nat)
    requires Planned(t, except) && k <= |Actions(t.plan)|
    ensures Run(t.d0, Actions(t.plan)[..k], t.plan.receipt).Ok?
    ensures var d := Run(t.d0, Actions(t.plan)[..k], t.plan.receipt).value;
      && (k < CommitPoint(t.plan) ==> Fits(d, except, true) && HeadOf(d) == Some(t.base) && !IsPending(d, t.base))
      && (CommitPoint(t.plan) <= k < |Actions(t.plan)| ==> PreOrPost(d) && HeadOf(d) == Some(t.base))
      && (k == |Actions(t.plan)| ==> Agrees(d) && HeadOf(d) == Some(t.plan.head) && t.plan.head.lastSeq == t.base.lastSeq + 1)
  {
    PlannedFrozen(t, except);
    ApplyPrefix(t.d0, t.base, t.plan, k);
    var d := Run(t.d0, Actions(t.plan)[..k], t.plan.receipt).value;
    if k < CommitPoint(t.plan) {
      PreparedFits(t.d0, d, except);
    } else if k < |Actions(t.plan)| {
      CommittedPending(t, except, d);
    } else {
      FinishedAgrees(t, except, d);
    }
  }
}
