/** A store left paused can always be unpaused: the reserve kept by the check covers
    every UNPAUSE plan within its stage caps. */
module Unpause {
  import opened Inventory
  import opened Capacity
  import opened CapacityLaws
  import Publication

  const UNPAUSE_DESCRIPTOR: nat := 1098
  const HEAD_CAP: nat := 4096

  /** An UNPAUSE frozen over `b` after receipt `seqNo`: a receipt, a request entry at an
      unoccupied path and a head, each within the cap the stage descriptor enforces, and
      the deletion of the barrier. */
  ghost predicate IsUnpause(t: Tariff, u: Plan, b: Books, seqNo: nat) {
    && u.base == b && u.baseSeq == seqNo && u.unlink && u.descriptor <= UNPAUSE_DESCRIPTOR
    && |u.arts| == 3
    && u.arts[0] == Art(Publication.HEAD, HeadJson, u.nextHead)
    && u.nextHead.bytes == t.headSize(seqNo + 1) <= HEAD_CAP
    && u.arts[1].role.POST? && u.arts[1].path.RequestJson? && u.arts[1].path.shard < 256
    && u.arts[1].path !in b.files && u.arts[1].meta.bytes <= UNPAUSE_INDEX
    && u.arts[2].role.RECEIPT? && u.arts[2].path == ReceiptJson(seqNo + 1) && u.arts[2].meta.bytes <= UNPAUSE_RECEIPT
  }

  // ----- the reserved request path exists -----

  function Slots(shard: nat, n: nat): set<Kept> { set x: nat | 0 <= x < n :: RequestJson(shard, x) }

  lemma {:induction false} SlotCount(shard: nat, n: nat)
    ensures |Slots(shard, n)| == n
  {
    if n > 0 {
      SlotCount(shard, n - 1);
      assert Slots(shard, n) == Slots(shard, n - 1) + {RequestJson(shard, n - 1)};
    }
  }

  lemma {:induction false} FewerKeys(a: set<Kept>, b: set<Kept>)
    requires a <= b
    ensures |a| <= |b|
  {
    assert b == a + (b - a);
    assert |b| == |a| + |b - a|;
  }

  /** One more candidate than files: some candidate is unoccupied, so the refusal for
      want of a request path is never reached. */
  lemma SlotExists(files: map<Kept, Meta>, shard: nat)
    ensures FreeSlot(files, shard, 0, |files| + 1) >= 0
  {
    SlotCount(shard, |files| + 1);
    assert |files.Keys| == |files|;
    if FreeSlot(files, shard, 0, |files| + 1) < 0 {
      FewerKeys(Slots(shard, |files| + 1), files.Keys);
    }
  }

  // ----- one request path costs what another does -----

  lemma SwapTotals(t: Tariff, fs: map<Kept, Meta>, p: Kept, q: Kept, m: Meta)
    requires Uniform(t) && p.RequestJson? && q.RequestJson? && p !in fs && q !in fs
    ensures Totals(t, fs[p := m]) == Totals(t, fs[q := m])
  {
    hide Totals, Uniform;
    TotalsTake(t, fs[p := m], p);
    TotalsTake(t, fs[q := m], q);
    assert fs[p := m] - {p} == fs && fs[q := m] - {q} == fs;
    SwapCharge(t, p, q, m);
  }

  lemma SwapCharge(t: Tariff, p: Kept, q: Kept, m: Meta)
    requires Uniform(t) && p.RequestJson? && q.RequestJson?
    ensures Charge(t, p, m) == Charge(t, q, m)
  {
    assert t.entry(RequestJson(p.shard, p.digest)) == t.entry(RequestJson(q.shard, q.digest));
  }

  /** The shard chosen for the reserve costs at least as many directories as any other. */
  lemma ShardDirs(dirs: set<Dir>, p: Kept, q: Kept)
    requires p.RequestJson? && p.shard < 256 && q.RequestJson? && q.shard == FreeShard(dirs, 0)
    ensures |dirs + Parents(p)| <= |dirs + Parents(q)|
  {
    var base := dirs + {Requests};
    assert dirs + Parents(p) == base + {Shard(p.shard)};
    assert dirs + Parents(q) == base + {Shard(q.shard)};
    if Shard(q.shard) in dirs {
      assert Shard(p.shard) in dirs;
      assert base + {Shard(p.shard)} == base && base + {Shard(q.shard)} == base;
    }
  }

  lemma SwapRequest(t: Tariff, b: Books, p: Kept, q: Kept, m: Meta, temporary: nat, promised: nat, names: nat, l: Limits)
    requires Uniform(t) && p.RequestJson? && q.RequestJson? && p !in b.files && q !in b.files
    requires |b.dirs + Parents(p)| <= |b.dirs + Parents(q)|
    requires Affordable(t, Put(b, q, m), temporary, promised, names, l)
    ensures Affordable(t, Put(b, p, m), temporary, promised, names, l)
  {
    SwapTotals(t, b.files, p, q, m);
    SwapBounded(t, b, p, q, m);
  }

  lemma SwapBounded(t: Tariff, b: Books, p: Kept, q: Kept, m: Meta)
    requires Uniform(t) && p.RequestJson? && q.RequestJson? && p !in b.files && q !in b.files
    requires Bounded(t, Put(b, q, m))
    ensures Bounded(t, Put(b, p, m))
  {
    assert t.bound(RequestJson(p.shard, p.digest)) == t.bound(RequestJson(q.shard, q.digest));
    assert q in Put(b, q, m).files;
    forall x | x in Put(b, p, m).files ensures Put(b, p, m).files[x].bytes <= t.bound(x) {
      if x != p { assert x in Put(b, q, m).files; }
    }
  }

  // ----- the peak, with the request where the plan puts it -----

  /** The books an UNPAUSE can reach at most, its request path left open. */
  function Reach(t: Tariff, b: Books, seqNo: nat): Books {
    var i := Put(Books(b.files, b.dirs + {Staging}), ReceiptJson(seqNo + 1), Meta(RESERVED, UNPAUSE_RECEIPT));
    if t.headSize(seqNo + 1) >= BytesAt(b, HeadJson) then Put(i, HeadJson, Meta(RESERVED, t.headSize(seqNo + 1))) else i
  }

  lemma PeakIsReach(t: Tariff, b: Books, seqNo: nat) returns (q: Kept)
    ensures q.RequestJson? && q.shard == FreeShard(b.dirs + {Staging}, 0) && q !in Reach(t, b, seqNo).files
    ensures Peak(t, b, seqNo) == Put(Reach(t, b, seqNo), q, Meta(RESERVED, UNPAUSE_INDEX))
  {
    hide FreeSlot, FreeShard, Parents;
    var start := Books(b.files, b.dirs + {Staging});
    var i := Put(start, ReceiptJson(seqNo + 1), Meta(RESERVED, UNPAUSE_RECEIPT));
    var shard := FreeShard(start.dirs, 0);
    SlotExists(i.files, shard);
    q := RequestJson(shard, FreeSlot(i.files, shard, 0, |i.files| + 1));
    PutsCommute(i, q, Meta(RESERVED, UNPAUSE_INDEX), HeadJson, Meta(RESERVED, t.headSize(seqNo + 1)));
  }

  lemma PutsCommute(b: Books, p: Kept, m: Meta, q: Kept, n: Meta)
    requires p != q
    ensures Put(Put(b, p, m), q, n) == Put(Put(b, q, n), p, m)
  {
    assert b.files[p := m][q := n] == b.files[q := n][p := m];
    assert b.dirs + Parents(p) + Parents(q) == b.dirs + Parents(q) + Parents(p);
  }

  lemma ReachDirs(t: Tariff, b: Books, seqNo: nat)
    ensures Reach(t, b, seqNo).dirs == b.dirs + {Staging} + {Receipts}
    ensures forall p: Kept :: p.RequestJson? && p !in b.files ==> p !in Reach(t, b, seqNo).files
  {
    assert Parents(HeadJson) == {};
  }

  lemma ActualPeak(t: Tariff, b: Books, seqNo: nat, p: Kept, l: Limits)
    requires Uniform(t) && p.RequestJson? && p.shard < 256 && p !in b.files
    requires Affordable(t, Peak(t, b, seqNo), UNPAUSE_TEMPORARY, UNPAUSE_PROMISED, UNPAUSE_NAMES, l)
    ensures Affordable(t, Put(Reach(t, b, seqNo), p, Meta(RESERVED, UNPAUSE_INDEX)), UNPAUSE_TEMPORARY, UNPAUSE_PROMISED, UNPAUSE_NAMES, l)
  {
    var q := PeakIsReach(t, b, seqNo);
    ReachDirs(t, b, seqNo);
    ReceiptDirs(b.dirs + {Staging}, q.shard);
    ShardDirs(Reach(t, b, seqNo).dirs, p, q);
    SwapRequest(t, Reach(t, b, seqNo), p, q, Meta(RESERVED, UNPAUSE_INDEX), UNPAUSE_TEMPORARY, UNPAUSE_PROMISED, UNPAUSE_NAMES, l);
  }

  /** Linking the receipt does not change which shard is free. */
  lemma {:induction false} FreeShardAgrees(a: set<Dir>, b: set<Dir>, from: nat)
    requires from <= 256 && forall x: nat :: Shard(x) in a <==> Shard(x) in b
    ensures FreeShard(a, from) == FreeShard(b, from)
    decreases 256 - from
  {
    if from < 256 { FreeShardAgrees(a, b, from + 1); }
  }

  lemma ReceiptDirs(dirs: set<Dir>, shard: nat)
    ensures FreeShard(dirs + {Receipts}, 0) == FreeShard(dirs, 0)
  {
    FreeShardAgrees(dirs + {Receipts}, dirs, 0);
  }

  // ----- the accepted UNPAUSE -----

  /** What one UNPAUSE promises is within the constants of the reserve. */
  lemma UnpauseCharges(t: Tariff, u: Plan, b: Books, seqNo: nat)
    requires IsUnpause(t, u, b, seqNo)
    ensures Promised(u) <= UNPAUSE_PROMISED && Temporary(u) <= UNPAUSE_TEMPORARY && Names(u) == UNPAUSE_NAMES
  {
    var a := u.arts;
    assert TotalBytes(a[3..]) == 0;
    assert a[2..][1..] == a[3..] && a[1..][1..] == a[2..];
    assert TotalBytes(a[2..]) == a[2].meta.bytes;
    assert TotalBytes(a[1..]) == a[1].meta.bytes + a[2].meta.bytes;
  }

  lemma UnpauseParts(t: Tariff, u: Plan, b: Books, seqNo: nat)
    requires IsUnpause(t, u, b, seqNo) && ReceiptJson(seqNo + 1) !in b.files
    ensures EvidenceOf(u) == [] && ReceiptsOf(u) == [u.arts[2]] && PostsOf(u) == [u.arts[1]]
  {
    var a := u.arts;
    assert a == [a[0], a[1], a[2]];
    SelectThree(a[0], a[1], a[2], Evident());
    SelectThree(a[0], a[1], a[2], Linked());
    SelectThree(a[0], a[1], a[2], Posted());
  }

  lemma SelectThree(a: Art, b: Art, c: Art, keep: Pick)
    ensures Select([a, b, c], keep) == (if keep(a) then [a] else []) + (if keep(b) then [b] else []) + (if keep(c) then [c] else [])
  {
    SelectOne(c, keep);
    assert [b, c][1..] == [c];
    assert Select([b, c], keep) == (if keep(b) then [b] else []) + Select([c], keep);
    assert [a, b, c][1..] == [b, c];
  }

  lemma SelectOne(a: Art, keep: Pick)
    ensures Select([a], keep) == if keep(a) then [a] else []
  {
    assert [a][1..] == [];
  }

  lemma PutAllOne(b: Books, a: Art)
    ensures PutAll(b, [a]) == Put(b, a.path, a.meta) && PutAll(b, []) == b
  {
    assert [a][1..] == [];
  }

  /** The durable points of an UNPAUSE. */
  lemma UnpausePoints(t: Tariff, u: Plan, b: Books, seqNo: nat)
    requires IsUnpause(t, u, b, seqNo) && ReceiptJson(seqNo + 1) !in b.files
    ensures Committed(u) == Put(Start(u), u.arts[2].path, u.arts[2].meta)
    ensures Ordered(u) == [u.arts[1]]
    ensures PutAll(Committed(u), Ordered(u)) == Put(Committed(u), u.arts[1].path, u.arts[1].meta)
  {
    UnpauseParts(t, u, b, seqNo);
    PutAllOne(Start(u), u.arts[2]);
    PutAllOne(Committed(u), u.arts[1]);
    assert GrowsOver(Committed(u), u.arts[1]);
    SelectOne(u.arts[1], Growers(Committed(u)));
    SelectOne(u.arts[1], Shrinkers(Committed(u)));
  }

  /** Each of them is within the actual peak. */
  lemma CommittedWithin(t: Tariff, u: Plan, b: Books, seqNo: nat)
    requires IsUnpause(t, u, b, seqNo) && ReceiptJson(seqNo + 1) !in b.files && Staging in b.dirs
    ensures Dominated(Start(u), Reach(t, b, seqNo)) && Dominated(Committed(u), Reach(t, b, seqNo))
  {
    hide Committed;
    hide Parents, BytesAt;
    UnpausePoints(t, u, b, seqNo);
    ReachHolds(t, b, seqNo);
    hide PutAll, Ordered;
  }

  lemma PutWithin(x: Books, y: Books, p: Kept, m: Meta, n: Meta)
    requires Dominated(x, y) && m.bytes <= n.bytes && p !in x.files && p !in y.files
    ensures Dominated(Put(x, p, m), Put(y, p, n)) && Dominated(x, Put(y, p, n))
  {
  }

  lemma PointsWithinPeak(t: Tariff, u: Plan, b: Books, seqNo: nat)
    requires IsUnpause(t, u, b, seqNo) && ReceiptJson(seqNo + 1) !in b.files && Staging in b.dirs
    ensures var peak := Put(Reach(t, b, seqNo), u.arts[1].path, Meta(RESERVED, UNPAUSE_INDEX));
      && Dominated(Start(u), peak) && Dominated(Committed(u), peak)
      && Dominated(PutAll(Committed(u), Ordered(u)), peak)
      && Dominated(Unlinked(PutAll(Committed(u), Ordered(u)), u), peak)
      && Dominated(Final(u), peak)
  {
    var reach, peak := Reach(t, b, seqNo), Put(Reach(t, b, seqNo), u.arts[1].path, Meta(RESERVED, UNPAUSE_INDEX));
    UnpausePoints(t, u, b, seqNo);
    ReachHolds(t, b, seqNo);
    CommittedWithin(t, u, b, seqNo);
    var done := PutAll(Committed(u), Ordered(u));
    PutWithin(Committed(u), reach, u.arts[1].path, u.arts[1].meta, Meta(RESERVED, UNPAUSE_INDEX));
    PutWithin(Start(u), reach, u.arts[1].path, u.arts[1].meta, Meta(RESERVED, UNPAUSE_INDEX));
    FinalWithin(u, Unlinked(done, u), peak);
  }

  lemma ReachHolds(t: Tariff, b: Books, seqNo: nat)
    ensures NoBigger(b.files, Reach(t, b, seqNo).files) || ReceiptJson(seqNo + 1) in b.files
    ensures ReceiptJson(seqNo + 1) in Reach(t, b, seqNo).files && Reach(t, b, seqNo).files[ReceiptJson(seqNo + 1)].bytes == UNPAUSE_RECEIPT
    ensures t.headSize(seqNo + 1) <= BytesAt(Reach(t, b, seqNo), HeadJson)
    ensures Reach(t, b, seqNo).dirs == b.dirs + {Staging} + {Receipts}
  {
    ReachDirs(t, b, seqNo);
  }

  lemma FinalWithin(u: Plan, x: Books, peak: Books)
    requires Dominated(x, peak) && HeadJson in peak.files && u.nextHead.bytes <= peak.files[HeadJson].bytes
    ensures Dominated(WithHead(x, u), peak)
  {
    assert Parents(HeadJson) == {};
  }

  lemma PeakAffords(t: Tariff, u: Plan, b: Books, seqNo: nat, x: Books, l: Limits)
    requires Uniform(t) && IsUnpause(t, u, b, seqNo)
    requires Affordable(t, Peak(t, b, seqNo), UNPAUSE_TEMPORARY, UNPAUSE_PROMISED, UNPAUSE_NAMES, l)
    requires Dominated(x, Put(Reach(t, b, seqNo), u.arts[1].path, Meta(RESERVED, UNPAUSE_INDEX)))
    ensures Charged(t, u, x, l) && Affordable(t, x, 0, 0, 0, l)
  {
    var peak := Put(Reach(t, b, seqNo), u.arts[1].path, Meta(RESERVED, UNPAUSE_INDEX));
    ActualPeak(t, b, seqNo, u.arts[1].path, l);
    UnpauseCharges(t, u, b, seqNo);
    DominatedAffordable(t, x, peak, Temporary(u), Promised(u), Names(u), UNPAUSE_TEMPORARY, UNPAUSE_PROMISED, UNPAUSE_NAMES, l);
    DominatedAffordable(t, x, peak, 0, 0, 0, UNPAUSE_TEMPORARY, UNPAUSE_PROMISED, UNPAUSE_NAMES, l);
  }

  lemma UnpauseExclusive(t: Tariff, u: Plan, b: Books, seqNo: nat)
    requires IsUnpause(t, u, b, seqNo) && ReceiptJson(seqNo + 1) !in b.files
    ensures Exclusive(u) && BarrierJson !in Final(u).files
  {
    UnpauseParts(t, u, b, seqNo);
    UnpausePoints(t, u, b, seqNo);
    assert PutAll(Start(u), []) == Start(u);
  }

  lemma UnpauseStart(t: Tariff, u: Plan, b: Books, seqNo: nat, l: Limits)
    requires u.base == b && u.baseSeq == seqNo && UnpauseFits(t, b, seqNo, l) && Start(u) == b && EvidenceOf(u) == []
    requires Books(b.files, b.dirs + {Staging}) == b && BarrierJson in b.files && Charged(t, u, b, l)
    ensures AffordsStart(t, u, l)
  {
  }

  lemma UnpauseMiddle(t: Tariff, u: Plan, b: Books, seqNo: nat, l: Limits)
    requires IsUnpause(t, u, b, seqNo) && ReceiptJson(seqNo + 1) !in b.files
    requires Charged(t, u, Committed(u), l) && Charged(t, u, PutAll(Committed(u), Ordered(u)), l)
    requires Charged(t, u, Unlinked(PutAll(Committed(u), Ordered(u)), u), l)
    ensures AffordsPosts(t, u, l)
  {
    UnpausePoints(t, u, b, seqNo);
    assert Ordered(u)[1..] == [];
  }

  /** The reserve is enough: wherever it was found to fit, an UNPAUSE is accepted. */
  lemma ReserveIsEnough(t: Tariff, u: Plan, b: Books, seqNo: nat, l: Limits)
    requires Uniform(t) && UnpauseFits(t, b, seqNo, l) && Staging in b.dirs && BarrierJson in b.files
    requires IsUnpause(t, u, b, seqNo)
    ensures Accepts(t, u, l)
  {
    UnpauseParts(t, u, b, seqNo);
    PointsWithinPeak(t, u, b, seqNo);
    UnpauseExclusive(t, u, b, seqNo);
    StartIsBase(b);
    PeakAffords(t, u, b, seqNo, Start(u), l);
    UnpauseStart(t, u, b, seqNo, l);
    PeakAffords(t, u, b, seqNo, Committed(u), l);
    PeakAffords(t, u, b, seqNo, PutAll(Committed(u), Ordered(u)), l);
    PeakAffords(t, u, b, seqNo, Unlinked(PutAll(Committed(u), Ordered(u)), u), l);
    UnpauseMiddle(t, u, b, seqNo, l);
    PeakAffords(t, u, b, seqNo, Final(u), l);
  }

  lemma StartIsBase(b: Books)
    requires Staging in b.dirs
    ensures Books(b.files, b.dirs + {Staging}) == b
  {
    assert b.dirs + {Staging} == b.dirs;
  }

  lemma KeptAtEnd(t: Tariff, p: Plan, f: Books, u: Plan, l: Limits)
    requires Uniform(t) && EndsAt(t, p, f, l) && BarrierJson in f.files && Staging in f.dirs && IsUnpause(t, u, f, p.baseSeq + 1)
    ensures Accepts(t, u, l)
  {
    hide Uniform, Accepts, IsUnpause, Charged, Reserved;
    ReserveIsEnough(t, u, f, p.baseSeq + 1, l);
  }

  lemma KeptBefore(t: Tariff, p: Plan, k: nat, l: Limits)
    requires AffordsStart(t, p, l) && BarrierJson in p.base.files && k <= |EvidenceOf(p)|
    ensures UnpauseFits(t, PutAll(Start(p), EvidenceOf(p)[..k]), p.baseSeq, l)
  {
    EachAt(t, p, Start(p), EvidenceOf(p), true, l, k);
  }

  lemma StagingInFinal(p: Plan)
    requires Frozen(p)
    ensures Staging in Final(p).dirs
  {
    StagingStays(p, Ordered(p));
  }

  /** A store that an accepted plan leaves paused can be unpaused by any UNPAUSE. */
  lemma PausedCanUnpause(t: Tariff, p: Plan, u: Plan, l: Limits)
    requires Uniform(t) && Frozen(p) && Accepts(t, p, l) && BarrierJson in Final(p).files
    requires IsUnpause(t, u, Final(p), p.baseSeq + 1)
    ensures Accepts(t, u, l)
  {
    StagingInFinal(p);
    KeptAtEnd(t, p, Final(p), u, l);
  }

  lemma EvidenceKeeps(p: Plan, k: nat)
    requires Frozen(p) && k <= |EvidenceOf(p)|
    ensures Staging in PutAll(Start(p), EvidenceOf(p)[..k]).dirs
    ensures BarrierJson in p.base.files ==> BarrierJson in PutAll(Start(p), EvidenceOf(p)[..k]).files
  {
    var xs := EvidenceOf(p)[..k];
    OneEachConsistent(p.arts, xs);
    PutAllContents(Start(p), xs);
    assert !Touches(xs, BarrierJson);
    assert SameAt(PutAll(Start(p), xs), Start(p), BarrierJson);
  }

  /** So can a paused store on which an accepted plan was abandoned before its link. */
  lemma AbortedCanUnpause(t: Tariff, p: Plan, k: nat, u: Plan, l: Limits)
    requires Uniform(t) && Frozen(p) && Accepts(t, p, l) && BarrierJson in p.base.files && k <= |EvidenceOf(p)|
    requires IsUnpause(t, u, PutAll(Start(p), EvidenceOf(p)[..k]), p.baseSeq)
    ensures Accepts(t, u, l)
  {
    KeptBefore(t, p, k, l);
    EvidenceKeeps(p, k);
    ReserveIsEnough(t, u, PutAll(Start(p), EvidenceOf(p)[..k]), p.baseSeq, l);
  }
}
