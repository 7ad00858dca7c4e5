/** The capacity check as it runs: one inventory updated in place, measured after every
    durable point. */
module CapacityCheck {
  import opened Inventory
  import opened Capacity
  import opened CapacityLaws
  import opened Unpause
  import Publication

  /** Every file's directories are among those scanned. */
  predicate Housed(b: Books) { forall q :: q in b.files ==> Parents(q) <= b.dirs }

  lemma CountNone(y: Tally)
    ensures Plus(NOTHING, y) == y
  {
  }

  lemma CountOne(t: Tariff, y: Tally, rest: map<Kept, Meta>, p: Kept)
    requires p in rest
    ensures Plus(Plus(y, Charge(t, p, rest[p])), Totals(t, rest - {p})) == Plus(y, Totals(t, rest))
  {
    TotalsTake(t, rest, p);
    PlusSwaps(y, Charge(t, p, rest[p]), Totals(t, rest - {p}));
  }

  lemma CountAll(t: Tariff, y: Tally)
    ensures Plus(y, Totals(t, map[])) == y
  {
  }

  class Ledger {
    var files: map<Kept, Meta>
    var dirs: set<Dir>

    /** A private copy of an inventory. */
    constructor (b: Books)
      ensures Now() == b
    {
      files, dirs := b.files, b.dirs;
    }

    function Now(): Books
      reads this
    {
      Books(files, dirs)
    }

    /** Retain one file. An exclusive put of what is there already is no change, and of
        anything else is refused. */
    method Add(p: Kept, m: Meta, exclusive: bool) returns (ok: bool)
      requires Housed(Now())
      modifies this
      ensures ok <==> !(exclusive && p in old(files) && old(files)[p] != m)
      ensures Now() == if ok then Put(old(Now()), p, m) else old(Now())
      ensures Housed(Now())
    {
      if exclusive && p in files {
        assert files[p] == m ==> files[p := m] == files && dirs + Parents(p) == dirs;
        return files[p] == m;
      }
      files := files[p := m];
      dirs := dirs + Parents(p);
      ok := true;
    }

    method Remove(p: Kept)
      requires Housed(Now())
      modifies this`files
      ensures Now() == Books(old(files) - {p}, old(dirs)) && Housed(Now())
    {
      files := files - {p};
    }

    method Count(t: Tariff) returns (bounded: bool, y: Tally)
      ensures y == Totals(t, files) && (bounded <==> Bounded(t, Now()))
    {
      hide Plus, Charge, Totals;
      y := NOTHING;
      CountNone(Totals(t, files));
      var rest := files;
      bounded := true;
      while rest != map[]
        invariant rest.Keys <= files.Keys && forall p :: p in rest ==> rest[p] == files[p]
        invariant Plus(y, Totals(t, rest)) == Totals(t, files)
        invariant bounded <==> forall p :: p in files && p !in rest ==> files[p].bytes <= t.bound(p)
        decreases |rest|
      {
        var p :| p in rest;
        CountOne(t, y, rest, p);
        y := Plus(y, Charge(t, p, rest[p]));
        bounded := bounded && rest[p].bytes <= t.bound(p);
        rest := rest - {p};
      }
      CountAll(t, y);
    }

    /** The exact cost of what is retained, or nothing when no archive could hold it. */
    method Measure(t: Tariff, temporary: nat, promised: nat, names: nat) returns (ok: bool, c: Cost)
      ensures c == CostOf(t, Now(), temporary, promised, names)
      ensures ok <==> Bounded(t, Now()) && Encodable(c)
    {
      var bounded, y := Count(t);
      c := Price(t, y, BarrierJson in files, |dirs|, temporary, promised, names);
      ok := bounded && Encodable(c);
    }

    method Afford(t: Tariff, temporary: nat, promised: nat, names: nat, l: Limits) returns (ok: bool)
      ensures ok <==> Affordable(t, Now(), temporary, promised, names, l)
    {
      var measured, c := Measure(t, temporary, promised, names);
      ok := measured && Within(c, l);
    }

    /** One durable point of a plan: affordable, and with `out` a way to unpause. */
    method Passes(t: Tariff, p: Plan, out: bool, l: Limits) returns (ok: bool)
      requires Housed(Now())
      ensures ok <==> Charged(t, p, Now(), l) && (out ==> UnpauseFits(t, Now(), p.baseSeq, l))
    {
      ok := Afford(t, Temporary(p), Promised(p), Names(p), l);
      if ok && out { ok := CanUnpause(t, p.baseSeq, l); }
    }

    /** The point with the head written, and the one after the staging is cleaned up. */
    method CheckLast(t: Tariff, p: Plan, l: Limits) returns (ok: bool)
      requires Housed(Now())
      ensures ok <==> EndsAt(t, p, Now(), l)
    {
      hide UnpauseFits, Affordable;
      ok := Afford(t, Temporary(p), Promised(p), Names(p), l);
      if ok { ok := Reserve(t, BarrierJson in files, l); }
      if ok && BarrierJson in files { ok := CanUnpause(t, p.baseSeq + 1, l); }
    }

    method Reserve(t: Tariff, barrier: bool, l: Limits) returns (ok: bool)
      ensures ok <==> Reserved(t, Now(), barrier, l)
    {
      var measured, c := Measure(t, 0, 0, 0);
      if !measured { return false; }
      if barrier && (c.journalCount + 1 > l.journalCount || c.journalBytes + UNPAUSE_RECEIPT > l.journalBytes) { return false; }
      ok := Within(c, l);
    }

    /** Grow to the largest inventory an UNPAUSE after `seqNo` receipts can reach. */
    method GrowToPeak(t: Tariff, seqNo: nat)
      requires Housed(Now()) && Staging in dirs && ReceiptJson(seqNo + 1) !in files
      modifies this
      ensures Now() == Peak(t, old(Now()), seqNo)
    {
      ghost var b := Now();
      StartIsBase(b);
      var shard := FirstFree(dirs);
      var before := BytesAt(Now(), HeadJson);
      var _ := Add(ReceiptJson(seqNo + 1), Meta(RESERVED, UNPAUSE_RECEIPT), true);
      var slot := FirstSlot(files, shard);
      SlotExists(files, shard);
      var _ := Add(RequestJson(shard, slot), Meta(RESERVED, UNPAUSE_INDEX), true);
      var head := t.headSize(seqNo + 1);
      if head >= before {
        var _ := Add(HeadJson, Meta(RESERVED, head), false);
      }
    }

    /** Can the store leave its pause from here? */
    method CanUnpause(t: Tariff, seqNo: nat, l: Limits) returns (ok: bool)
      requires Housed(Now())
      ensures ok <==> UnpauseFits(t, Now(), seqNo, l)
    {
      var i := new Ledger(Books(files, dirs + {Staging}));
      var reserved := i.Reserve(t, true, l);
      if !reserved || seqNo + 1 > MAX_RECEIPTS || ReceiptJson(seqNo + 1) in files { return false; }
      PeakStart(t, Now(), seqNo);
      i.GrowToPeak(t, seqNo);
      ok := i.Afford(t, UNPAUSE_TEMPORARY, UNPAUSE_PROMISED, UNPAUSE_NAMES, l);
    }
  }

  lemma PeakStart(t: Tariff, b: Books, seqNo: nat)
    ensures Peak(t, Books(b.files, b.dirs + {Staging}), seqNo) == Peak(t, b, seqNo)
  {
    assert b.dirs + {Staging} + {Staging} == b.dirs + {Staging};
  }

  method FirstFree(dirs: set<Dir>) returns (s: nat)
    ensures s == FreeShard(dirs, 0)
  {
    var x := 0;
    while x < 256
      invariant x <= 256 && FreeShard(dirs, 0) == FreeShard(dirs, x)
    {
      if Shard(x) !in dirs { return x; }
      x := x + 1;
    }
    s := 0;
  }

  method FirstSlot(files: map<Kept, Meta>, shard: nat) returns (s: nat)
    ensures s == FreeSlot(files, shard, 0, |files| + 1)
  {
    SlotExists(files, shard);
    s := 0;
    while RequestJson(shard, s) in files
      invariant s <= |files| && FreeSlot(files, shard, 0, |files| + 1) == FreeSlot(files, shard, s, |files| + 1 - s)
      decreases |files| - s
    {
      assert s < |files|;
      s := s + 1;
    }
  }

  // ----- the two checks -----

  lemma PutsHoused(b: Books, xs: seq<Art>, k: nat)
    requires k < |xs|
    ensures PutAll(b, xs[..k + 1]) == Put(PutAll(b, xs[..k]), xs[k].path, xs[k].meta)
  {
    assert xs[..k + 1] == xs[..k] + [xs[k]];
    PutAllAppend(b, xs[..k], [xs[k]]);
    PutAllOne(PutAll(b, xs[..k]), xs[k]);
  }

  lemma OneEachCons(a: Art, rest: seq<Art>)
    requires OneEach(rest) && forall b :: b in rest ==> b.path != a.path
    ensures OneEach([a] + rest)
  {
    var r := [a] + rest;
    forall i, j | 0 <= i < j < |r| ensures r[i].path != r[j].path {
      assert r[j] == rest[j - 1] && rest[j - 1] in rest;
      if i > 0 { assert r[i] == rest[i - 1]; }
    }
  }

  lemma OneEachTail(arts: seq<Art>)
    requires OneEach(arts) && arts != []
    ensures OneEach(arts[1..]) && forall b :: b in arts[1..] ==> b.path != arts[0].path
  {
    forall b | b in arts[1..] ensures b.path != arts[0].path {
      var i :| 0 <= i < |arts[1..]| && arts[1..][i] == b;
      assert arts[i + 1] == b;
    }
  }

  lemma {:induction false} SelectOneEach(arts: seq<Art>, keep: Pick)
    requires OneEach(arts)
    ensures OneEach(Select(arts, keep))
  {
    hide OneEach;
    if arts != [] {
      OneEachTail(arts);
      SelectOneEach(arts[1..], keep);
      OneEachCons(arts[0], Select(arts[1..], keep));
      assert [] + Select(arts[1..], keep) == Select(arts[1..], keep);
    }
  }

  /** Nothing put earlier is at the target of the next artifact. */
  lemma NextIsFresh(b: Books, xs: seq<Art>, k: nat)
    requires OneEach(xs) && k < |xs|
    ensures SameAt(PutAll(b, xs[..k]), b, xs[k].path)
  {
    OneEachConsistent(xs, xs[..k]);
    PutAllContents(b, xs[..k]);
    forall a | a in xs[..k] ensures a.path != xs[k].path {
      var i :| 0 <= i < k && xs[..k][i] == a;
    }
    assert !Touches(xs[..k], xs[k].path);
  }

  predicate Fresh(b: Books, a: Art) {
    a.path in b.files ==> b.files[a.path] == a.meta
  }

  /** One artifact more: where it goes nothing was put before, so what is there is what
      the books started with. */
  lemma NextArtifact(b: Books, xs: seq<Art>, k: nat)
    requires OneEach(xs) && k < |xs|
    ensures SameAt(PutAll(b, xs[..k]), b, xs[k].path)
    ensures PutAll(b, xs[..k + 1]) == Put(PutAll(b, xs[..k]), xs[k].path, xs[k].meta)
    ensures xs[k..] != [] && xs[k..][0] == xs[k] && xs[k..][1..] == xs[k + 1..]
  {
    NextIsFresh(b, xs, k);
    PutsHoused(b, xs, k);
  }

  /** Measure, retain, measure again: every point from the first to the last. Those
      artifacts that `exclusive` picks must find their place empty or already theirs. */
  method CheckEach(t: Tariff, p: Plan, w: Ledger, xs: seq<Art>, exclusive: Pick, out: bool, l: Limits) returns (ok: bool)
    requires OneEach(xs) && Housed(w.Now())
    modifies w
    ensures ok <==> AffordsEach(t, p, old(w.Now()), xs, out, l) && AllFresh(old(w.Now()), xs, exclusive)
    ensures ok ==> w.Now() == PutAll(old(w.Now()), xs) && Housed(w.Now())
  {
    hide UnpauseFits, Affordable;
    ghost var b := w.Now();
    var k := 0;
    assert xs[..0] == [] && xs[0..] == xs;
    while true
      invariant k <= |xs| && w.Now() == PutAll(b, xs[..k]) && Housed(w.Now())
      invariant AffordsEach(t, p, b, xs, out, l) <==> AffordsEach(t, p, w.Now(), xs[k..], out, l)
      invariant forall j :: 0 <= j < k && exclusive(xs[j]) ==> Fresh(b, xs[j])
      decreases |xs| - k
    {
      var can := w.Passes(t, p, out, l);
      PointFails(t, p, w.Now(), xs[k..], out, l);
      if !can { return false; }
      if k == |xs| { break; }
      NextArtifact(b, xs, k);
      var added := w.Add(xs[k].path, xs[k].meta, exclusive(xs[k]));
      if !added { return false; }
      k := k + 1;
    }
    assert xs[..k] == xs && xs[k..] == [];
    ok := true;
  }

  predicate AllFresh(b: Books, xs: seq<Art>, exclusive: Pick) {
    forall j :: 0 <= j < |xs| && exclusive(xs[j]) ==> Fresh(b, xs[j])
  }

  lemma PointFails(t: Tariff, p: Plan, b: Books, xs: seq<Art>, out: bool, l: Limits)
    ensures AffordsEach(t, p, b, xs, out, l) <==>
      (&& Charged(t, p, b, l) && (out ==> UnpauseFits(t, b, p.baseSeq, l))
       && (xs != [] ==> AffordsEach(t, p, Put(b, xs[0].path, xs[0].meta), xs[1..], out, l)))
  {
  }

  function Always(): Pick { (a: Art) => true }
  function Appended(): Pick { (a: Art) => a.path.RequestJson? || a.path.PinnedJson? }
  function Never(): Pick { (a: Art) => false }

  /** The receipt link: its name must be unoccupied. */
  method LinkReceipt(p: Plan, w: Ledger) returns (ok: bool)
    requires Frozen(p) && w.Now() == PutAll(Start(p), EvidenceOf(p)) && Housed(w.Now())
    modifies w
    ensures ok <==> ReceiptUnlinked(p)
    ensures ok ==> w.Now() == Committed(p) && Housed(w.Now())
  {
    var rs := ReceiptsOf(p);
    assert rs == [rs[0]];
    PutAllOne(w.Now(), rs[0]);
    if rs[0].path in w.files {
      assert rs[0] in rs;
      return false;
    }
    ok := w.Add(rs[0].path, rs[0].meta, true);
  }

  ghost predicate ReceiptUnlinked(p: Plan) {
    forall a :: a in ReceiptsOf(p) ==> a.path !in PutAll(Start(p), EvidenceOf(p)).files
  }

  lemma OrderedOneEach(p: Plan)
    requires Frozen(p)
    ensures OneEach(Ordered(p))
  {
    var posts, b := PostsOf(p), Committed(p);
    SelectOneEach(p.arts, Posted());
    SelectOneEach(posts, Growers(b));
    SelectOneEach(posts, Shrinkers(b));
    var g, h := Select(posts, Growers(b)), Select(posts, Shrinkers(b));
    forall i, j | 0 <= i < |g| && 0 <= j < |h| ensures g[i].path != h[j].path {
      assert g[i] in g && h[j] in h;
      if g[i].path == h[j].path { OneTarget(posts, g[i], h[j]); }
    }
  }

  /** From the last post to the end: the unlink, the head, and the cleanup. */
  method CheckEnd(t: Tariff, p: Plan, w: Ledger, l: Limits) returns (ok: bool)
    requires Housed(w.Now()) && Charged(t, p, w.Now(), l)
    modifies w
    ensures ok <==> Charged(t, p, Unlinked(old(w.Now()), p), l) && EndsAt(t, p, WithHead(Unlinked(old(w.Now()), p), p), l)
    ensures ok ==> w.Now() == WithHead(Unlinked(old(w.Now()), p), p)
  {
    if p.unlink {
      w.Remove(BarrierJson);
      ok := w.Passes(t, p, false, l);
      if !ok { return; }
    }
    var _ := w.Add(HeadJson, p.nextHead, false);
    ok := w.CheckLast(t, p, l);
  }

  lemma StartHoused(p: Plan)
    requires Frozen(p)
    ensures Housed(Start(p))
  {
  }

  lemma ExclusiveParts(p: Plan)
    ensures Exclusive(p) <==> AllFresh(Start(p), EvidenceOf(p), Always()) && ReceiptUnlinked(p) && AllFresh(Committed(p), Ordered(p), Appended())
  {
    var ev, posts := EvidenceOf(p), Ordered(p);
    assert forall a :: a in posts <==> a in PostsOf(p);
    assert AllFresh(Start(p), ev, Always()) <==> forall a :: a in ev ==> Fresh(Start(p), a);
    assert AllFresh(Committed(p), posts, Appended()) <==> forall a :: a in posts && Appended()(a) ==> Fresh(Committed(p), a);
  }

  lemma LastPoint(t: Tariff, p: Plan, l: Limits)
    requires AffordsEach(t, p, Committed(p), Ordered(p), false, l)
    ensures Charged(t, p, PutAll(Committed(p), Ordered(p)), l)
  {
    var n := |Ordered(p)|;
    assert Ordered(p)[..n] == Ordered(p);
    EachAt(t, p, Committed(p), Ordered(p), false, l, n);
  }

  /** Charge every publication point of a frozen plan; the final inventory on success. */
  method CheckCapacity(t: Tariff, p: Plan, l: Limits) returns (ok: bool, final: Books)
    requires Frozen(p)
    ensures ok <==> Accepts(t, p, l)
    ensures ok ==> final == Final(p)
  {
    hide Exclusive, Committed, Ordered, Charged, Reserved, ReceiptsOf;
    hide UnpauseFits, Affordable, EndsAt, AffordsEach;
    final := p.base;
    StartHoused(p);
    ExclusiveParts(p);
    SelectOneEach(p.arts, Evident());
    OrderedOneEach(p);
    var barrier := BarrierJson in p.base.files;
    var w := new Ledger(Start(p));
    ok := w.Reserve(t, barrier, l);
    if !ok { return; }
    ok := CheckEach(t, p, w, EvidenceOf(p), Always(), barrier, l);
    if !ok { return; }
    ok := LinkReceipt(p, w);
    if !ok { return; }
    ok := CheckEach(t, p, w, Ordered(p), Appended(), false, l);
    if !ok { return; }
    LastPoint(t, p, l);
    ok := CheckEnd(t, p, w, l);
    final := w.Now();
  }

  /** The reserve asked for at the end of a first publication is part of the way out
      asked for at the end of a redo. */
  lemma EndsAgree(t: Tariff, p: Plan, f: Books)
    ensures RedoEnds(t, p, f) <==> EndsAt(t, p, f, HARD)
  {
    hide Affordable, Peak;
  }

  /** Charge what remains of an interrupted plan. */
  method RedoCapacity(t: Tariff, p: Plan, current: Books) returns (ok: bool, final: Books)
    requires Frozen(p) && Housed(current)
    ensures ok <==> RedoAccepts(t, p, current)
    ensures ok ==> final == RedoFinal(p, current)
  {
    hide UnpauseFits, Affordable, EndsAt, AffordsEach, ValidRedo, RedoEnds;
    EndsAgree(t, p, RedoFinal(p, current));
    final := current;
    ok := ValidRedo(p, current);
    if !ok { return; }
    SelectOneEach(p.arts, Posted());
    var w := new Ledger(RedoStart(current));
    ok := CheckEach(t, p, w, PostsOf(p), Never(), false, HARD);
    if !ok { return; }
    var posts := PostsOf(p);
    assert posts[..|posts|] == posts;
    EachAt(t, p, RedoStart(current), posts, false, HARD, |posts|);
    ok := CheckEnd(t, p, w, HARD);
    final := w.Now();
  }
}
