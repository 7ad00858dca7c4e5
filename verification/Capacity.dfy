/** What a frozen plan is charged before anything is published, and what a redo of it is
    charged later. Every durable point has its inventory; each must be affordable. */
module Capacity {
  import opened Inventory
  import Publication

  datatype Art = Art(role: Publication.Role, path: Kept, meta: Meta)

  /** A frozen plan as capacity sees it. `unlink` deletes the barrier. */
  datatype Plan = Plan(base: Books, baseSeq: nat, arts: seq<Art>, unlink: bool, nextHead: Meta, descriptor: nat)

  const UNPAUSE_RECEIPT: nat := 1683
  const UNPAUSE_INDEX: nat := 563
  const UNPAUSE_TEMPORARY: nat := 8538
  const UNPAUSE_PROMISED: nat := 6342
  const UNPAUSE_NAMES: nat := 5
  const RESERVED: string := "hypothetical reserved bytes; not authentication"

  function Select(arts: seq<Art>, keep: Pick): (r: seq<Art>)
    ensures forall a :: a in r <==> a in arts && keep(a)
  {
    if arts == [] then []
    else (if keep(arts[0]) then [arts[0]] else []) + Select(arts[1..], keep)
  }

  type Pick = Art -> bool

  function Evident(): Pick { (a: Art) => a.path.EvidenceBlob? }
  function Linked(): Pick { (a: Art) => a.role.RECEIPT? }
  function Posted(): Pick { (a: Art) => a.role.POST? && !a.path.EvidenceBlob? }

  function EvidenceOf(p: Plan): seq<Art> { Select(p.arts, Evident()) }
  function ReceiptsOf(p: Plan): seq<Art> { Select(p.arts, Linked()) }
  function PostsOf(p: Plan): seq<Art> { Select(p.arts, Posted()) }

  function PutAll(b: Books, arts: seq<Art>): Books
    decreases |arts|
  {
    if arts == [] then b else PutAll(Put(b, arts[0].path, arts[0].meta), arts[1..])
  }

  function BytesAt(b: Books, p: Kept): nat { if p in b.files then b.files[p].bytes else 0 }

  predicate GrowsOver(b: Books, a: Art) { a.meta.bytes >= BytesAt(b, a.path) }

  /** Additions and growth before shrinking replacements. */
  function GrowthFirst(b: Books, posts: seq<Art>): seq<Art> {
    Select(posts, Growers(b)) + Select(posts, Shrinkers(b))
  }

  function Growers(b: Books): Pick { (a: Art) => GrowsOver(b, a) }
  function Shrinkers(b: Books): Pick { (a: Art) => !GrowsOver(b, a) }

  function TotalBytes(arts: seq<Art>): nat {
    if arts == [] then 0 else arts[0].meta.bytes + TotalBytes(arts[1..])
  }

  function Promised(p: Plan): nat { TotalBytes(p.arts) }
  function Temporary(p: Plan): nat { Promised(p) + 2 * p.descriptor }
  function Names(p: Plan): nat { |p.arts| + 2 }

  // ----- the durable points of a first publication -----

  function Start(p: Plan): Books { Books(p.base.files, p.base.dirs + {Staging}) }
  function Committed(p: Plan): Books { PutAll(PutAll(Start(p), EvidenceOf(p)), ReceiptsOf(p)) }
  function Ordered(p: Plan): seq<Art> { GrowthFirst(Committed(p), PostsOf(p)) }
  function Unlinked(b: Books, p: Plan): Books { if p.unlink then Books(b.files - {BarrierJson}, b.dirs) else b }
  function WithHead(b: Books, p: Plan): Books { Put(b, HeadJson, p.nextHead) }
  function Final(p: Plan): Books { WithHead(Unlinked(PutAll(Committed(p), Ordered(p)), p), p) }

  ghost predicate Charged(t: Tariff, p: Plan, b: Books, l: Limits) {
    Affordable(t, b, Temporary(p), Promised(p), Names(p), l)
  }

  /** With a barrier in force, one more receipt must still fit the journal. */
  ghost predicate Reserved(t: Tariff, b: Books, barrier: bool, l: Limits) {
    && Affordable(t, b, 0, 0, 0, l)
    && (barrier ==> Totals(t, b.files).journalCount + 1 <= l.journalCount && Totals(t, b.files).journalBytes + UNPAUSE_RECEIPT <= l.journalBytes)
  }

  // ----- the reserve for leaving a pause -----

  /** The first absent request shard, or the first shard when none is absent. */
  function FreeShard(dirs: set<Dir>, from: nat): (s: nat)
    requires from <= 256
    ensures s < 256
    ensures Shard(s) in dirs ==> forall x :: from <= x < 256 ==> Shard(x) in dirs
    decreases 256 - from
  {
    if from == 256 then 0
    else if Shard(from) !in dirs then from
    else
      var s := FreeShard(dirs, from + 1);
      s
  }

  /** The first unoccupied request name of a shard among the next `tries`, if any. */
  function FreeSlot(files: map<Kept, Meta>, shard: nat, from: nat, tries: nat): (s: int)
    ensures s < 0 <==> forall x :: from <= x < from + tries ==> RequestJson(shard, x) in files
    ensures s >= 0 ==> from <= s < from + tries && RequestJson(shard, s) !in files
    decreases tries
  {
    if tries == 0 then -1
    else if RequestJson(shard, from) !in files then from
    else FreeSlot(files, shard, from + 1, tries - 1)
  }

  /** The largest inventory an UNPAUSE after `seqNo` receipts can pass through. */
  function Peak(t: Tariff, b: Books, seqNo: nat): (r: Books)
  {
    var i := Books(b.files, b.dirs + {Staging});
    var shard := FreeShard(i.dirs, 0);
    var withReceipt := Put(i, ReceiptJson(seqNo + 1), Meta(RESERVED, UNPAUSE_RECEIPT));
    var slot := FreeSlot(withReceipt.files, shard, 0, |withReceipt.files| + 1);
    var withRequest := if slot < 0 then withReceipt else Put(withReceipt, RequestJson(shard, slot), Meta(RESERVED, UNPAUSE_INDEX));
    var head := t.headSize(seqNo + 1);
    if head >= BytesAt(i, HeadJson) then Put(withRequest, HeadJson, Meta(RESERVED, head)) else withRequest
  }

  ghost predicate UnpauseFits(t: Tariff, b: Books, seqNo: nat, l: Limits) {
    var i := Books(b.files, b.dirs + {Staging});
    && Reserved(t, i, true, l)
    && seqNo + 1 <= MAX_RECEIPTS
    && ReceiptJson(seqNo + 1) !in b.files
    && Affordable(t, Peak(t, b, seqNo), UNPAUSE_TEMPORARY, UNPAUSE_PROMISED, UNPAUSE_NAMES, l)
  }

  // ----- the whole check -----

  predicate Exclusive(p: Plan) {
    && (forall a :: a in EvidenceOf(p) && a.path in p.base.files ==> p.base.files[a.path] == a.meta)
    && (forall a :: a in ReceiptsOf(p) ==> a.path !in PutAll(Start(p), EvidenceOf(p)).files)
    && (forall a :: a in PostsOf(p) && (a.path.RequestJson? || a.path.PinnedJson?) && a.path in Committed(p).files ==> Committed(p).files[a.path] == a.meta)
  }

  /** Affordable now and after each further artifact; with `out`, a way out of the pause
      at each of these points. */
  ghost predicate AffordsEach(t: Tariff, p: Plan, b: Books, xs: seq<Art>, out: bool, l: Limits)
    decreases |xs|
  {
    && Charged(t, p, b, l)
    && (out ==> UnpauseFits(t, b, p.baseSeq, l))
    && (xs != [] ==> AffordsEach(t, p, Put(b, xs[0].path, xs[0].meta), xs[1..], out, l))
  }

  /** Before the receipt link: the base with its reserve, then each blob, and under a
      barrier an escape from every abort. */
  ghost predicate AffordsStart(t: Tariff, p: Plan, l: Limits) {
    && Reserved(t, Start(p), BarrierJson in p.base.files, l)
    && AffordsEach(t, p, Start(p), EvidenceOf(p), BarrierJson in p.base.files, l)
  }

  /** From the receipt link on, growth first. */
  ghost predicate AffordsPosts(t: Tariff, p: Plan, l: Limits) {
    && AffordsEach(t, p, Committed(p), Ordered(p), false, l)
    && Charged(t, p, Unlinked(PutAll(Committed(p), Ordered(p)), p), l)
  }

  /** With the head written, and after the staging is cleaned up. */
  ghost predicate EndsAt(t: Tariff, p: Plan, f: Books, l: Limits) {
    && Charged(t, p, f, l)
    && Reserved(t, f, BarrierJson in f.files, l)
    && (BarrierJson in f.files ==> UnpauseFits(t, f, p.baseSeq + 1, l))
  }

  ghost predicate AffordsEnd(t: Tariff, p: Plan, l: Limits) { EndsAt(t, p, Final(p), l) }

  /** What the check accepts. */
  ghost predicate Accepts(t: Tariff, p: Plan, l: Limits) {
    AffordsStart(t, p, l) && Exclusive(p) && AffordsPosts(t, p, l) && AffordsEnd(t, p, l)
  }

  // ----- what freeze hands over -----

  predicate OneEach(arts: seq<Art>) {
    forall i, j :: 0 <= i < j < |arts| ==> arts[i].path != arts[j].path
  }

  /** Facts of every frozen plan over an initialised store: one artifact a target, one
      receipt, roles that fit their targets, a barrier that is deleted and not also
      written, and a scanned base that holds its files' directories and its head. */
  predicate Frozen(p: Plan) {
    && OneEach(p.arts)
    && (forall a :: a in p.arts ==>
          && (a.role.RECEIPT? <==> a.path.ReceiptJson?)
          && (a.role.RECEIPT? ==> a.path == ReceiptJson(p.baseSeq + 1))
          && (a.role.HEAD? <==> a.path.HeadJson?)
          && (a.role.HEAD? ==> a.meta == p.nextHead)
          && (a.role.EVIDENCE? ==> a.path.EvidenceBlob?)
          && (p.unlink ==> !a.path.BarrierJson?))
    && |ReceiptsOf(p)| == 1
    && (p.unlink ==> BarrierJson in p.base.files)
    && HeadJson in p.base.files
    && (forall q :: q in p.base.files ==> Parents(q) <= p.base.dirs)
  }

  // ----- redo -----

  predicate Allowed(p: Plan, q: Kept) {
    q == HeadJson || (p.unlink && q == BarrierJson) || exists a :: a in p.arts && a.path == q
  }

  predicate Holds(b: Books, a: Art) { a.path in b.files && b.files[a.path] == a.meta }

  /** At its post, or still at its pre. */
  predicate PreOrPost(p: Plan, b: Books, a: Art) {
    || Holds(b, a)
    || (a.path !in p.base.files && a.path !in b.files)
    || (a.path in p.base.files && a.path in b.files && b.files[a.path] == p.base.files[a.path])
  }

  /** The inventory is one the pending plan can be redone over. */
  predicate ValidRedo(p: Plan, b: Books) {
    && (forall a :: a in p.arts && (a.role.RECEIPT? || a.path.EvidenceBlob?) ==> Holds(b, a))
    && (forall q :: q in p.base.files && !Allowed(p, q) ==> q in b.files && b.files[q] == p.base.files[q])
    && (forall q :: q in b.files ==> q in p.base.files || Allowed(p, q))
    && p.base.dirs <= b.dirs
    && (forall a :: a in p.arts && a.role.POST? ==> PreOrPost(p, b, a))
    && (p.unlink && BarrierJson in b.files ==> BarrierJson in p.base.files && b.files[BarrierJson].sha == p.base.files[BarrierJson].sha)
    && HeadJson in b.files
    && (if b.files[HeadJson] == p.nextHead
        then (forall a :: a in p.arts && a.role.POST? ==> Holds(b, a)) && (p.unlink ==> BarrierJson !in b.files)
        else HeadJson in p.base.files && b.files[HeadJson] == p.base.files[HeadJson])
  }

  function RedoStart(b: Books): Books { Books(b.files, b.dirs + {Staging}) }
  function RedoFinal(p: Plan, b: Books): Books { WithHead(Unlinked(PutAll(RedoStart(b), PostsOf(p)), p), p) }

  ghost predicate RedoEnds(t: Tariff, p: Plan, f: Books) {
    && Charged(t, p, f, HARD) && Affordable(t, f, 0, 0, 0, HARD)
    && (BarrierJson in f.files ==> UnpauseFits(t, f, p.baseSeq + 1, HARD))
  }

  ghost predicate RedoAccepts(t: Tariff, p: Plan, b: Books) {
    && ValidRedo(p, b)
    && AffordsEach(t, p, RedoStart(b), PostsOf(p), false, HARD)
    && Charged(t, p, Unlinked(PutAll(RedoStart(b), PostsOf(p)), p), HARD)
    && RedoEnds(t, p, RedoFinal(p, b))
  }

  /** After the receipt link: some posts published, in some order, then perhaps the
      barrier unlinked, then perhaps the head written. */
  function Interrupted(p: Plan, published: seq<Art>, dropped: bool, advanced: bool): Books {
    var b := PutAll(Committed(p), published);
    var c := if dropped then Books(b.files - {BarrierJson}, b.dirs) else b;
    if advanced then WithHead(c, p) else c
  }

  predicate CanStop(p: Plan, published: seq<Art>, dropped: bool, advanced: bool) {
    && (forall a :: a in published ==> a in PostsOf(p))
    && (dropped ==> p.unlink)
    && (advanced ==> (forall a :: a in PostsOf(p) ==> a in published) && (p.unlink ==> dropped))
  }
}
