/** From the plan that freeze builds to the plan that capacity is charged for: the shapes
    assumed there are the shapes built here. */
module Charging {
  import opened Wrappers
  import opened Documents
  import opened Publication
  import opened Commit
  import Capacity
  import CapacityCheck
  import Inventory
  import Unpause

  /** How files are named and measured in an archive: the hexadecimal names of digests
      and requests, and the size of each file. */
  datatype Names = Names(pin: Digest -> string, blob: Digest -> string, request: string -> (nat, nat), meta: File -> Inventory.Meta)

  /** Different things have different names, and a request lives in one of 256 shards. */
  ghost predicate Apart(n: Names) {
    && (forall x, y :: n.pin(x) == n.pin(y) ==> x == y)
    && (forall x, y :: n.blob(x) == n.blob(y) ==> x == y)
    && (forall i, j :: n.request(i) == n.request(j) ==> i == j)
    && (forall i :: n.request(i).0 < 256)
  }

  /** The import map is not retained: capacity refuses it. */
  function KeptAs(n: Names, p: Path): Inventory.Kept
    requires !p.ImportMap?
  {
    match p
    case Head => Inventory.HeadJson
    case Version => Inventory.VersionText
    case Reservations => Inventory.ReservationsJson
    case Barrier => Inventory.BarrierJson
    case Queue => Inventory.QueueJson
    case Policy => Inventory.PolicyJson
    case Ticket(local) => Inventory.TicketJson(local)
    case Release(id) => Inventory.ReleaseJson(id)
    case Pinned(x) => Inventory.PinnedJson(n.pin(x))
    case Evidence(x) => Inventory.EvidenceBlob(n.blob(x))
    case Request(id) => Inventory.RequestJson(n.request(id).0, n.request(id).1)
    case Receipt(k) => Inventory.ReceiptJson(k)
  }

  lemma KeptApart(n: Names, p: Path, q: Path)
    requires Apart(n) && !p.ImportMap? && !q.ImportMap? && KeptAs(n, p) == KeptAs(n, q)
    ensures p == q
  {
  }

  predicate NoImports(arts: seq<Artifact>) {
    forall i :: 0 <= i < |arts| ==> !arts[i].target.ImportMap?
  }

  function ArtAs(n: Names, a: Artifact): Capacity.Art
    requires !a.target.ImportMap?
  {
    Capacity.Art(a.role, KeptAs(n, a.target), n.meta(a.data))
  }

  function ArtsAs(n: Names, arts: seq<Artifact>): (r: seq<Capacity.Art>)
    requires NoImports(arts)
    ensures |r| == |arts| && forall i :: 0 <= i < |r| ==> r[i] == ArtAs(n, arts[i])
  {
    seq(|arts|, i requires 0 <= i < |arts| => ArtAs(n, arts[i]))
  }

  /** The frozen plan as capacity sees it, over the scanned books `b`. */
  function ChargedAs(n: Names, b: Inventory.Books, plan: Plan, descriptor: nat): (r: Capacity.Plan)
    requires NoImports(plan.artifacts) && plan.receipt.seqNo > 0
  {
    Capacity.Plan(b, plan.receipt.seqNo - 1, ArtsAs(n, plan.artifacts), exists e :: e in plan.receipt.entries && Deletes(e),
                  n.meta(HeadFile(plan.head)), descriptor)
  }

  /** The books are the files of the disk, in their directories. */
  ghost predicate Scanned(n: Names, b: Inventory.Books, d: Disk) {
    && (forall p :: p in d && !p.ImportMap? ==> KeptAs(n, p) in b.files)
    && (forall q :: q in b.files ==> exists p :: p in d && !p.ImportMap? && KeptAs(n, p) == q)
    && (forall q :: q in b.files ==> Inventory.Parents(q) <= b.dirs)
  }

  // ----- one artifact to a target -----

  predicate OneTarget(arts: seq<Artifact>) {
    forall i, j :: 0 <= i < j < |arts| ==> arts[i].target != arts[j].target
  }

  lemma TargetsApart(n: Names, arts: seq<Artifact>)
    requires Apart(n) && NoImports(arts) && OneTarget(arts)
    ensures Capacity.OneEach(ArtsAs(n, arts))
  {
    var r := ArtsAs(n, arts);
    forall i, j | 0 <= i < j < |r| ensures r[i].path != r[j].path {
      if r[i].path == r[j].path { KeptApart(n, arts[i].target, arts[j].target); }
    }
  }

  lemma JoinTargets(xs: seq<Artifact>, ys: seq<Artifact>)
    requires OneTarget(xs) && OneTarget(ys)
    requires forall i, j :: 0 <= i < |xs| && 0 <= j < |ys| ==> xs[i].target != ys[j].target
    ensures OneTarget(xs + ys)
  {
  }

  /** The blobs that freeze adds are distinct, absent, and not among the posts. */
  lemma {:induction false} BlobTargets(inv: Disk, posts: seq<Post>, all: seq<Post>)
    ensures OneTarget(BlobArts(inv, posts, all))
    ensures forall a :: a in BlobArts(inv, posts, all) ==> a.role.EVIDENCE? && a.target.Evidence? && !HasPath(all, a.target)
  {
    if posts != [] {
      BlobTargets(inv, posts[1..], all);
      var rest, now := BlobArts(inv, posts[1..], all), BlobArts(inv, posts, all);
      if now != rest {
        assert forall i :: 0 <= i < |rest| ==> rest[i].target != now[0].target;
        JoinTargets([now[0]], rest);
        assert now == [now[0]] + rest;
      }
    }
  }

  predicate DistinctPosts(posts: seq<Post>) {
    forall i, j :: 0 <= i < j < |posts| ==> posts[i].path != posts[j].path
  }

  lemma {:induction false} PostTargets(posts: seq<Post>)
    requires DistinctPosts(posts)
    ensures OneTarget(PostArts(posts))
    ensures forall a :: a in PostArts(posts) ==> a.role.POST? && exists i :: 0 <= i < |posts| && posts[i].path == a.target && posts[i].file == Some(a.data)
  {
    if posts != [] {
      PostTargets(posts[1..]);
      var rest, now := PostArts(posts[1..]), PostArts(posts);
      forall a | a in rest ensures exists i :: 0 < i < |posts| && posts[i].path == a.target && posts[i].file == Some(a.data) {
        var i :| 0 <= i < |posts[1..]| && posts[1..][i].path == a.target && posts[1..][i].file == Some(a.data);
        assert posts[i + 1].path == a.target;
      }
      if posts[0].file.Some? {
        assert now == [Artifact(POST, posts[0].path, posts[0].file.value)] + rest;
        assert forall i :: 0 <= i < |rest| ==> rest[i] in rest;
        JoinTargets([now[0]], rest);
      } else {
        assert now == rest;
      }
    }
  }

  // ----- what freeze builds -----

  lemma FrozenPosts(q: Asked, d: Disk, base: HeadDoc, posts: seq<Post>, eff: TicketEffect, plan: Plan)
    requires Freeze(q, d, base, posts, eff) == Result.Ok(plan)
    ensures var all := AllPosts(q, base, posts, eff);
      && DistinctPosts(all) && plan.receipt.seqNo == base.lastSeq + 1 && plan.receipt.entries == EntriesOf(d, all)
      && (forall i :: 0 <= i < |all| ==> PostPath(all[i].path))
      && (forall i :: 0 <= i < |all| && all[i].file.None? ==> all[i].path.Barrier? && Barrier in d)
      && plan.artifacts == BlobArts(d, all, all) + [HeadArt(plan)] + PostArts(all) + [ReceiptArt(plan)]
  {
    hide BlobArts, PostArts, ContentNamed, BlobsIntact;
    var all := AllPosts(q, base, posts, eff);
    FreezeParts(q, d, base, posts, eff, plan);
    var es := plan.receipt.entries;
    forall i | 0 <= i < |all|
      ensures PostPath(all[i].path) && (all[i].file.None? ==> all[i].path.Barrier? && Barrier in d) && es[i].path == all[i].path
    {
      assert es[i] == EntryOf(d, all[i]) && ValidEntry(es[i], plan.receipt.kind);
    }
  }

  /** Where each artifact of a frozen plan comes from. */
  predicate Comes(all: seq<Post>, plan: Plan, a: Artifact) {
    || (a.role.EVIDENCE? && a.target.Evidence?)
    || a == HeadArt(plan) || a == ReceiptArt(plan)
    || (a.role.POST? && PostPath(a.target) && exists i :: 0 <= i < |all| && all[i].path == a.target && all[i].file == Some(a.data))
  }

  lemma ArtsFrozen(d: Disk, all: seq<Post>, plan: Plan)
    requires DistinctPosts(all) && (forall i :: 0 <= i < |all| ==> PostPath(all[i].path) && !all[i].path.ImportMap?)
    requires plan.artifacts == BlobArts(d, all, all) + [HeadArt(plan)] + PostArts(all) + [ReceiptArt(plan)]
    ensures OneTarget(plan.artifacts) && NoImports(plan.artifacts)
    ensures forall a :: a in plan.artifacts ==> Comes(all, plan, a)
    ensures ReceiptArt(plan) in plan.artifacts
  {
    var b, p := BlobArts(d, all, all), PostArts(all);
    BlobTargets(d, all, all);
    PostTargets(all);
    hide BlobArts, PostArts;
    forall i | 0 <= i < |b| ensures b[i].target.Evidence? && !HasPath(all, b[i].target) { assert b[i] in b; }
    forall i | 0 <= i < |p| ensures PostPath(p[i].target) && HasPath(all, p[i].target) && !p[i].target.ImportMap? { assert p[i] in p; }
    JoinTargets(b, [HeadArt(plan)]);
    JoinTargets(b + [HeadArt(plan)], p);
    JoinTargets(b + [HeadArt(plan)] + p, [ReceiptArt(plan)]);
    forall a | a in plan.artifacts ensures Comes(all, plan, a) {
      assert a in b || a in p || a == HeadArt(plan) || a == ReceiptArt(plan);
    }
  }

  lemma ArtOrigin(n: Names, arts: seq<Artifact>, x: Capacity.Art) returns (a: Artifact)
    requires NoImports(arts) && x in ArtsAs(n, arts)
    ensures a in arts && !a.target.ImportMap? && x == ArtAs(n, a)
  {
    var i :| 0 <= i < |arts| && ArtsAs(n, arts)[i] == x;
    a := arts[i];
  }

  lemma TwoPaths(r: seq<Capacity.Art>, p: Inventory.Kept)
    requires |r| > 1 && Capacity.OneEach(r)
    ensures exists y :: y in r && y.path != p
  {
    assert r[0] in r && r[1] in r && r[0].path != r[1].path;
  }

  /** Exactly one art of the charged plan is a receipt. */
  lemma OneReceipt(p: Capacity.Plan, x: Capacity.Art)
    requires Capacity.OneEach(p.arts) && x in p.arts && x.role.RECEIPT?
    requires forall y :: y in p.arts && y.role.RECEIPT? ==> y.path == x.path
    ensures |Capacity.ReceiptsOf(p)| == 1
  {
    var r := Capacity.ReceiptsOf(p);
    CapacityCheck.SelectOneEach(p.arts, Capacity.Linked());
    hide Capacity.OneEach;
    assert x in r;
    if |r| > 1 { TwoPaths(r, x.path); }
  }

  /** The role of an artifact fits its target. */
  lemma RolesFit(n: Names, all: seq<Post>, plan: Plan, a: Artifact)
    requires Comes(all, plan, a) && !a.target.ImportMap?
    ensures var x := ArtAs(n, a);
      && (x.role.RECEIPT? <==> x.path.ReceiptJson?)
      && (x.role.RECEIPT? ==> x.path == Inventory.ReceiptJson(plan.receipt.seqNo))
      && (x.role.HEAD? <==> x.path.HeadJson?)
      && (x.role.HEAD? ==> x.meta == n.meta(HeadFile(plan.head)))
      && (x.role.EVIDENCE? ==> x.path.EvidenceBlob?)
      && (x.path.BarrierJson? ==> a.target.Barrier?)
  {
  }

  lemma DeletesBarrier(d: Disk, all: seq<Post>, plan: Plan, e: Entry)
    requires plan.receipt.entries == EntriesOf(d, all) && e in plan.receipt.entries && Deletes(e)
    requires forall i :: 0 <= i < |all| && all[i].file.None? ==> all[i].path.Barrier? && Barrier in d
    ensures Barrier in d
  {
    var k :| 0 <= k < |all| && plan.receipt.entries[k] == e;
    assert plan.receipt.entries[k] == EntryOf(d, all[k]);
  }

  /** Every plan that freeze builds over a scanned store has the shape that the capacity
      results ask for. */
  lemma FreezeCharged(n: Names, q: Asked, d: Disk, base: HeadDoc, posts: seq<Post>, eff: TicketEffect, plan: Plan, b: Inventory.Books, descriptor: nat)
    requires Apart(n) && Scanned(n, b, d) && HeadOf(d) == Some(base)
    requires Freeze(q, d, base, posts, eff) == Result.Ok(plan) && forall i :: 0 <= i < |posts| ==> !posts[i].path.ImportMap?
    ensures NoImports(plan.artifacts) && plan.receipt.seqNo > 0
    ensures Capacity.Frozen(ChargedAs(n, b, plan, descriptor)) && ChargedAs(n, b, plan, descriptor).baseSeq == base.lastSeq
  {
    hide Freeze, BlobArts, PostArts, Comes, DistinctPosts, OneTarget, Capacity.OneEach, Apart, EntryOf, KeptAs;
    var all := AllPosts(q, base, posts, eff);
    FrozenPosts(q, d, base, posts, eff, plan);
    ArtsFrozen(d, all, plan);
    var p := ChargedAs(n, b, plan, descriptor);
    TargetsApart(n, plan.artifacts);
    forall x | x in p.arts
      ensures x.role.RECEIPT? <==> x.path.ReceiptJson?
      ensures x.role.RECEIPT? ==> x.path == Inventory.ReceiptJson(p.baseSeq + 1)
      ensures x.role.HEAD? <==> x.path.HeadJson?
      ensures x.role.HEAD? ==> x.meta == p.nextHead
      ensures x.role.EVIDENCE? ==> x.path.EvidenceBlob?
      ensures p.unlink ==> !x.path.BarrierJson?
    {
      var a := ArtOrigin(n, plan.artifacts, x);
      RolesFit(n, all, plan, a);
      if x.path.BarrierJson? { NoBarrierPost(d, all, plan, a); }
    }
    var i :| 0 <= i < |plan.artifacts| && plan.artifacts[i] == ReceiptArt(plan);
    assert p.arts[i] in p.arts;
    OneReceipt(p, p.arts[i]);
    if p.unlink {
      var e :| e in plan.receipt.entries && Deletes(e);
      DeletesBarrier(d, all, plan, e);
    }
    KeptHere(n, b, d);
  }

  lemma KeptHere(n: Names, b: Inventory.Books, d: Disk)
    requires Scanned(n, b, d) && Path.Head in d
    ensures Inventory.HeadJson in b.files && (Barrier in d ==> Inventory.BarrierJson in b.files)
  {
    assert KeptAs(n, Path.Head) == Inventory.HeadJson && KeptAs(n, Barrier) == Inventory.BarrierJson;
  }

  /** A barrier that is deleted is not also written. */
  lemma NoBarrierPost(d: Disk, all: seq<Post>, plan: Plan, a: Artifact)
    requires DistinctPosts(all) && plan.receipt.entries == EntriesOf(d, all) && Comes(all, plan, a) && a.target.Barrier?
    requires forall i :: 0 <= i < |all| && all[i].file.None? ==> all[i].path.Barrier?
    ensures forall e :: e in plan.receipt.entries ==> !Deletes(e)
  {
    var i :| 0 <= i < |all| && all[i].path == a.target && all[i].file == Some(a.data);
    forall e | e in plan.receipt.entries ensures !Deletes(e) {
      var k :| 0 <= k < |all| && plan.receipt.entries[k] == e;
      assert all[k].file.None? ==> all[k].path == all[i].path;
    }
  }

  // ----- leaving a pause -----

  /** The sizes that the stage descriptor of an UNPAUSE allows. */
  ghost predicate WithinCaps(t: Inventory.Tariff, n: Names, q: Asked, base: HeadDoc, plan: Plan, descriptor: nat) {
    && n.meta(HeadFile(plan.head)).bytes == t.headSize(base.lastSeq + 1) <= Unpause.HEAD_CAP
    && n.meta(RequestPost(q, base.lastSeq + 1, NoTicket).file.value).bytes <= Capacity.UNPAUSE_INDEX
    && n.meta(ReceiptFile(plan.receipt)).bytes <= Capacity.UNPAUSE_RECEIPT
    && descriptor <= Unpause.UNPAUSE_DESCRIPTOR
  }

  /** What freeze builds for an UNPAUSE is what the reserve is kept for. */
  lemma FreezeUnpauses(t: Inventory.Tariff, n: Names, q: Asked, d: Disk, base: HeadDoc, inline: bool, plan: Plan, b: Inventory.Books, descriptor: nat)
    requires Apart(n) && Scanned(n, b, d)
    requires Freeze(q, d, base, [Post(Barrier, None, inline)], NoTicket) == Result.Ok(plan)
    requires WithinCaps(t, n, q, base, plan, descriptor)
    ensures NoImports(plan.artifacts) && plan.receipt.seqNo > 0
    ensures Unpause.IsUnpause(t, ChargedAs(n, b, plan, descriptor), b, base.lastSeq)
  {
    hide Freeze, Scanned, Apart, BlobArts, PostArts, DistinctPosts;
    var posts := [Post(Barrier, None, inline)];
    var all := AllPosts(q, base, posts, NoTicket);
    var request := RequestPost(q, base.lastSeq + 1, NoTicket);
    FrozenPosts(q, d, base, posts, NoTicket, plan);
    UnpauseArts(d, all, request, inline);
    assert plan.artifacts == [HeadArt(plan), Artifact(POST, request.path, request.file.value), ReceiptArt(plan)];
    assert plan.receipt.entries[0] in plan.receipt.entries && Deletes(plan.receipt.entries[0]);
    FreeRequest(q, d, base, posts, NoTicket, plan);
    NotKept(n, b, d, q.requestId);
  }

  lemma FreeRequest(q: Asked, d: Disk, base: HeadDoc, posts: seq<Post>, eff: TicketEffect, plan: Plan)
    requires Freeze(q, d, base, posts, eff) == Result.Ok(plan)
    ensures Request(q.requestId) !in d
  {
  }

  lemma NotKept(n: Names, b: Inventory.Books, d: Disk, id: string)
    requires Apart(n) && Scanned(n, b, d) && Request(id) !in d
    ensures KeptAs(n, Request(id)) !in b.files && n.request(id).0 < 256
  {
    if KeptAs(n, Request(id)) in b.files {
      var p :| p in d && !p.ImportMap? && KeptAs(n, p) == KeptAs(n, Request(id));
      KeptApart(n, p, Request(id));
    }
  }

  lemma UnpauseArts(d: Disk, all: seq<Post>, request: Post, inline: bool)
    requires all == [Post(Barrier, None, inline), request] && request.file.Some? && Inlined(request)
    ensures BlobArts(d, all, all) == [] && PostArts(all) == [Artifact(POST, request.path, request.file.value)]
  {
    assert all[1..] == [request] && [request][1..] == [];
    assert BlobArts(d, [request][1..], all) == [] && BlobArts(d, all[1..], all) == [];
    assert PostArts([request][1..]) == [] && PostArts(all[1..]) == [Artifact(POST, request.path, request.file.value)];
  }

  /** A store that an accepted plan left paused can be unpaused: whatever freeze builds
      over its files within the caps is accepted. */
  lemma PausedFreezeAccepted(t: Inventory.Tariff, l: Inventory.Limits, p: Capacity.Plan, n: Names, q: Asked, d: Disk, base: HeadDoc, inline: bool,
                             plan: Plan, descriptor: nat)
    requires Inventory.Uniform(t) && Capacity.Frozen(p) && Capacity.Accepts(t, p, l) && Inventory.BarrierJson in Capacity.Final(p).files
    requires Apart(n) && Scanned(n, Capacity.Final(p), d) && base.lastSeq == p.baseSeq + 1
    requires Freeze(q, d, base, [Post(Barrier, None, inline)], NoTicket) == Result.Ok(plan)
    requires WithinCaps(t, n, q, base, plan, descriptor)
    ensures NoImports(plan.artifacts) && plan.receipt.seqNo > 0
    ensures Capacity.Accepts(t, ChargedAs(n, Capacity.Final(p), plan, descriptor), l)
  {
    hide Freeze, Capacity.Accepts, Capacity.Frozen, Capacity.Final;
    FreezeUnpauses(t, n, q, d, base, inline, plan, Capacity.Final(p), descriptor);
    Unpause.PausedCanUnpause(t, p, ChargedAs(n, Capacity.Final(p), plan, descriptor), l);
  }
}
