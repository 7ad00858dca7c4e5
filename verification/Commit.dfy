/** Crash and redo convergence: whatever prefix of an apply, and whatever prefixes
    of later redos, reached the disk after the receipt link, one complete redo
    ends with the bytes of the uninterrupted apply. */
module Commit {
  import opened Wrappers
  import opened Documents
  import opened Publication

  predicate PostOf(rc: ReceiptDoc, p: Path) {
    exists i :: 0 <= i < |rc.entries| && rc.entries[i].path == p
  }

  predicate AtPost(rc: ReceiptDoc, d: Disk, i: nat)
    requires i < |rc.entries|
  {
    DigestAt(d, rc.entries[i].path) == rc.entries[i].post
  }

  predicate NoDeletions(rc: ReceiptDoc) {
    forall i :: 0 <= i < |rc.entries| ==> !Deletes(rc.entries[i])
  }

  /** Content-addressed files hold the bytes their names promise. */
  ghost predicate Addressed(d: Disk) {
    && (forall x :: Evidence(x) in d ==> Sum(d[Evidence(x)]) == x)
    && (forall x :: Pinned(x) in d ==> Sum(d[Pinned(x)]) == x)
  }

  /** Only orphaned evidence separates `d` from `d0`: any point before the commit. */
  ghost predicate Prepared(d0: Disk, d: Disk) {
    && (forall p: Path :: !p.Evidence? || p in d0 ==> DigestAt(d, p) == DigestAt(d0, p))
    && Addressed(d)
  }

  /** `c` is a disk on which `rc` has just been linked: every blob it names is
      there, and its evidence posts are already published. */
  ghost predicate OnDisk(c: Disk, rc: ReceiptDoc) {
    && ValidReceipt(rc)
    && DigestAt(c, Receipt(rc.seqNo)) == Some(Sum(ReceiptFile(rc)))
    && (forall i :: 0 <= i < |rc.entries| ==>
          var e := rc.entries[i];
          && (!Deletes(e) ==> PostBytes(c, e).Ok?)
          && (e.path.Evidence? ==> AtPost(rc, c, i))
          && (!Deletes(e) && e.pre.Some? && e.pre != e.post ==> Mutable(e.path))
          && (DigestAt(c, e.path) == e.pre || AtPost(rc, c, i)))
  }

  /** Each post destination holds pre or post, and nothing else has moved. */
  ghost predicate Midway(c: Disk, rc: ReceiptDoc, d: Disk) {
    && (forall p: Path :: p.Evidence? || !PostOf(rc, p) ==> DigestAt(d, p) == DigestAt(c, p))
    && (forall i :: 0 <= i < |rc.entries| ==> DigestAt(d, rc.entries[i].path) == rc.entries[i].pre || AtPost(rc, d, i))
  }

  ghost predicate Finished(c: Disk, rc: ReceiptDoc, head: HeadDoc, d: Disk) {
    && DigestAt(d, Path.Head) == Some(Sum(HeadFile(head)))
    && (forall p: Path :: !p.Head? && !PostOf(rc, p) ==> DigestAt(d, p) == DigestAt(c, p))
    && (forall i :: 0 <= i < |rc.entries| ==> AtPost(rc, d, i))
  }

  /** The finished disk is one disk. */
  lemma FinishedUnique(c: Disk, rc: ReceiptDoc, head: HeadDoc, d: Disk, e: Disk)
    requires Finished(c, rc, head, d) && Finished(c, rc, head, e)
    ensures d == e
  {
    forall p: Path ensures DigestAt(d, p) == DigestAt(e, p) {
      if PostOf(rc, p) {
        var i :| 0 <= i < |rc.entries| && rc.entries[i].path == p;
        assert AtPost(rc, d, i) && AtPost(rc, e, i);
      }
    }
    forall p: Path ensures (p in d <==> p in e) && (p in d ==> d[p] == e[p]) {
      assert DigestAt(d, p) == DigestAt(e, p);
    }
  }

  // ----- one post -----

  lemma PostStep(c: Disk, rc: ReceiptDoc, d: Disk, i: nat, f: File)
    requires OnDisk(c, rc) && Midway(c, rc, d)
    requires i < |rc.entries| && rc.entries[i].post == Some(Sum(f))
    ensures Perform(d, Put(Artifact(POST, rc.entries[i].path, f)), rc).Ok?
    ensures var d' := Perform(d, Put(Artifact(POST, rc.entries[i].path, f)), rc).value;
      Midway(c, rc, d') && AtPost(rc, d', i) && forall j :: 0 <= j < |rc.entries| && AtPost(rc, d, j) ==> AtPost(rc, d', j)
  {
    var e := rc.entries[i];
    PreOfAt(rc.entries, i);
    assert DigestAt(d, e.path) == e.pre || AtPost(rc, d, i);
    assert e.path.Evidence? ==> AtPost(rc, c, i) && AtPost(rc, d, i);
    assert PostOf(rc, e.path);
    var d' := Perform(d, Put(Artifact(POST, e.path, f)), rc).value;
    assert d' == d || d' == d[e.path := f];
    forall j | 0 <= j < |rc.entries| && j != i ensures DigestAt(d', rc.entries[j].path) == DigestAt(d, rc.entries[j].path) {
      assert rc.entries[j].path != e.path;
    }
  }

  /** An artifact that carries the post bytes of one entry. */
  predicate Carries(rc: ReceiptDoc, a: Artifact) {
    a.role.POST? && exists i :: 0 <= i < |rc.entries| && rc.entries[i].path == a.target && rc.entries[i].post == Some(Sum(a.data))
  }

  lemma {:induction false} PostsRun(c: Disk, rc: ReceiptDoc, d: Disk, ps: seq<Artifact>)
    requires OnDisk(c, rc) && Midway(c, rc, d)
    requires forall i :: 0 <= i < |ps| ==> Carries(rc, ps[i])
    ensures Run(d, Puts(ps), rc).Ok?
    ensures var d' := Run(d, Puts(ps), rc).value;
      && Midway(c, rc, d')
      && (forall j :: 0 <= j < |rc.entries| && (AtPost(rc, d, j) || Targets(ps, rc.entries[j].path)) ==> AtPost(rc, d', j))
    decreases |ps|
  {
    if ps != [] {
      assert Carries(rc, ps[0]);
      var i :| 0 <= i < |rc.entries| && rc.entries[i].path == ps[0].target && rc.entries[i].post == Some(Sum(ps[0].data));
      PostStep(c, rc, d, i, ps[0].data);
      var d1 := Perform(d, Put(ps[0]), rc).value;
      assert ps[0] == Artifact(POST, rc.entries[i].path, ps[0].data);
      PostsRun(c, rc, d1, ps[1..]);
      assert Puts(ps)[1..] == Puts(ps[1..]);
      var d' := Run(d, Puts(ps), rc).value;
      forall j | 0 <= j < |rc.entries| && (AtPost(rc, d, j) || Targets(ps, rc.entries[j].path)) ensures AtPost(rc, d', j) {
        if !AtPost(rc, d, j) {
          var k :| 0 <= k < |ps| && ps[k].target == rc.entries[j].path;
          if k == 0 {
            assert rc.entries[j].path == rc.entries[i].path;
            assert j == i;
          } else {
            assert ps[1..][k - 1] == ps[k];
          }
        }
      }
    }
  }

  // ----- redo -----

  lemma {:induction false} RedoRun(c: Disk, rc: ReceiptDoc, d: Disk, k: nat)
    requires OnDisk(c, rc) && NoDeletions(rc) && Midway(c, rc, d) && k <= |rc.entries|
    ensures RedoEntries(d, rc.entries[..k], rc).Ok?
    ensures var d' := RedoEntries(d, rc.entries[..k], rc).value;
      Midway(c, rc, d') && forall j :: 0 <= j < |rc.entries| && (AtPost(rc, d, j) || j < k) ==> AtPost(rc, d', j)
  {
    RedoFrom(c, rc, d, 0, k);
    assert rc.entries[0..k] == rc.entries[..k];
  }

  lemma {:induction false} RedoFrom(c: Disk, rc: ReceiptDoc, d: Disk, i: nat, k: nat)
    requires OnDisk(c, rc) && NoDeletions(rc) && Midway(c, rc, d) && i <= k <= |rc.entries|
    ensures RedoEntries(d, rc.entries[i..k], rc).Ok?
    ensures var d' := RedoEntries(d, rc.entries[i..k], rc).value;
      Midway(c, rc, d') && forall j :: 0 <= j < |rc.entries| && (AtPost(rc, d, j) || i <= j < k) ==> AtPost(rc, d', j)
    decreases k - i
  {
    if i < k {
      var e := rc.entries[i];
      SameBlobs(c, rc, d, e);
      assert PostBytes(c, e).Ok?;
      var f := PostBytes(d, e).value;
      PostStep(c, rc, d, i, f);
      var d1 := RedoEntry(d, e, rc).value;
      RedoFrom(c, rc, d1, i + 1, k);
      assert rc.entries[i..k][0] == e && rc.entries[i..k][1..] == rc.entries[i + 1..k];
    }
  }

  lemma SameBlobs(c: Disk, rc: ReceiptDoc, d: Disk, e: Entry)
    requires Midway(c, rc, d) && !Deletes(e)
    ensures PostBytes(d, e) == PostBytes(c, e)
  {
    if e.blob.Some? {
      assert DigestAt(d, Evidence(e.blob.value)) == DigestAt(c, Evidence(e.blob.value));
    }
  }

  /** Redo attempts that crash after the given numbers of entries, then one that
      does not. */
  function Recover(d: Disk, base: HeadDoc, rc: ReceiptDoc, crashes: seq<nat>): Result<Disk>
    decreases |crashes|
  {
    if crashes == [] then RedoTo(d, base, rc, |rc.entries| + 1)
    else if crashes[0] > |rc.entries| then RedoTo(d, base, rc, crashes[0])
    else match RedoTo(d, base, rc, crashes[0])
      case Err(c) => Err(c)
      case Ok(d') => Recover(d', base, rc, crashes[1..])
  }

  lemma {:induction false} RecoverFinishes(c: Disk, rc: ReceiptDoc, base: HeadDoc, d: Disk, crashes: seq<nat>)
    requires OnDisk(c, rc) && NoDeletions(rc) && Midway(c, rc, d)
    ensures Recover(d, base, rc, crashes).Ok?
    ensures Finished(c, rc, HeadAfter(base, rc), Recover(d, base, rc, crashes).value)
    decreases |crashes|
  {
    RedoRun(c, rc, d, |rc.entries|);
    assert rc.entries[..|rc.entries|] == rc.entries;
    if crashes != [] && crashes[0] <= |rc.entries| {
      RedoRun(c, rc, d, crashes[0]);
      RecoverFinishes(c, rc, base, RedoTo(d, base, rc, crashes[0]).value, crashes[1..]);
    } else {
      HeadAdvanced(c, rc, HeadAfter(base, rc), RedoEntries(d, rc.entries, rc).value);
    }
  }

  lemma HeadAdvanced(c: Disk, rc: ReceiptDoc, head: HeadDoc, d: Disk)
    requires ValidReceipt(rc) && Midway(c, rc, d) && forall i :: 0 <= i < |rc.entries| ==> AtPost(rc, d, i)
    ensures Finished(c, rc, head, d[Path.Head := HeadFile(head)])
  {
    var d' := d[Path.Head := HeadFile(head)];
    forall i | 0 <= i < |rc.entries| ensures AtPost(rc, d', i) {
      assert ValidEntry(rc.entries[i], rc.kind);
      assert AtPost(rc, d, i);
    }
  }

  // ----- the phases of apply -----

  predicate IsEvidence(a: Artifact) {
    (a.role.EVIDENCE? || a.role.POST?) && a.target.Evidence? && a.target.blob == Sum(a.data)
  }

  lemma {:induction false} EvidenceRun(d0: Disk, d: Disk, ev: seq<Artifact>, rc: ReceiptDoc)
    requires Prepared(d0, d)
    requires forall i :: 0 <= i < |ev| ==> IsEvidence(ev[i])
    ensures Run(d, Puts(ev), rc).Ok? && Prepared(d0, Run(d, Puts(ev), rc).value)
    ensures forall p :: p in d || Targets(ev, p) ==> p in Run(d, Puts(ev), rc).value
    decreases |ev|
  {
    if ev != [] {
      var a := ev[0];
      assert IsEvidence(a);
      var d1 := if a.target in d then d else d[a.target := a.data];
      assert Perform(d, Put(a), rc) == Result.Ok(d1);
      assert Prepared(d0, d1);
      EvidenceRun(d0, d1, ev[1..], rc);
      assert Puts(ev)[1..] == Puts(ev[1..]);
      forall p | Targets(ev, p) ensures p == a.target || Targets(ev[1..], p) {
        var k :| 0 <= k < |ev| && ev[k].target == p;
        if k > 0 { assert ev[1..][k - 1].target == p; }
      }
    }
  }

  lemma {:induction false} InPhaseAppend(xs: seq<Artifact>, ys: seq<Artifact>, k: nat)
    ensures InPhase(xs + ys, k) == InPhase(xs, k) + InPhase(ys, k)
  {
    if xs == [] {
      assert xs + ys == ys;
    } else {
      assert (xs + ys)[0] == xs[0] && (xs + ys)[1..] == xs[1..] + ys;
      InPhaseAppend(xs[1..], ys, k);
    }
  }

  lemma {:induction false} BlobArtsShape(inv: Disk, posts: seq<Post>, all: seq<Post>)
    ensures forall i :: 0 <= i < |BlobArts(inv, posts, all)| ==>
      BlobArts(inv, posts, all)[i].role.EVIDENCE? && IsEvidence(BlobArts(inv, posts, all)[i])
    ensures InPhase(BlobArts(inv, posts, all), 0) == BlobArts(inv, posts, all)
    ensures forall k: nat :: k > 0 ==> InPhase(BlobArts(inv, posts, all), k) == []
    ensures forall i :: 0 <= i < |posts| && posts[i].file.Some? && !Inlined(posts[i]) ==>
      var blob := Evidence(Sum(posts[i].file.value));
      blob in inv || HasPath(all, blob) || Targets(BlobArts(inv, posts, all), blob)
  {
    if posts != [] {
      BlobArtsShape(inv, posts[1..], all);
      var rest, now := BlobArts(inv, posts[1..], all), BlobArts(inv, posts, all);
      assert now == rest || (now[0].role.EVIDENCE? && now[1..] == rest);
      forall i | 0 <= i < |posts| && posts[i].file.Some? && !Inlined(posts[i])
        ensures var blob := Evidence(Sum(posts[i].file.value)); blob in inv || HasPath(all, blob) || Targets(now, blob)
      {
        var blob := Evidence(Sum(posts[i].file.value));
        if i > 0 {
          assert posts[1..][i - 1] == posts[i];
          if Targets(rest, blob) {
            var k :| 0 <= k < |rest| && rest[k].target == blob;
            assert now == rest || now[k + 1].target == blob;
            if now == rest { assert now[k].target == blob; }
          }
        } else if now != rest {
          assert now[0].target == blob;
        }
      }
    }
  }

  predicate FromPost(posts: seq<Post>, a: Artifact) {
    a.role.POST? && exists i :: 0 <= i < |posts| && posts[i].path == a.target && posts[i].file == Some(a.data)
  }

  lemma FromPostTail(posts: seq<Post>, a: Artifact)
    requires posts != [] && FromPost(posts[1..], a)
    ensures FromPost(posts, a)
  {
    var i :| 0 <= i < |posts[1..]| && posts[1..][i].path == a.target && posts[1..][i].file == Some(a.data);
    assert posts[i + 1] == posts[1..][i];
  }

  lemma InPhaseOne(a: Artifact)
    ensures forall k: nat :: InPhase([a], k) == if Phase(a) == k then [a] else []
  {
    assert [a][1..] == [];
  }

  /** The posts split into the evidence phase and the post phase. */
  lemma {:induction false} PostArtsShape(posts: seq<Post>)
    ensures InPhase(PostArts(posts), 1) == [] && InPhase(PostArts(posts), 3) == []
    ensures forall a :: a in InPhase(PostArts(posts), 0) ==> a.target.Evidence? && FromPost(posts, a)
    ensures forall a :: a in InPhase(PostArts(posts), 2) ==> !a.target.Evidence? && FromPost(posts, a)
    ensures forall i :: 0 <= i < |posts| && posts[i].file.Some? ==>
      Artifact(POST, posts[i].path, posts[i].file.value) in InPhase(PostArts(posts), if posts[i].path.Evidence? then 0 else 2)
  {
    if posts != [] {
      PostArtsShape(posts[1..]);
      var tail := PostArts(posts[1..]);
      forall a | FromPost(posts[1..], a) ensures FromPost(posts, a) { FromPostTail(posts, a); }
      if posts[0].file.Some? {
        var a := Artifact(POST, posts[0].path, posts[0].file.value);
        assert FromPost(posts, a);
        InPhaseOne(a);
        InPhaseAppend([a], tail, 0);
        InPhaseAppend([a], tail, 1);
        InPhaseAppend([a], tail, 2);
        InPhaseAppend([a], tail, 3);
      } else {
        assert PostArts(posts) == tail;
      }
      forall i | 0 <= i < |posts| && posts[i].file.Some?
        ensures Artifact(POST, posts[i].path, posts[i].file.value) in InPhase(PostArts(posts), if posts[i].path.Evidence? then 0 else 2)
      {
        if i > 0 { assert posts[1..][i - 1] == posts[i]; }
      }
    }
  }

  // ----- what a frozen plan carries -----

  /** What the model hands to `freeze`: it posts neither a request entry of its own nor
      the version, a ticket file holds its ticket, and the ticket it names is among the
      posts. */
  ghost predicate PlannedPosts(q: Asked, posts: seq<Post>, eff: TicketEffect) {
    && q.kind != "INIT"
    && (forall i :: 0 <= i < |posts| ==> !posts[i].path.Request? && !posts[i].path.Version?)
    && (forall i :: 0 <= i < |posts| && posts[i].path.Ticket? ==>
          posts[i].file.Some? && posts[i].file.value.TicketFile? && posts[i].file.value.ticket.local == posts[i].path.local)
    && (eff.OnTicket? ==> exists i :: 0 <= i < |posts| && posts[i].path == Ticket(eff.post.local) && posts[i].file == Some(TicketFile(eff.post)))
  }

  function EvidencePhase(plan: Plan): seq<Artifact> { InPhase(plan.artifacts, 0) }
  function PostPhase(plan: Plan): seq<Artifact> { InPhase(plan.artifacts, 2) }

  /** The number of actions up to and including the receipt link. */
  function CommitPoint(plan: Plan): nat { |EvidencePhase(plan)| + 1 }

  function ReceiptArt(plan: Plan): Artifact { Artifact(RECEIPT, Receipt(plan.receipt.seqNo), ReceiptFile(plan.receipt)) }
  function HeadArt(plan: Plan): Artifact { Artifact(HEAD, Path.Head, HeadFile(plan.head)) }

  function AllPosts(q: Asked, base: HeadDoc, posts: seq<Post>, eff: TicketEffect): seq<Post> {
    posts + [RequestPost(q, base.lastSeq + 1, eff)]
  }

  lemma FreezeParts(q: Asked, inv: Disk, base: HeadDoc, posts: seq<Post>, eff: TicketEffect, plan: Plan)
    requires Freeze(q, inv, base, posts, eff) == Result.Ok(plan)
    ensures var all := AllPosts(q, base, posts, eff);
      && plan.artifacts == BlobArts(inv, all, all) + [HeadArt(plan)] + PostArts(all) + [ReceiptArt(plan)]
      && plan.receipt.entries == EntriesOf(inv, all)
      && ValidReceipt(plan.receipt) && ContentNamed(all)
      && Request(q.requestId) !in inv
  {
  }

  lemma NoneAround<T>(a: seq<T>, c: seq<T>)
    ensures a + [] + c + [] == a + c && [] + [] + c + [] == c && [] + c + [] + [] == c && [] + [] + [] + c == c
  {
  }

  lemma PhasesOfParts(b: seq<Artifact>, h: Artifact, p: seq<Artifact>, r: Artifact)
    requires Phase(h) == 3 && Phase(r) == 1
    requires InPhase(b, 0) == b && InPhase(b, 1) == [] && InPhase(b, 2) == [] && InPhase(b, 3) == []
    requires InPhase(p, 1) == [] && InPhase(p, 3) == []
    ensures InPhase(b + [h] + p + [r], 0) == b + InPhase(p, 0)
    ensures InPhase(b + [h] + p + [r], 1) == [r]
    ensures InPhase(b + [h] + p + [r], 2) == InPhase(p, 2)
    ensures InPhase(b + [h] + p + [r], 3) == [h]
  {
    InPhaseOne(h);
    InPhaseOne(r);
    PartsInPhase(b, h, p, r, 0);
    PartsInPhase(b, h, p, r, 1);
    PartsInPhase(b, h, p, r, 2);
    PartsInPhase(b, h, p, r, 3);
    NoneAround(b, InPhase(p, 0));
    NoneAround(b, [r]);
    NoneAround(b, InPhase(p, 2));
    NoneAround(b, [h]);
    hide InPhase;
  }

  lemma PhasesOf(q: Asked, inv: Disk, base: HeadDoc, posts: seq<Post>, eff: TicketEffect, plan: Plan)
    requires Freeze(q, inv, base, posts, eff) == Result.Ok(plan)
    ensures var all := AllPosts(q, base, posts, eff);
      && EvidencePhase(plan) == BlobArts(inv, all, all) + InPhase(PostArts(all), 0)
      && InPhase(plan.artifacts, 1) == [ReceiptArt(plan)]
      && PostPhase(plan) == InPhase(PostArts(all), 2)
      && InPhase(plan.artifacts, 3) == [HeadArt(plan)]
  {
    var all := AllPosts(q, base, posts, eff);
    FreezeParts(q, inv, base, posts, eff, plan);
    BlobArtsShape(inv, all, all);
    PostArtsShape(all);
    PhasesOfParts(BlobArts(inv, all, all), HeadArt(plan), PostArts(all), ReceiptArt(plan));
  }

  lemma PartsInPhase(b: seq<Artifact>, h: Artifact, p: seq<Artifact>, r: Artifact, k: nat)
    ensures InPhase(b + [h] + p + [r], k) == InPhase(b, k) + InPhase([h], k) + InPhase(p, k) + InPhase([r], k)
  {
    InPhaseAppend(b + [h] + p, [r], k);
    InPhaseAppend(b + [h], p, k);
    InPhaseAppend(b, [h], k);
  }

  /** Evidence first, each post carried once, every blob accounted for. */
  ghost predicate Staged(inv: Disk, plan: Plan) {
    var rc := plan.receipt;
    && Actions(plan) == Puts(EvidencePhase(plan)) + [Put(ReceiptArt(plan))] + Puts(PostPhase(plan)) + Drops(rc.entries) + [Put(HeadArt(plan))]
    && ValidReceipt(rc)
    && (forall i :: 0 <= i < |EvidencePhase(plan)| ==> IsEvidence(EvidencePhase(plan)[i]))
    && (forall i :: 0 <= i < |PostPhase(plan)| ==> Carries(rc, PostPhase(plan)[i]))
    && (forall i :: 0 <= i < |rc.entries| ==>
          var e := rc.entries[i];
          && e.pre == DigestAt(inv, e.path)
          && (!Deletes(e) && !e.path.Evidence? ==> Targets(PostPhase(plan), e.path))
          && (e.path.Evidence? ==> e.post == Some(e.path.blob) && Targets(EvidencePhase(plan), e.path))
          && (e.path.Pinned? ==> e.post == Some(e.path.pin))
          && (e.path.Request? ==> e.pre.None?)
          && (e.blob.Some? ==> Evidence(e.blob.value) in inv || Targets(EvidencePhase(plan), Evidence(e.blob.value))))
  }

  lemma TargetsIn(arts: seq<Artifact>, a: Artifact)
    requires a in arts
    ensures Targets(arts, a.target)
  {
    var i :| 0 <= i < |arts| && arts[i] == a;
  }

  lemma CarriesPost(rc: ReceiptDoc, inv: Disk, all: seq<Post>, a: Artifact)
    requires FromPost(all, a) && rc.entries == EntriesOf(inv, all)
    ensures Carries(rc, a)
  {
    var i :| 0 <= i < |all| && all[i].path == a.target && all[i].file == Some(a.data);
    assert rc.entries[i] == EntryOf(inv, all[i]);
  }

  lemma FreezeStages(q: Asked, inv: Disk, base: HeadDoc, posts: seq<Post>, eff: TicketEffect, plan: Plan)
    requires Freeze(q, inv, base, posts, eff) == Result.Ok(plan) && PlannedPosts(q, posts, eff)
    ensures Staged(inv, plan)
  {
    var all := AllPosts(q, base, posts, eff);
    var rc := plan.receipt;
    PhasesOf(q, inv, base, posts, eff, plan);
    FreezeParts(q, inv, base, posts, eff, plan);
    BlobArtsShape(inv, all, all);
    PostArtsShape(all);
    var b, pe := BlobArts(inv, all, all), InPhase(PostArts(all), 0);
    assert Puts([ReceiptArt(plan)]) == [Put(ReceiptArt(plan))] && Puts([HeadArt(plan)]) == [Put(HeadArt(plan))];
    forall i | 0 <= i < |pe| ensures IsEvidence(pe[i]) {
      assert pe[i] in pe;
      var j :| 0 <= j < |all| && all[j].path == pe[i].target && all[j].file == Some(pe[i].data);
    }
    forall i | 0 <= i < |PostPhase(plan)| ensures Carries(rc, PostPhase(plan)[i]) {
      assert PostPhase(plan)[i] in InPhase(PostArts(all), 2);
      CarriesPost(rc, inv, all, PostPhase(plan)[i]);
    }
    forall i | 0 <= i < |rc.entries|
      ensures var e := rc.entries[i];
        && e.pre == DigestAt(inv, e.path)
        && (!Deletes(e) && !e.path.Evidence? ==> Targets(PostPhase(plan), e.path))
        && (e.path.Evidence? ==> e.post == Some(e.path.blob) && Targets(EvidencePhase(plan), e.path))
        && (e.path.Pinned? ==> e.post == Some(e.path.pin))
        && (e.path.Request? ==> e.pre.None?)
        && (e.blob.Some? ==> Evidence(e.blob.value) in inv || Targets(EvidencePhase(plan), Evidence(e.blob.value)))
    {
      StagedEntry(q, inv, base, posts, eff, plan, i);
    }
  }

  lemma StagedEntry(q: Asked, inv: Disk, base: HeadDoc, posts: seq<Post>, eff: TicketEffect, plan: Plan, i: nat)
    requires Freeze(q, inv, base, posts, eff) == Result.Ok(plan) && PlannedPosts(q, posts, eff) && i < |plan.receipt.entries|
    ensures var e := plan.receipt.entries[i];
      && e.pre == DigestAt(inv, e.path)
      && (!Deletes(e) && !e.path.Evidence? ==> Targets(PostPhase(plan), e.path))
      && (e.path.Evidence? ==> e.post == Some(e.path.blob) && Targets(EvidencePhase(plan), e.path))
      && (e.path.Pinned? ==> e.post == Some(e.path.pin))
      && (e.path.Request? ==> e.pre.None?)
      && (e.blob.Some? ==> Evidence(e.blob.value) in inv || Targets(EvidencePhase(plan), Evidence(e.blob.value)))
  {
    hide Freeze, BlobArts;
    var all := AllPosts(q, base, posts, eff);
    PhasesOf(q, inv, base, posts, eff, plan);
    FreezeParts(q, inv, base, posts, eff, plan);
    BlobArtsShape(inv, all, all);
    PostArtsShape(all);
    var e, p := plan.receipt.entries[i], all[i];
    assert e == EntryOf(inv, p) && ValidEntry(e, plan.receipt.kind);
    if p.file.Some? {
      var a := Artifact(POST, p.path, p.file.value);
      if p.path.Evidence? {
        assert a in EvidencePhase(plan);
        TargetsIn(EvidencePhase(plan), a);
      } else {
        TargetsIn(PostPhase(plan), a);
      }
      if !Inlined(p) {
        var blob := Evidence(Sum(p.file.value));
        if HasPath(all, blob) {
          var j :| 0 <= j < |all| && all[j].path == blob;
          assert plan.receipt.entries[j] == EntryOf(inv, all[j]) && ValidEntry(plan.receipt.entries[j], plan.receipt.kind);
          var o := Artifact(POST, blob, all[j].file.value);
          assert o in EvidencePhase(plan);
          TargetsIn(EvidencePhase(plan), o);
        } else if Targets(BlobArts(inv, all, all), blob) {
          var k :| 0 <= k < |BlobArts(inv, all, all)| && BlobArts(inv, all, all)[k].target == blob;
          assert EvidencePhase(plan)[k].target == blob;
        }
      }
    }
  }
}
