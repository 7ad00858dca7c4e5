/** Capacity is decided once: a plan that was accepted can always be redone, and a store
    that was left paused can always be unpaused. */
module CapacityLaws {
  import opened Inventory
  import opened Capacity
  import Publication

  // ----- what is where after some puts -----

  /** Artifacts with one target are one artifact. */
  predicate Consistent(arts: seq<Art>) {
    forall a, b :: a in arts && b in arts && a.path == b.path ==> a == b
  }

  predicate Touches(arts: seq<Art>, q: Kept) { exists a :: a in arts && a.path == q }

  predicate SameAt(b: Books, c: Books, q: Kept) {
    (q in b.files <==> q in c.files) && (q in b.files ==> b.files[q] == c.files[q])
  }

  lemma {:induction false} PutAllAppend(b: Books, xs: seq<Art>, ys: seq<Art>)
    ensures PutAll(b, xs + ys) == PutAll(PutAll(b, xs), ys)
    decreases |xs|
  {
    if xs == [] {
      assert xs + ys == ys;
    } else {
      assert (xs + ys)[0] == xs[0] && (xs + ys)[1..] == xs[1..] + ys;
      PutAllAppend(Put(b, xs[0].path, xs[0].meta), xs[1..], ys);
    }
  }

  lemma {:induction false} PutAllContents(b: Books, xs: seq<Art>)
    requires Consistent(xs)
    ensures forall a :: a in xs ==> Holds(PutAll(b, xs), a)
    ensures forall q :: !Touches(xs, q) ==> SameAt(PutAll(b, xs), b, q)
    ensures forall d :: d in PutAll(b, xs).dirs <==> d in b.dirs || exists a :: a in xs && d in Parents(a.path)
    decreases |xs|
  {
    if xs != [] {
      var init, last := xs[..|xs| - 1], xs[|xs| - 1];
      assert xs == init + [last];
      PutAllContents(b, init);
      PutAllAppend(b, init, [last]);
      assert [last][1..] == [];
      assert PutAll(b, xs) == Put(PutAll(b, init), last.path, last.meta);
      assert forall a :: a in init ==> a in xs;
      forall q | !Touches(xs, q) ensures SameAt(PutAll(b, xs), b, q) {
        assert last in xs && !Touches(init, q);
      }
    }
  }

  /** Books are their files and their directories. */
  lemma SameBooks(b: Books, c: Books)
    requires b.dirs == c.dirs && forall q :: SameAt(b, c, q)
    ensures b == c
  {
    forall q ensures (q in b.files <==> q in c.files) && (q in b.files ==> b.files[q] == c.files[q]) { assert SameAt(b, c, q); }
  }

  /** Which artifacts were put matters, not in what order or how often. */
  lemma SamePuts(b: Books, xs: seq<Art>, ys: seq<Art>)
    requires Consistent(xs) && forall a :: a in xs <==> a in ys
    ensures PutAll(b, xs) == PutAll(b, ys)
  {
    PutAllContents(b, xs);
    PutAllContents(b, ys);
    var c, d := PutAll(b, xs), PutAll(b, ys);
    forall q ensures SameAt(c, d, q) {
      if Touches(xs, q) {
        var a :| a in xs && a.path == q;
        assert Holds(c, a) && Holds(d, a);
      } else {
        assert !Touches(ys, q);
        assert SameAt(c, b, q) && SameAt(d, b, q);
      }
    }
    forall x ensures x in c.dirs <==> x in d.dirs {}
    SameBooks(c, d);
  }

  lemma OneEachConsistent(arts: seq<Art>, xs: seq<Art>)
    requires OneEach(arts) && forall a :: a in xs ==> a in arts
    ensures Consistent(xs)
  {
    forall a, b | a in xs && b in xs && a.path == b.path ensures a == b {
      var i :| 0 <= i < |arts| && arts[i] == a;
      var j :| 0 <= j < |arts| && arts[j] == b;
    }
  }

  // ----- the committed books -----

  /** The receipt link: base, evidence and receipt, and nothing else. */
  lemma CommittedContents(p: Plan)
    requires Frozen(p)
    ensures forall a :: a in p.arts && (a.role.RECEIPT? || a.path.EvidenceBlob?) ==> Holds(Committed(p), a)
    ensures forall q :: (forall a :: a in p.arts && a.path == q ==> !a.role.RECEIPT? && !a.path.EvidenceBlob?) ==> SameAt(Committed(p), p.base, q)
    ensures p.base.dirs + {Staging} <= Committed(p).dirs
  {
    var ev, rs := EvidenceOf(p), ReceiptsOf(p);
    OneEachConsistent(p.arts, ev + rs);
    PutAllAppend(Start(p), ev, rs);
    PutAllContents(Start(p), ev + rs);
    assert Committed(p) == PutAll(Start(p), ev + rs);
    forall a | a in p.arts && (a.role.RECEIPT? || a.path.EvidenceBlob?) ensures Holds(Committed(p), a) {
      assert a in ev + rs;
    }
    forall q | forall a :: a in p.arts && a.path == q ==> !a.role.RECEIPT? && !a.path.EvidenceBlob? ensures SameAt(Committed(p), p.base, q) {
      assert !Touches(ev + rs, q);
      assert SameAt(Committed(p), Start(p), q);
    }
  }

  lemma PostInBase(p: Plan, a: Art)
    requires Frozen(p) && a in PostsOf(p)
    ensures SameAt(Committed(p), p.base, a.path)
    ensures !GrowsOver(Committed(p), a) ==> a.path in p.base.files && Parents(a.path) <= Committed(p).dirs
  {
    CommittedContents(p);
    forall x | x in p.arts && x.path == a.path ensures x == a { OneTarget(p.arts, x, a); }
    assert SameAt(Committed(p), p.base, a.path);
  }

  lemma OneTarget(arts: seq<Art>, a: Art, b: Art)
    requires OneEach(arts) && a in arts && b in arts && a.path == b.path
    ensures a == b
  {
    var i :| 0 <= i < |arts| && arts[i] == a;
    var j :| 0 <= j < |arts| && arts[j] == b;
  }

  // ----- one point at a time -----

  lemma {:induction false} EachAt(t: Tariff, p: Plan, b: Books, xs: seq<Art>, out: bool, l: Limits, k: nat)
    requires AffordsEach(t, p, b, xs, out, l) && k <= |xs|
    ensures Charged(t, p, PutAll(b, xs[..k]), l) && (out ==> UnpauseFits(t, PutAll(b, xs[..k]), p.baseSeq, l))
    decreases |xs|
  {
    hide Affordable, UnpauseFits, Charged;
    if k == 0 {
      assert xs[..0] == [];
    } else {
      assert xs[..k][0] == xs[0] && xs[..k][1..] == xs[1..][..k - 1];
      EachAt(t, p, Put(b, xs[0].path, xs[0].meta), xs[1..], out, l, k - 1);
    }
  }

  lemma {:induction false} EachFrom(t: Tariff, p: Plan, b: Books, xs: seq<Art>, l: Limits)
    requires forall k :: 0 <= k <= |xs| ==> Charged(t, p, PutAll(b, xs[..k]), l)
    ensures AffordsEach(t, p, b, xs, false, l)
    decreases |xs|
  {
    assert xs[..0] == [] && Charged(t, p, PutAll(b, xs[..0]), l);
    if xs != [] {
      var c := Put(b, xs[0].path, xs[0].meta);
      forall k | 0 <= k <= |xs[1..]| ensures Charged(t, p, PutAll(c, xs[1..][..k]), l) {
        assert xs[..k + 1][0] == xs[0] && xs[..k + 1][1..] == xs[1..][..k];
        assert Charged(t, p, PutAll(b, xs[..k + 1]), l);
      }
      EachFrom(t, p, c, xs[1..], l);
    }
  }

  // ----- the growth-first peak -----

  function Growth(p: Plan): seq<Art> { Select(PostsOf(p), Growers(Committed(p))) }

  /** The books once everything that grows has grown and nothing has shrunk. */
  function GrownBooks(p: Plan): Books { PutAll(Committed(p), Growth(p)) }

  lemma GrownIsCharged(t: Tariff, p: Plan, l: Limits)
    requires Accepts(t, p, l)
    ensures Charged(t, p, GrownBooks(p), l)
  {
    var g := |Growth(p)|;
    assert Ordered(p)[..g] == Growth(p);
    EachAt(t, p, Committed(p), Ordered(p), false, l, g);
  }

  /** No set of published posts, in any order, exceeds the grown books. */
  lemma PeakDominates(p: Plan, xs: seq<Art>)
    requires Frozen(p) && forall a :: a in xs ==> a in PostsOf(p)
    ensures Dominated(PutAll(Committed(p), xs), GrownBooks(p))
  {
    var c, b, g := Committed(p), PutAll(Committed(p), xs), GrownBooks(p);
    OneEachConsistent(p.arts, xs);
    OneEachConsistent(p.arts, Growth(p));
    PutAllContents(c, xs);
    PutAllContents(c, Growth(p));
    forall q | q in b.files ensures q in g.files && b.files[q].bytes <= g.files[q].bytes {
      PeakDominatesAt(p, xs, q);
    }
    forall d | d in b.dirs ensures d in g.dirs {
      if d !in c.dirs {
        var a :| a in xs && d in Parents(a.path);
        PostInBase(p, a);
        assert a in Growth(p);
      }
    }
  }

  lemma PeakDominatesAt(p: Plan, xs: seq<Art>, q: Kept)
    requires Frozen(p) && (forall a :: a in xs ==> a in PostsOf(p)) && q in PutAll(Committed(p), xs).files
    ensures q in GrownBooks(p).files && PutAll(Committed(p), xs).files[q].bytes <= GrownBooks(p).files[q].bytes
  {
    hide PutAll;
    var c, b, g := Committed(p), PutAll(Committed(p), xs), GrownBooks(p);
    OneEachConsistent(p.arts, xs);
    OneEachConsistent(p.arts, Growth(p));
    PutAllContents(c, xs);
    PutAllContents(c, Growth(p));
    if Touches(xs, q) {
      var a :| a in xs && a.path == q;
      assert Holds(b, a);
      if GrowsOver(c, a) {
        assert a in Growth(p) && Holds(g, a);
      } else {
        Untouched(p, a);
      }
    } else {
      assert SameAt(b, c, q);
      if Touches(Growth(p), q) {
        var a :| a in Growth(p) && a.path == q;
        assert Holds(g, a) && GrowsOver(c, a);
      } else {
        assert SameAt(g, c, q);
      }
    }
  }

  /** A post that shrinks is not among those that grow. */
  lemma Untouched(p: Plan, a: Art)
    requires Frozen(p) && a in PostsOf(p) && !GrowsOver(Committed(p), a)
    ensures SameAt(GrownBooks(p), Committed(p), a.path) && a.path in Committed(p).files
  {
    OneEachConsistent(p.arts, Growth(p));
    PutAllContents(Committed(p), Growth(p));
    forall x | x in Growth(p) ensures x.path != a.path {
      if x.path == a.path { OneTarget(p.arts, x, a); }
    }
    PostInBase(p, a);
  }

  // ----- redo has room -----

  lemma PostsConsistent(p: Plan, xs: seq<Art>)
    requires Frozen(p) && forall a :: a in xs ==> a in PostsOf(p)
    ensures Consistent(xs)
  {
    OneEachConsistent(p.arts, xs);
  }

  function Dropped(b: Books): Books { Books(b.files - {BarrierJson}, b.dirs) }

  lemma DroppedDominated(b: Books, c: Books)
    requires Dominated(b, c)
    ensures Dominated(Dropped(b), c)
  {
  }

  /** Dropping the barrier commutes with puts elsewhere. */
  lemma {:induction false} DropCommutes(b: Books, xs: seq<Art>)
    requires forall a :: a in xs ==> !a.path.BarrierJson?
    ensures PutAll(Dropped(b), xs) == Dropped(PutAll(b, xs))
    decreases |xs|
  {
    if xs != [] {
      assert xs[0] in xs;
      assert b.files[xs[0].path := xs[0].meta] - {BarrierJson} == (b.files - {BarrierJson})[xs[0].path := xs[0].meta];
      DropCommutes(Put(b, xs[0].path, xs[0].meta), xs[1..]);
    }
  }

  /** Putting what is already there changes nothing. */
  lemma {:induction false} PutAgain(b: Books, xs: seq<Art>)
    requires forall a :: a in xs ==> Holds(b, a) && Parents(a.path) <= b.dirs
    ensures PutAll(b, xs) == b
    decreases |xs|
  {
    if xs != [] {
      assert xs[0] in xs;
      assert b.files[xs[0].path := xs[0].meta] == b.files && b.dirs + Parents(xs[0].path) == b.dirs;
      PutAgain(b, xs[1..]);
    }
  }

  lemma StagingStays(p: Plan, xs: seq<Art>)
    requires Frozen(p) && forall a :: a in xs ==> a in PostsOf(p)
    ensures Staging in PutAll(Committed(p), xs).dirs && p.base.dirs <= PutAll(Committed(p), xs).dirs
    ensures forall a :: a in xs ==> Holds(PutAll(Committed(p), xs), a) && Parents(a.path) <= PutAll(Committed(p), xs).dirs
  {
    CommittedContents(p);
    PostsConsistent(p, xs);
    PutAllContents(Committed(p), xs);
  }

  /** Once every post is published, in whatever order, the books are one. */
  lemma AllPublished(p: Plan, xs: seq<Art>)
    requires Frozen(p) && (forall a :: a in xs <==> a in PostsOf(p))
    ensures PutAll(Committed(p), xs) == PutAll(Committed(p), Ordered(p))
  {
    PostsConsistent(p, xs);
    SamePuts(Committed(p), xs, Ordered(p));
  }

  lemma NoBarrierPost(p: Plan)
    requires Frozen(p) && p.unlink
    ensures forall a :: a in PostsOf(p) ==> !a.path.BarrierJson?
  {
  }

  /** A redo in progress stands where some set of published posts would. */
  lemma RedoStands(p: Plan, published: seq<Art>, dropped: bool, k: nat)
    requires Frozen(p) && CanStop(p, published, dropped, false) && k <= |PostsOf(p)|
    ensures PutAll(RedoStart(Interrupted(p, published, dropped, false)), PostsOf(p)[..k]) ==
      (if dropped then Dropped(PutAll(Committed(p), published + PostsOf(p)[..k])) else PutAll(Committed(p), published + PostsOf(p)[..k]))
  {
    var b, xs := PutAll(Committed(p), published), PostsOf(p)[..k];
    StagingStays(p, published);
    PutAllAppend(Committed(p), published, xs);
    assert RedoStart(b) == b && RedoStart(Dropped(b)) == Dropped(b) by { assert b.dirs + {Staging} == b.dirs; }
    if dropped {
      NoBarrierPost(p);
      DropCommutes(b, xs);
    }
  }

  lemma RedoTurnCharged(t: Tariff, p: Plan, published: seq<Art>, dropped: bool, k: nat)
    requires Frozen(p) && Accepts(t, p, HARD) && CanStop(p, published, dropped, false) && k <= |PostsOf(p)|
    ensures Charged(t, p, PutAll(RedoStart(Interrupted(p, published, dropped, false)), PostsOf(p)[..k]), HARD)
  {
    var xs := published + PostsOf(p)[..k];
    RedoStands(p, published, dropped, k);
    PeakDominates(p, xs);
    DroppedDominated(PutAll(Committed(p), xs), GrownBooks(p));
    GrownIsCharged(t, p, HARD);
    DominatedAffordable(t, PutAll(RedoStart(Interrupted(p, published, dropped, false)), PostsOf(p)[..k]), GrownBooks(p),
      Temporary(p), Promised(p), Names(p), Temporary(p), Promised(p), Names(p), HARD);
  }

  /** The redo ends where the first publication would have. */
  lemma RedoEndsSame(p: Plan, published: seq<Art>, dropped: bool)
    requires Frozen(p) && CanStop(p, published, dropped, false)
    ensures Unlinked(PutAll(RedoStart(Interrupted(p, published, dropped, false)), PostsOf(p)), p) == Unlinked(PutAll(Committed(p), Ordered(p)), p)
    ensures RedoFinal(p, Interrupted(p, published, dropped, false)) == Final(p)
  {
    var posts := PostsOf(p);
    assert posts[..|posts|] == posts;
    RedoStands(p, published, dropped, |posts|);
    AllPublished(p, published + posts);
    var b := PutAll(Committed(p), Ordered(p));
    assert Dropped(Dropped(b)) == Dropped(b) by { assert b.files - {BarrierJson} - {BarrierJson} == b.files - {BarrierJson}; }
  }

  /** With the head written, the books are the final books, and redo leaves them. */
  lemma AdvancedIsFinal(p: Plan, published: seq<Art>, dropped: bool)
    requires Frozen(p) && CanStop(p, published, dropped, true)
    ensures Interrupted(p, published, dropped, true) == Final(p)
    ensures forall k :: 0 <= k <= |PostsOf(p)| ==> PutAll(RedoStart(Final(p)), PostsOf(p)[..k]) == Final(p)
    ensures Unlinked(Final(p), p) == Final(p) && WithHead(Final(p), p) == Final(p)
  {
    AllPublished(p, published);
    FinalHolds(p);
    FinalStays(p, Final(p));
    forall k | 0 <= k <= |PostsOf(p)| ensures PutAll(RedoStart(Final(p)), PostsOf(p)[..k]) == Final(p) { PutAgain(Final(p), PostsOf(p)[..k]); }
  }

  lemma FinalHolds(p: Plan)
    requires Frozen(p)
    ensures forall a :: a in PostsOf(p) ==> Holds(Final(p), a) && Parents(a.path) <= Final(p).dirs
    ensures Staging in Final(p).dirs && (p.unlink ==> BarrierJson !in Final(p).files) && Holds(Final(p), Art(Publication.HEAD, HeadJson, p.nextHead))
  {
    StagingStays(p, Ordered(p));
    forall a | a in PostsOf(p) ensures Holds(Final(p), a) && Parents(a.path) <= Final(p).dirs {
      assert a in Ordered(p);
      assert Holds(PutAll(Committed(p), Ordered(p)), a);
      if p.unlink { NoBarrierPost(p); }
    }
  }

  lemma FinalStays(p: Plan, f: Books)
    requires Staging in f.dirs && (p.unlink ==> BarrierJson !in f.files) && Holds(f, Art(Publication.HEAD, HeadJson, p.nextHead))
    ensures RedoStart(f) == f && Unlinked(f, p) == f && WithHead(f, p) == f
  {
    assert f.dirs + {Staging} == f.dirs;
    assert p.unlink ==> f.files - {BarrierJson} == f.files;
    assert f.files[HeadJson := p.nextHead] == f.files && f.dirs + Parents(HeadJson) == f.dirs;
  }

  // ----- the inventory check accepts every interruption -----

  lemma InterruptedContents(p: Plan, published: seq<Art>, dropped: bool, q: Kept)
    requires Frozen(p) && CanStop(p, published, dropped, false)
    ensures var b := Interrupted(p, published, dropped, false);
      && (dropped && q == BarrierJson ==> q !in b.files)
      && (!(dropped && q == BarrierJson) && !Touches(published, q) ==> SameAt(b, Committed(p), q))
    ensures forall a :: a in published ==> Holds(Interrupted(p, published, dropped, false), a)
    ensures p.base.dirs <= Interrupted(p, published, dropped, false).dirs
  {
    PostsConsistent(p, published);
    PutAllContents(Committed(p), published);
    StagingStays(p, published);
    if dropped { NoBarrierPost(p); }
    assert !Touches(published, q) ==> SameAt(PutAll(Committed(p), published), Committed(p), q);
  }

  lemma InterruptedPost(p: Plan, published: seq<Art>, dropped: bool, a: Art)
    requires Frozen(p) && CanStop(p, published, dropped, false) && a in p.arts && a.role.POST?
    ensures PreOrPost(p, Interrupted(p, published, dropped, false), a)
  {
    InterruptedContents(p, published, dropped, a.path);
    CommittedContents(p);
    if !a.path.EvidenceBlob? {
      PostInBase(p, a);
      if a !in published {
        forall x | x in published ensures x.path != a.path { if x.path == a.path { OneTarget(p.arts, x, a); } }
      }
    } else {
      forall x | x in published ensures x.path != a.path {}
    }
  }

  lemma InterruptedPromised(p: Plan, published: seq<Art>, dropped: bool, a: Art)
    requires Frozen(p) && CanStop(p, published, dropped, false) && a in p.arts && (a.role.RECEIPT? || a.path.EvidenceBlob?)
    ensures Holds(Interrupted(p, published, dropped, false), a)
  {
    InterruptedContents(p, published, dropped, a.path);
    CommittedContents(p);
    forall x | x in published ensures x.path != a.path {}
  }

  lemma InterruptedBase(p: Plan, published: seq<Art>, dropped: bool, q: Kept)
    requires Frozen(p) && CanStop(p, published, dropped, false) && !Allowed(p, q)
    ensures SameAt(Interrupted(p, published, dropped, false), p.base, q)
  {
    InterruptedContents(p, published, dropped, q);
    CommittedContents(p);
    forall a | a in p.arts ensures a.path != q {}
    assert SameAt(Committed(p), p.base, q);
    assert forall a :: a in published ==> a in p.arts;
    assert !Touches(published, q);
  }

  lemma InterruptedHead(p: Plan, published: seq<Art>, dropped: bool)
    requires Frozen(p) && CanStop(p, published, dropped, false)
    ensures SameAt(Interrupted(p, published, dropped, false), p.base, HeadJson)
    ensures dropped || !p.unlink || SameAt(Interrupted(p, published, dropped, false), p.base, BarrierJson)
  {
    InterruptedContents(p, published, dropped, HeadJson);
    InterruptedContents(p, published, dropped, BarrierJson);
    CommittedContents(p);
    forall x | x in published ensures x.path != HeadJson && (p.unlink ==> x.path != BarrierJson) {}
    assert forall a :: a in p.arts && a.path == HeadJson ==> !a.role.RECEIPT?;
    assert SameAt(Committed(p), p.base, HeadJson);
    assert p.unlink ==> SameAt(Committed(p), p.base, BarrierJson);
  }

  lemma BeforeHeadIsValid(p: Plan, published: seq<Art>, dropped: bool)
    requires Frozen(p) && CanStop(p, published, dropped, false) && p.base.files[HeadJson] != p.nextHead
    ensures ValidRedo(p, Interrupted(p, published, dropped, false))
  {
    var b := Interrupted(p, published, dropped, false);
    InterruptedHead(p, published, dropped);
    InterruptedContents(p, published, dropped, BarrierJson);
    forall a | a in p.arts && (a.role.RECEIPT? || a.path.EvidenceBlob?) ensures Holds(b, a) { InterruptedPromised(p, published, dropped, a); }
    forall a | a in p.arts && a.role.POST? ensures PreOrPost(p, b, a) { InterruptedPost(p, published, dropped, a); }
    forall q | !Allowed(p, q) ensures SameAt(b, p.base, q) { InterruptedBase(p, published, dropped, q); }
  }

  lemma AfterHeadPosts(p: Plan, published: seq<Art>, dropped: bool, a: Art)
    requires Frozen(p) && CanStop(p, published, dropped, true) && a in p.arts && (a.role.RECEIPT? || a.path.EvidenceBlob? || a.role.POST?)
    ensures Holds(Interrupted(p, published, dropped, true), a)
  {
    var c := Interrupted(p, published, dropped, false);
    if a.role.RECEIPT? || a.path.EvidenceBlob? {
      InterruptedPromised(p, published, dropped, a);
    } else {
      assert a in PostsOf(p) && a in published;
      InterruptedContents(p, published, dropped, a.path);
    }
    assert Holds(c, a) && a.path != HeadJson;
  }

  lemma AfterHeadBase(p: Plan, published: seq<Art>, dropped: bool)
    requires Frozen(p) && CanStop(p, published, dropped, true)
    ensures forall q :: !Allowed(p, q) ==> SameAt(Interrupted(p, published, dropped, true), p.base, q)
    ensures p.base.dirs <= Interrupted(p, published, dropped, true).dirs
    ensures p.unlink ==> BarrierJson !in Interrupted(p, published, dropped, true).files
  {
    var c, b := Interrupted(p, published, dropped, false), Interrupted(p, published, dropped, true);
    InterruptedContents(p, published, dropped, BarrierJson);
    forall q | !Allowed(p, q) ensures SameAt(b, p.base, q) {
      InterruptedBase(p, published, dropped, q);
      assert SameAt(c, p.base, q);
    }
  }

  lemma AfterHeadIsValid(p: Plan, published: seq<Art>, dropped: bool)
    requires Frozen(p) && CanStop(p, published, dropped, true)
    ensures ValidRedo(p, Interrupted(p, published, dropped, true))
  {
    var b := Interrupted(p, published, dropped, true);
    forall a | a in p.arts && (a.role.RECEIPT? || a.path.EvidenceBlob? || a.role.POST?) ensures Holds(b, a) {
      AfterHeadPosts(p, published, dropped, a);
    }
    AfterHeadBase(p, published, dropped);
    HeldIsValid(p, b);
  }

  /** Everything published and the rest as the base had it. */
  lemma HeldIsValid(p: Plan, b: Books)
    requires forall a :: a in p.arts && (a.role.RECEIPT? || a.path.EvidenceBlob? || a.role.POST?) ==> Holds(b, a)
    requires forall q :: !Allowed(p, q) ==> SameAt(b, p.base, q)
    requires p.base.dirs <= b.dirs && (p.unlink ==> BarrierJson !in b.files)
    requires HeadJson in b.files && b.files[HeadJson] == p.nextHead
    ensures ValidRedo(p, b)
  {
    forall q | q in p.base.files && !Allowed(p, q) ensures q in b.files && b.files[q] == p.base.files[q] { assert SameAt(b, p.base, q); }
    forall q | q in b.files && !Allowed(p, q) ensures q in p.base.files { assert SameAt(b, p.base, q); }
  }

  lemma FinalEnds(t: Tariff, p: Plan)
    requires Accepts(t, p, HARD)
    ensures RedoEnds(t, p, Final(p))
  {
  }

  lemma FinalTurns(t: Tariff, p: Plan, f: Books)
    requires Charged(t, p, f, HARD) && forall k :: 0 <= k <= |PostsOf(p)| ==> PutAll(RedoStart(f), PostsOf(p)[..k]) == f
    ensures AffordsEach(t, p, RedoStart(f), PostsOf(p), false, HARD) && PutAll(RedoStart(f), PostsOf(p)) == f
  {
    var posts := PostsOf(p);
    assert posts[..|posts|] == posts;
    assert PutAll(RedoStart(f), posts[..|posts|]) == f;
    EachFrom(t, p, RedoStart(f), posts, HARD);
  }

  lemma AdvancedHasRoom(t: Tariff, p: Plan, published: seq<Art>, dropped: bool)
    requires Frozen(p) && Accepts(t, p, HARD) && CanStop(p, published, dropped, true)
    ensures RedoAccepts(t, p, Interrupted(p, published, dropped, true))
    ensures RedoFinal(p, Interrupted(p, published, dropped, true)) == Final(p)
  {
    AfterHeadIsValid(p, published, dropped);
    AdvancedIsFinal(p, published, dropped);
    FinalEnds(t, p);
    FinalTurns(t, p, Final(p));
  }

  lemma PendingHasRoom(t: Tariff, p: Plan, published: seq<Art>, dropped: bool)
    requires Frozen(p) && Accepts(t, p, HARD) && p.base.files[HeadJson] != p.nextHead
    requires CanStop(p, published, dropped, false)
    ensures RedoAccepts(t, p, Interrupted(p, published, dropped, false))
    ensures RedoFinal(p, Interrupted(p, published, dropped, false)) == Final(p)
  {
    var posts := PostsOf(p);
    BeforeHeadIsValid(p, published, dropped);
    RedoEndsSame(p, published, dropped);
    forall k | 0 <= k <= |posts| ensures Charged(t, p, PutAll(RedoStart(Interrupted(p, published, dropped, false)), posts[..k]), HARD) {
      RedoTurnCharged(t, p, published, dropped, k);
    }
    EachFrom(t, p, RedoStart(Interrupted(p, published, dropped, false)), posts, HARD);
  }

  /** Redo never runs out of room. A plan that was accepted can be redone from every
      inventory its interruption can leave, and the redo ends in the same inventory. */
  lemma RedoHasRoom(t: Tariff, p: Plan, published: seq<Art>, dropped: bool, advanced: bool)
    requires Frozen(p) && Accepts(t, p, HARD) && p.base.files[HeadJson] != p.nextHead
    requires CanStop(p, published, dropped, advanced)
    ensures RedoAccepts(t, p, Interrupted(p, published, dropped, advanced))
    ensures RedoFinal(p, Interrupted(p, published, dropped, advanced)) == Final(p)
  {
    if advanced { AdvancedHasRoom(t, p, published, dropped); } else { PendingHasRoom(t, p, published, dropped); }
  }
}
