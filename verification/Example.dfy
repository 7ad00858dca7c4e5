/** One whole store and one request for it: the first receipt, what it posts, a plan that
    creates a ticket, and the crash and failed rename after which no session is served. */
module Example {
  import opened Wrappers
  import opened Documents
  import opened Publication
  import opened Commit
  import opened Audit
  import opened Recovery
  import opened Refinement
  import opened Staging
  import opened Completion

  const VERSION_FILE := Raw(VERSION_BYTES)
  const QUEUE_FILE := Raw("the queue")
  const POLICY_FILE := Raw("the policy")
  const RESERVATIONS_FILE := Raw("no reservations")
  const DESCRIPTOR_FILE := Raw("the INIT descriptor")

  function Posted(p: Path, f: File): Entry { Entry(p, None, Some(Sum(f)), Some(f), None) }

  const INIT := ReceiptDoc(1, None, "INIT", None, None, 0,
                           [Entry(Version, None, Some(Sum(VERSION_FILE)), None, Some(Sum(VERSION_FILE))),
                            Posted(Queue, QUEUE_FILE), Posted(Policy, POLICY_FILE), Posted(Reservations, RESERVATIONS_FILE),
                            Posted(Pinned(Sum(DESCRIPTOR_FILE)), DESCRIPTOR_FILE)],
                           "COMPLETED", [])

  const HEAD := HeadDoc("queue:acme:main", 1, Sum(ReceiptFile(INIT)), 0, Sum(ReceiptFile(INIT)), "/repository", Sum(VERSION_FILE))

  const STORE: Disk := map[Path.Head := HeadFile(HEAD), Receipt(1) := ReceiptFile(INIT), Evidence(Sum(VERSION_FILE)) := VERSION_FILE,
                           Version := VERSION_FILE, Queue := QUEUE_FILE, Policy := POLICY_FILE, Reservations := RESERVATIONS_FILE,
                           Pinned(Sum(DESCRIPTOR_FILE)) := DESCRIPTOR_FILE]

  const TICKET := TicketDoc("T-0001", 1, 1, "the first ticket")
  const ASKED := Asked("queue:acme:main", "9f1c2a34-0000-4000-8000-000000000001", Sum(Raw("{}")), "MUTATION")
  const POSTS := [Post(Ticket("T-0001"), Some(TicketFile(TICKET)), true)]

  lemma InitFound()
    ensures EntryFor(INIT.entries, Version) == Some(INIT.entries[0]) && EntryFor(INIT.entries, Queue) == Some(INIT.entries[1])
    ensures EntryFor(INIT.entries, Policy) == Some(INIT.entries[2]) && EntryFor(INIT.entries, Reservations) == Some(INIT.entries[3])
    ensures EntryFor(INIT.entries, Pinned(Sum(DESCRIPTOR_FILE))) == Some(INIT.entries[4])
  {
    EntryForAt(INIT.entries, 0);
    EntryForAt(INIT.entries, 1);
    EntryForAt(INIT.entries, 2);
    EntryForAt(INIT.entries, 3);
    EntryForAt(INIT.entries, 4);
  }

  lemma InitFits()
    ensures ReceiptFits(STORE, [], HEAD, INIT)
  {
    InitFound();
    forall i | 0 <= i < |INIT.entries| ensures EntryFits(STORE, [], INIT, INIT.entries[i]) {
      assert i == 0 || i == 1 || i == 2 || i == 3 || i == 4;
    }
  }

  lemma StoreProjects()
    ensures ProjectionsFit(STORE, [INIT], 1, None, true)
  {
    InitFound();
    assert [INIT][..0] == [];
    forall p ensures LatestOf([INIT], p) == (match EntryFor(INIT.entries, p) case Some(e) => Some(Latest(1, e.post, e.pre)) case None => None) {
      assert LatestOf([], p) == None;
    }
    forall p | EntryFor(INIT.entries, p).Some? ensures p == Version || p == Queue || p == Policy || p == Reservations || p == Pinned(Sum(DESCRIPTOR_FILE)) {
      EntryForIn(INIT.entries, p);
    }
  }

  lemma StoreJournal()
    ensures JournalFits(STORE) && HeadOf(STORE) == Some(HEAD) && Retained(STORE, HEAD) == 1 && History(STORE, 1) == [INIT]
  {
    assert ReceiptOf(STORE, 1) == Some(INIT);
    assert History(STORE, 0) == [];
    InitFits();
    hide ReceiptFits;
    assert Chained(STORE, HEAD, [INIT]) by { assert [INIT][..0] == []; }
  }

  /** The audit agrees with the store. */
  lemma StoreAgrees()
    ensures Agrees(STORE) && HeadOf(STORE) == Some(HEAD)
  {
    StoreJournal();
    StoreProjects();
    hide JournalFits, ProjectionsFit, History;
  }

  lemma StoreAddressed()
    ensures Addressed(STORE)
  {
  }

  function AllOf(): seq<Post> { AllPosts(ASKED, HEAD, POSTS, OnTicket(TICKET)) }

  lemma PostsFreeze()
    ensures |AllOf()| == 2 && BlobArts(STORE, AllOf(), AllOf()) == [] && |PostArts(AllOf())| == 2
    ensures ContentNamed(AllOf()) && BlobsIntact(STORE, AllOf())
  {
    var all := AllOf();
    assert all[1..][1..] == [];
    assert BlobArts(STORE, all[1..][1..], all) == [] && BlobArts(STORE, all[1..], all) == [];
    assert PostArts(all[1..][1..]) == [];
  }

  function PlanFrozen(): Result<Plan> { Freeze(ASKED, STORE, HEAD, POSTS, OnTicket(TICKET)) }

  lemma PlanFreezes()
    ensures PlanFrozen().Ok? && NoDeletions(PlanFrozen().value.receipt)
  {
    PostsFreeze();
    hide BlobArts, PostArts, ContentNamed, BlobsIntact;
    var all := AllOf();
    var es := EntriesOf(STORE, all);
    assert es[0] == EntryOf(STORE, all[0]) && es[1] == EntryOf(STORE, all[1]);
    assert all == POSTS + [RequestPost(ASKED, 2, OnTicket(TICKET))];
  }

  function Transaction(): Tx
    requires PlanFrozen().Ok?
  {
    Tx(ASKED, STORE, HEAD, POSTS, OnTicket(TICKET), PlanFrozen().value)
  }

  /** A transaction to speak of: the store agrees, and the request is planned over it. */
  lemma RequestPlanned()
    ensures PlanFrozen().Ok? && Planned(Transaction(), None) && NoDeletions(Transaction().plan.receipt)
  {
    PlanFreezes();
    StoreAgrees();
    StoreAddressed();
    hide Fits, Freeze, Addressed;
    assert POSTS[0].path == Ticket(TICKET.local);
  }

  /** Its crash just before the head, the failed rename, and the refusal ever after. */
  method NeverServedAgain(later: nat -> Fault) returns (left: set<nat>, again: Option<Code>)
    ensures left != {} && again == Some(Malformed)
  {
    RequestPlanned();
    hide Planned, Freeze, Actions, Publication.Run;
    var t := Transaction();
    CrashBeforeHead(t);
    left, again := HeadRenameFails(t, Publication.Run(t.d0, Actions(t.plan)[..|Actions(t.plan)| - 1], t.plan.receipt).value, later);
  }
}
