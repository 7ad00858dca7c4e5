/** How one frozen transaction reaches the disk: the redo rule, the effect
    order, the plan that carries the artifacts, and the redo that finishes a
    committed receipt. Functions here say what one atomic step does; Session.dfy
    holds the methods that perform the steps. */
module Publication {
  import opened Wrappers
  import opened Documents

  datatype Role = EVIDENCE | RECEIPT | POST | HEAD

  datatype Artifact = Artifact(role: Role, target: Path, data: File)

  datatype Action = Put(art: Artifact) | DropBarrier(expected: Digest)

  datatype How = Skip | Create | Replace(expected: Digest)

  /** The redo rule: post bytes are settled, pre bytes or an absent file are
      written, and any third value is left alone. */
  function Settled(d: Disk, p: Path, want: Digest, pre: Option<Digest>): Result<How> {
    match DigestAt(d, p)
    case None => Ok(Create)
    case Some(found) =>
      if found == want then Ok(Skip)
      else if pre == Some(found) then Ok(Replace(found))
      else Err(if IntentPath(p) then IntentDiverged else JournalForked)
  }

  /** Destinations that are renamed over; everything else is link-created. */
  predicate Mutable(p: Path) {
    p.Head? || p.Barrier? || p.Reservations? || p.Queue? || p.Policy? || p.ImportMap? || p.Ticket? || p.Release? || p.Version?
  }

  function Decide(d: Disk, a: Artifact, pre: Option<Digest>): Result<How> {
    if a.role.POST? || a.role.EVIDENCE? then Settled(d, a.target, Sum(a.data), pre)
    else if !Mutable(a.target) then Ok(Create)
    else match DigestAt(d, a.target)
      case None => Ok(Create)
      case Some(current) => if current == Sum(a.data) then Ok(Skip) else Ok(Replace(current))
  }

  /** `link` creates and never clobbers; `rename` needs the expected digest, and
      succeeds without an effect when the destination already holds the bytes. */
  function Publish(d: Disk, a: Artifact, how: How): Result<Disk> {
    match how
    case Skip => Ok(d)
    case Create => if a.target in d then Err(SessionFault) else Ok(d[a.target := a.data])
    case Replace(expected) =>
      if !Mutable(a.target) || a.target !in d then Err(SessionFault)
      else if Sum(d[a.target]) == Sum(a.data) then Ok(d)
      else if Sum(d[a.target]) != expected then Err(SessionFault)
      else Ok(d[a.target := a.data])
  }

  function Drop(d: Disk, expected: Digest): Result<Disk> {
    if Barrier !in d then Ok(d)
    else if Sum(d[Barrier]) == expected then Ok(d - {Barrier})
    else Err(SessionFault)
  }

  function Perform(d: Disk, x: Action, rc: ReceiptDoc): Result<Disk> {
    match x
    case DropBarrier(expected) => Drop(d, expected)
    case Put(a) =>
      match Decide(d, a, PreOf(rc.entries, a.target))
      case Err(c) => Err(c)
      case Ok(how) => Publish(d, a, how)
  }

  /** All of `xs`, or the first refusal. */
  function Run(d: Disk, xs: seq<Action>, rc: ReceiptDoc): Result<Disk>
    decreases |xs|
  {
    if xs == [] then Ok(d)
    else match Perform(d, xs[0], rc)
      case Err(c) => Err(c)
      case Ok(d') => Run(d', xs[1..], rc)
  }

  lemma {:induction false} RunSplit(d: Disk, xs: seq<Action>, ys: seq<Action>, rc: ReceiptDoc)
    ensures Run(d, xs + ys, rc) == (match Run(d, xs, rc) case Err(c) => Err(c) case Ok(m) => Run(m, ys, rc))
    decreases |xs|
  {
    if xs == [] {
      assert xs + ys == ys;
    } else {
      assert (xs + ys)[0] == xs[0] && (xs + ys)[1..] == xs[1..] + ys;
      match Perform(d, xs[0], rc)
      case Err(_) =>
      case Ok(m) => RunSplit(m, xs[1..], ys, rc);
    }
  }

  // ----- the effect order -----

  function Phase(a: Artifact): nat {
    match a.role
    case EVIDENCE => 0
    case RECEIPT => 1
    case POST => if a.target.Evidence? then 0 else 2
    case HEAD => 3
  }

  function InPhase(arts: seq<Artifact>, k: nat): seq<Artifact> {
    if arts == [] then []
    else if Phase(arts[0]) == k then [arts[0]] + InPhase(arts[1..], k)
    else InPhase(arts[1..], k)
  }

  function Puts(arts: seq<Artifact>): (xs: seq<Action>)
    ensures |xs| == |arts| && forall i :: 0 <= i < |xs| ==> xs[i] == Put(arts[i])
  {
    seq(|arts|, i requires 0 <= i < |arts| => Put(arts[i]))
  }

  function Drops(es: seq<Entry>): seq<Action> {
    if es == [] then []
    else if Deletes(es[0]) && es[0].pre.Some? then [DropBarrier(es[0].pre.value)]
    else Drops(es[1..])
  }

  datatype Plan = Plan(artifacts: seq<Artifact>, receipt: ReceiptDoc, head: HeadDoc)

  /** Evidence, then the receipt (the commit point), then the posts and the
      barrier deletion, then the head. */
  function Actions(p: Plan): seq<Action> {
    Puts(InPhase(p.artifacts, 0)) + Puts(InPhase(p.artifacts, 1)) + Puts(InPhase(p.artifacts, 2))
    + Drops(p.receipt.entries) + Puts(InPhase(p.artifacts, 3))
  }

  // ----- freezing a plan -----

  /** One post: its bytes (None deletes) and whether they are small enough to
      travel inside the receipt. */
  datatype Post = Post(path: Path, file: Option<File>, inline: bool)

  datatype TicketEffect = NoTicket | OnTicket(post: TicketDoc)

  datatype Asked = Asked(queueId: string, requestId: string, mutation: Digest, kind: string)

  function OutcomeOf(q: Asked, n: nat, eff: TicketEffect): Outcome {
    Outcome(q.requestId, "COMPLETED", false,
            if eff.OnTicket? then Some(eff.post.revision) else None,
            if eff.OnTicket? then Some(eff.post.acceptance) else None,
            Some(n), [])
  }

  function RequestPost(q: Asked, n: nat, eff: TicketEffect): Post {
    Post(Request(q.requestId), Some(RequestFile(RequestDoc(q.requestId, n, q.mutation, OutcomeOf(q, n, eff)))), true)
  }

  predicate Inlined(p: Post) {
    !p.path.Version? && !p.path.Evidence? && p.inline
  }

  function EntryOf(inv: Disk, p: Post): Entry {
    match p.file
    case None => Entry(p.path, DigestAt(inv, p.path), None, None, None)
    case Some(f) =>
      if Inlined(p) then Entry(p.path, DigestAt(inv, p.path), Some(Sum(f)), Some(f), None)
      else Entry(p.path, DigestAt(inv, p.path), Some(Sum(f)), None, Some(Sum(f)))
  }

  function EntriesOf(inv: Disk, posts: seq<Post>): (es: seq<Entry>)
    ensures |es| == |posts| && forall i :: 0 <= i < |es| ==> es[i] == EntryOf(inv, posts[i])
  {
    seq(|posts|, i requires 0 <= i < |posts| => EntryOf(inv, posts[i]))
  }

  function PostArts(posts: seq<Post>): seq<Artifact> {
    if posts == [] then []
    else (if posts[0].file.Some? then [Artifact(POST, posts[0].path, posts[0].file.value)] else []) + PostArts(posts[1..])
  }

  predicate HasPath(posts: seq<Post>, p: Path) {
    exists i :: 0 <= i < |posts| && posts[i].path == p
  }

  predicate Targets(arts: seq<Artifact>, p: Path) {
    exists i :: 0 <= i < |arts| && arts[i].target == p
  }

  /** The blobs the receipt names by digest that no file holds yet. */
  function BlobArts(inv: Disk, posts: seq<Post>, all: seq<Post>): seq<Artifact> {
    if posts == [] then []
    else
      var rest := BlobArts(inv, posts[1..], all);
      if posts[0].file.None? || Inlined(posts[0]) then rest
      else
        var blob := Evidence(Sum(posts[0].file.value));
        if blob in inv || HasPath(all, blob) || Targets(rest, blob) then rest
        else [Artifact(EVIDENCE, blob, posts[0].file.value)] + rest
  }

  predicate BlobsIntact(inv: Disk, posts: seq<Post>) {
    forall i :: 0 <= i < |posts| && posts[i].file.Some? && !Inlined(posts[i]) && Evidence(Sum(posts[i].file.value)) in inv ==>
      Sum(inv[Evidence(Sum(posts[i].file.value))]) == Sum(posts[i].file.value)
  }

  /** A content-addressed post names its own bytes. */
  predicate ContentNamed(posts: seq<Post>) {
    forall i :: 0 <= i < |posts| && posts[i].file.Some? ==>
      && (posts[i].path.Evidence? ==> posts[i].path.blob == Sum(posts[i].file.value))
      && (posts[i].path.Pinned? ==> posts[i].path.pin == Sum(posts[i].file.value))
  }

  function HeadAfter(base: HeadDoc, rc: ReceiptDoc): HeadDoc {
    base.(lastSeq := rc.seqNo, lastReceipt := Sum(ReceiptFile(rc)), generation := rc.headGeneration)
  }

  function Freeze(q: Asked, inv: Disk, base: HeadDoc, posts: seq<Post>, eff: TicketEffect): Result<Plan> {
    if base.lastSeq >= MAX_RECEIPTS then Err(LimitExceeded)
    else if Request(q.requestId) in inv then Err(Malformed)
    else
      var n := base.lastSeq + 1;
      var all := posts + [RequestPost(q, n, eff)];
      var rc := ReceiptDoc(n, Some(base.lastReceipt), q.kind, Some(q.requestId),
                           if eff.OnTicket? then Some(eff.post.local) else None,
                           base.generation, EntriesOf(inv, all), "COMPLETED", []);
      var head := HeadDoc(q.queueId, n, Sum(ReceiptFile(rc)), base.generation, base.init, base.primary, base.version);
      var arts := BlobArts(inv, all, all) + [Artifact(HEAD, Path.Head, HeadFile(head))] + PostArts(all)
                  + [Artifact(RECEIPT, Receipt(n), ReceiptFile(rc))];
      if !ContentNamed(all) || !ValidReceipt(rc) || !BlobsIntact(inv, all) then Err(Malformed)
      else if |arts| > 11 then Err(LimitExceeded)
      else Ok(Plan(arts, rc, head))
  }

  // ----- redo -----

  /** One post entry of a pending receipt, republished by the same rule as the
      first write. */
  function RedoEntry(d: Disk, e: Entry, rc: ReceiptDoc): Result<Disk> {
    if Deletes(e) then Err(Unsupported)
    else match PostBytes(d, e)
      case Err(c) => Err(c)
      case Ok(f) => Perform(d, Put(Artifact(POST, e.path, f)), rc)
  }

  function RedoEntries(d: Disk, es: seq<Entry>, rc: ReceiptDoc): Result<Disk>
    decreases |es|
  {
    if es == [] then Ok(d)
    else match RedoEntry(d, es[0], rc)
      case Err(c) => Err(c)
      case Ok(d') => RedoEntries(d', es[1..], rc)
  }

  /** Advance the head to the receipt: a link when there is no head, else a rename
      under the digest just read. */
  function AdvanceHead(d: Disk, base: HeadDoc, rc: ReceiptDoc): Disk {
    d[Path.Head := HeadFile(HeadAfter(base, rc))]
  }

  /** Redo interrupted after `k` entries; `k == |entries| + 1` is a complete redo. */
  function RedoTo(d: Disk, base: HeadDoc, rc: ReceiptDoc, k: nat): Result<Disk> {
    if k <= |rc.entries| then RedoEntries(d, rc.entries[..k], rc)
    else match RedoEntries(d, rc.entries, rc)
      case Err(c) => Err(c)
      case Ok(d') => Ok(AdvanceHead(d', base, rc))
  }
}
