/** The audit: refold every retained receipt and compare the fold with the disk.
    The predicates say what a store must satisfy; the method is the walk. */
module Audit {
  import opened Wrappers
  import opened Documents

  /** The latest canonical afterimage of one path, and the pre digest beside it. */
  datatype Latest = Latest(seqNo: nat, digest: Option<Digest>, pre: Option<Digest>)

  function EntryFor(es: seq<Entry>, p: Path): Option<Entry> {
    if es == [] then None
    else if es[|es| - 1].path == p then Some(es[|es| - 1])
    else EntryFor(es[..|es| - 1], p)
  }

  function LatestOf(h: seq<ReceiptDoc>, p: Path): Option<Latest> {
    if h == [] then None
    else
      var rc := h[|h| - 1];
      match EntryFor(rc.entries, p)
      case Some(e) => Some(Latest(rc.seqNo, e.post, e.pre))
      case None => LatestOf(h[..|h| - 1], p)
  }

  /** Receipts 1 to `m` as they stand on the disk. */
  function History(d: Disk, m: nat): (h: seq<ReceiptDoc>)
    ensures (forall k :: 1 <= k <= m ==> ReceiptOf(d, k).Some?) ==> |h| == m && forall i :: 0 <= i < m ==> Some(h[i]) == ReceiptOf(d, i + 1)
  {
    if m == 0 then []
    else match ReceiptOf(d, m)
      case None => History(d, m - 1)
      case Some(rc) => History(d, m - 1) + [rc]
  }

  /** How many receipts a store with this head retains: the head's own, and the
      one pending beyond it. */
  function Retained(d: Disk, head: HeadDoc): nat {
    if Receipt(head.lastSeq + 1) in d then head.lastSeq + 1 else head.lastSeq
  }

  predicate IsPending(d: Disk, head: HeadDoc) {
    Receipt(head.lastSeq + 1) in d
  }

  predicate NamedByContent(p: Path, sha: Digest) {
    (p.Evidence? ==> p.blob == sha) && (p.Pinned? ==> p.pin == sha)
  }

  predicate RequestBinds(rc: ReceiptDoc, p: Path, f: File)
    requires p.Request?
  {
    && f.RequestFile?
    && rc.requestId == Some(f.request.requestId)
    && p.requestId == f.request.requestId
    && f.request.seqNo == rc.seqNo
    && f.request.outcome.outcome == rc.outcome
    && f.request.outcome.codes == rc.codes
  }

  predicate EntryFits(d: Disk, h: seq<ReceiptDoc>, rc: ReceiptDoc, e: Entry) {
    && (e.path.Request? ==> LatestOf(h, e.path).None?)
    && (Deletes(e) ==> !e.path.Request?)
    && (rc.seqNo == 1 ==> e.pre.None? && !Deletes(e))
    && (!Deletes(e) ==>
          && PostBytes(d, e).Ok?
          && NamedByContent(e.path, e.post.value)
          && (e.path.Version? ==> rc.seqNo == 1 && PostBytes(d, e).value == Raw(VERSION_BYTES))
          && (e.path.Ticket? ==> PostBytes(d, e).value.TicketFile? && PostBytes(d, e).value.ticket.local == e.path.local)
          && (e.path.Request? ==> RequestBinds(rc, e.path, PostBytes(d, e).value)))
  }

  /** The revisions a completed request claims are those of the posted ticket. */
  predicate RevisionsBound(rc: ReceiptDoc, request: Option<RequestDoc>, target: Option<TicketDoc>) {
    request.Some? && request.value.outcome.outcome == "COMPLETED" ==>
      var out := request.value.outcome;
      if rc.ticket.None? then out.revision.None? && out.acceptance.None?
      else
        && target.Some? && target.value.local == rc.ticket.value
        && out.revision == Some(target.value.revision)
        && out.acceptance == Some(target.value.acceptance)
  }

  function RequestIn(d: Disk, rc: ReceiptDoc): Option<RequestDoc> {
    match rc.requestId
    case None => None
    case Some(id) =>
      match EntryFor(rc.entries, Request(id))
      case None => None
      case Some(e) =>
        if !Deletes(e) && PostBytes(d, e).Ok? && PostBytes(d, e).value.RequestFile? then Some(PostBytes(d, e).value.request) else None
  }

  function TargetIn(d: Disk, rc: ReceiptDoc): Option<TicketDoc> {
    match rc.ticket
    case None => None
    case Some(local) =>
      match EntryFor(rc.entries, Ticket(local))
      case None => None
      case Some(e) =>
        if !Deletes(e) && PostBytes(d, e).Ok? && PostBytes(d, e).value.TicketFile? then Some(PostBytes(d, e).value.ticket) else None
  }

  predicate Genesis(rc: ReceiptDoc) {
    && EntryFor(rc.entries, Version).Some?
    && EntryFor(rc.entries, Queue).Some?
    && EntryFor(rc.entries, Policy).Some?
    && EntryFor(rc.entries, Reservations).Some?
  }

  /** What the walk demands of one receipt after the history `h`. */
  predicate ReceiptFits(d: Disk, h: seq<ReceiptDoc>, head: HeadDoc, rc: ReceiptDoc) {
    && ValidReceipt(rc)
    && rc.seqNo == |h| + 1
    && rc.prev == (if h == [] then None else Some(Sum(ReceiptFile(h[|h| - 1]))))
    && (h != [] ==> h[|h| - 1].headGeneration <= rc.headGeneration)
    && (h == [] ==> head.init == Sum(ReceiptFile(rc)) && Genesis(rc))
    && (rc.seqNo == head.lastSeq ==> head.lastReceipt == Sum(ReceiptFile(rc)) && head.generation == rc.headGeneration)
    && (forall i :: 0 <= i < |rc.entries| ==> EntryFits(d, h, rc, rc.entries[i]))
    && (rc.requestId.Some? ==> RequestIn(d, rc).Some?)
    && RevisionsBound(rc, RequestIn(d, rc), TargetIn(d, rc))
  }

  ghost predicate Contiguous(d: Disk, m: nat) {
    forall k: nat :: Receipt(k) in d <==> 1 <= k <= m
  }

  predicate Decodable(d: Disk, m: nat) {
    forall k :: 1 <= k <= m ==> ReceiptOf(d, k).Some?
  }

  predicate Chained(d: Disk, head: HeadDoc, h: seq<ReceiptDoc>) {
    forall i :: 0 <= i < |h| ==> ReceiptFits(d, h[..i], head, h[i])
  }

  ghost predicate JournalFits(d: Disk) {
    && HeadOf(d).Some?
    && var head := HeadOf(d).value;
       var m := Retained(d, head);
       && head.lastSeq >= 1 && Contiguous(d, m) && Decodable(d, m) && Chained(d, head, History(d, m))
  }

  /** A file the projection scan tolerates without a retained afterimage. */
  predicate Exempt(p: Path) {
    p.Head? || p.Receipt? || p.Evidence? || p.Pinned?
  }

  predicate InScope(p: Path, except: Option<Path>, intent: bool) {
    Some(p) != except && (intent || !IntentPath(p))
  }

  predicate ProjectionFits(d: Disk, p: Path, l: Latest, open: bool) {
    DigestAt(d, p) == l.digest || (open && DigestAt(d, p) == l.pre)
  }

  /** Every retained afterimage is on the disk (or, for the pending receipt, its
      pre), and nothing is on the disk without one. */
  ghost predicate ProjectionsFit(d: Disk, h: seq<ReceiptDoc>, settledUpTo: nat, except: Option<Path>, intent: bool) {
    && (forall p :: LatestOf(h, p).Some? && InScope(p, except, intent) ==>
          ProjectionFits(d, p, LatestOf(h, p).value, LatestOf(h, p).value.seqNo > settledUpTo))
    && (forall p :: p in d && (intent || !IntentPath(p)) ==> LatestOf(h, p).Some? || Exempt(p))
  }

  /** The audit agrees apart from `except`; with a pending receipt the agreement is
      PRE_OR_POST. */
  ghost predicate Fits(d: Disk, except: Option<Path>, intent: bool) {
    JournalFits(d) && ProjectionsFit(d, History(d, Retained(d, HeadOf(d).value)), HeadOf(d).value.lastSeq, except, intent)
  }

  ghost predicate Agrees(d: Disk) {
    Fits(d, None, true) && !IsPending(d, HeadOf(d).value)
  }

  ghost predicate PreOrPost(d: Disk) {
    Fits(d, None, true) && IsPending(d, HeadOf(d).value)
  }

  // ----- the history is a function of the receipts alone -----

  lemma {:induction false} EntryForAt(es: seq<Entry>, i: nat)
    requires i < |es|
    requires forall i, j :: 0 <= i < j < |es| ==> es[i].path != es[j].path
    ensures EntryFor(es, es[i].path) == Some(es[i])
  {
    if i != |es| - 1 {
      assert es[i].path != es[|es| - 1].path;
      EntryForAt(es[..|es| - 1], i);
    }
  }

  lemma {:induction false} EntryForIn(es: seq<Entry>, p: Path)
    ensures EntryFor(es, p).Some? ==> EntryFor(es, p).value in es && EntryFor(es, p).value.path == p
    ensures EntryFor(es, p).None? ==> forall e :: e in es ==> e.path != p
  {
    if es != [] {
      EntryForIn(es[..|es| - 1], p);
      assert es == es[..|es| - 1] + [es[|es| - 1]];
    }
  }

  /** One fitting receipt posts a request path exactly for its own request. */
  lemma RequestPosted(d: Disk, head: HeadDoc, h: seq<ReceiptDoc>, rc: ReceiptDoc, id: string)
    requires ReceiptFits(d, h, head, rc)
    ensures EntryFor(rc.entries, Request(id)).Some? <==> rc.requestId == Some(id)
    ensures EntryFor(rc.entries, Request(id)).Some? ==> EntryFor(rc.entries, Request(id)).value.post.Some?
  {
    EntryForIn(rc.entries, Request(id));
    if EntryFor(rc.entries, Request(id)).Some? {
      var e := EntryFor(rc.entries, Request(id)).value;
      var j :| 0 <= j < |rc.entries| && rc.entries[j] == e;
      assert EntryFits(d, h, rc, rc.entries[j]);
    }
  }

  /** A request path in the fold was posted by the receipt of that request. */
  lemma {:induction false} LatestRequest(d: Disk, head: HeadDoc, h: seq<ReceiptDoc>, id: string)
    requires Chained(d, head, h)
    ensures LatestOf(h, Request(id)).Some? <==> exists i :: 0 <= i < |h| && h[i].requestId == Some(id)
    ensures LatestOf(h, Request(id)).Some? ==> LatestOf(h, Request(id)).value.digest.Some?
  {
    hide ReceiptFits, EntryFor, EntryFits;
    if h != [] {
      var init, rc := h[..|h| - 1], h[|h| - 1];
      ChainedPrefix(d, head, h, |h| - 1);
      LatestRequest(d, head, init, id);
      assert ReceiptFits(d, init, head, rc);
      RequestPosted(d, head, init, rc, id);
      assert h == init + [rc];
      assert (exists i :: 0 <= i < |h| && h[i].requestId == Some(id)) <==>
             rc.requestId == Some(id) || exists i :: 0 <= i < |init| && init[i].requestId == Some(id) by {
        if rc.requestId == Some(id) { assert h[|h| - 1].requestId == Some(id); }
        if i :| 0 <= i < |init| && init[i].requestId == Some(id) { assert h[i].requestId == Some(id); }
      }
    }
  }

  lemma ChainedPrefix(d: Disk, head: HeadDoc, h: seq<ReceiptDoc>, n: nat)
    requires Chained(d, head, h) && n <= |h|
    ensures Chained(d, head, h[..n])
  {
    forall i | 0 <= i < n ensures ReceiptFits(d, h[..n][..i], head, h[..n][i]) {
      assert h[..n][..i] == h[..i];
    }
  }

  /** The receipt pending on a validated store fits the chain before it. */
  lemma PendingLast(d: Disk)
    requires PreOrPost(d)
    ensures HeadOf(d).Some?
    ensures var head := HeadOf(d).value; var n := head.lastSeq;
      && n >= 1 && Contiguous(d, n + 1) && Decodable(d, n + 1) && Chained(d, head, History(d, n + 1))
      && ReceiptOf(d, n + 1).Some? && |History(d, n + 1)| == n + 1
      && ReceiptFits(d, History(d, n + 1)[..n], head, ReceiptOf(d, n + 1).value)
  {
    hide ReceiptFits, ReceiptOf, ProjectionsFit;
    var head := HeadOf(d).value;
    var n := head.lastSeq;
    var h := History(d, n + 1);
    assert Decodable(d, n + 1);
    assert Some(h[n]) == ReceiptOf(d, n + 1);
    assert ReceiptFits(d, h[..n], head, h[n]);
  }

  /** The receipt that the head names is there. */
  lemma HeadReceipt(d: Disk)
    requires JournalFits(d)
    ensures var head := HeadOf(d).value;
      Receipt(head.lastSeq) in d && Sum(d[Receipt(head.lastSeq)]) == head.lastReceipt && Receipt(head.lastSeq + 2) !in d
  {
    hide EntryFits, LatestOf, RevisionsBound, RequestIn;
    var head := HeadOf(d).value;
    var m := Retained(d, head);
    var h := History(d, m);
    var i := head.lastSeq - 1;
    assert Decodable(d, m) && Contiguous(d, m);
    assert Some(h[i]) == ReceiptOf(d, i + 1);
    assert ReceiptFits(d, h[..i], head, h[i]);
  }

  lemma FitsValid(d: Disk, h: seq<ReceiptDoc>, head: HeadDoc, rc: ReceiptDoc)
    requires ReceiptFits(d, h, head, rc)
    ensures ValidReceipt(rc) && rc.seqNo == |h| + 1
    ensures forall i :: 0 <= i < |rc.entries| ==> PostPath(rc.entries[i].path) && EntryFits(d, h, rc, rc.entries[i])
  {
    hide EntryFits;
    forall i | 0 <= i < |rc.entries| ensures PostPath(rc.entries[i].path) { assert ValidEntry(rc.entries[i], rc.kind); }
  }

  // ----- the walk -----

  datatype Agreement = AGREES | ALL_EXCEPT_TARGET_AGREE | PRIVATE_AGREES_INTENT_NOT_OBSERVED | PRE_OR_POST

  /** `code` is None for AGREES, RedoPending for a validated pending receipt. */
  datatype Finding = Finding(code: Option<Code>, agreement: Option<Agreement>, pending: bool, lastSeq: nat,
                             lastReceipt: Option<Digest>, found: Option<RequestDoc>)

  function Refusal(code: Code): Finding { Finding(Some(code), None, false, 0, None, None) }

  /** The request the history records under `id`. */
  function Recorded(d: Disk, h: seq<ReceiptDoc>, id: string): Option<RequestDoc> {
    if h == [] then None
    else if h[|h| - 1].requestId == Some(id) then RequestIn(d, h[|h| - 1])
    else Recorded(d, h[..|h| - 1], id)
  }

  /** `canonical` holds exactly the fold of `h` and the first `j` entries of `rc`. */
  ghost predicate Folds(canonical: map<Path, Latest>, h: seq<ReceiptDoc>, rc: ReceiptDoc, j: nat)
    requires j <= |rc.entries|
  {
    forall p :: (if p in canonical then Some(canonical[p]) else None) ==
      (match EntryFor(rc.entries[..j], p)
       case Some(e) => Some(Latest(rc.seqNo, e.post, e.pre))
       case None => LatestOf(h, p))
  }

  ghost predicate FoldsAll(canonical: map<Path, Latest>, h: seq<ReceiptDoc>) {
    forall p :: (if p in canonical then Some(canonical[p]) else None) == LatestOf(h, p)
  }

  lemma FoldStep(canonical: map<Path, Latest>, h: seq<ReceiptDoc>, rc: ReceiptDoc, j: nat)
    requires j < |rc.entries| && Folds(canonical, h, rc, j)
    ensures Folds(canonical[rc.entries[j].path := Latest(rc.seqNo, rc.entries[j].post, rc.entries[j].pre)], h, rc, j + 1)
  {
    assert rc.entries[..j + 1][..j] == rc.entries[..j];
  }

  lemma FoldDone(canonical: map<Path, Latest>, h: seq<ReceiptDoc>, rc: ReceiptDoc)
    requires Folds(canonical, h, rc, |rc.entries|)
    ensures FoldsAll(canonical, h + [rc])
  {
    assert rc.entries[..|rc.entries|] == rc.entries;
    assert (h + [rc])[..|h|] == h;
  }

  lemma NotYetFolded(canonical: map<Path, Latest>, h: seq<ReceiptDoc>, rc: ReceiptDoc, j: nat)
    requires ValidReceipt(rc) && j < |rc.entries| && Folds(canonical, h, rc, j)
    ensures rc.entries[j].path in canonical <==> LatestOf(h, rc.entries[j].path).Some?
  {
    EntryForIn(rc.entries[..j], rc.entries[j].path);
    assert forall i :: 0 <= i < j ==> rc.entries[..j][i].path != rc.entries[j].path;
  }

  /** The checks of one entry, with the fold so far deciding a repeated request. */
  method WalkEntry(d: Disk, h: seq<ReceiptDoc>, rc: ReceiptDoc, j: nat, canonical: map<Path, Latest>) returns (ok: bool, post: Option<File>)
    requires ValidReceipt(rc) && j < |rc.entries| && Folds(canonical, h, rc, j)
    ensures ok <==> EntryFits(d, h, rc, rc.entries[j])
    ensures ok && !Deletes(rc.entries[j]) ==> post.Some? && PostBytes(d, rc.entries[j]) == Result.Ok(post.value)
    ensures ok && Deletes(rc.entries[j]) ==> post.None?
  {
    var e := rc.entries[j];
    assert ValidEntry(e, rc.kind);
    NotYetFolded(canonical, h, rc, j);
    if e.path.Request? && e.path in canonical { return false, None; }
    if rc.seqNo == 1 && (e.pre.Some? || Deletes(e)) { return false, None; }
    if Deletes(e) { return true, None; }
    match PostBytes(d, e) {
      case Err(_) => return false, None;
      case Ok(f) =>
        if !NamedByContent(e.path, e.post.value)
           || (e.path.Version? && (rc.seqNo != 1 || f != Raw(VERSION_BYTES)))
           || (e.path.Ticket? && !(f.TicketFile? && f.ticket.local == e.path.local))
           || (e.path.Request? && !RequestBinds(rc, e.path, f)) {
          return false, None;
        }
        return true, Some(f);
    }
  }

  /** The entries of one receipt: every check of the inner loop, and the fold. */
  method WalkEntries(d: Disk, h: seq<ReceiptDoc>, rc: ReceiptDoc, before: map<Path, Latest>)
    returns (ok: bool, canonical: map<Path, Latest>, request: Option<RequestDoc>, target: Option<TicketDoc>)
    requires ValidReceipt(rc) && FoldsAll(before, h)
    ensures ok <==> forall i :: 0 <= i < |rc.entries| ==> EntryFits(d, h, rc, rc.entries[i])
    ensures ok ==> FoldsAll(canonical, h + [rc])
    ensures ok ==> request == RequestIn(d, rc) && target == TargetIn(d, rc)
  {
    hide RevisionsBound;
    canonical, request, target := before, None, None;
    var j := 0;
    while j < |rc.entries|
      invariant j <= |rc.entries|
      invariant forall i :: 0 <= i < j ==> EntryFits(d, h, rc, rc.entries[i])
      invariant Folds(canonical, h, rc, j)
      invariant request == if SeesRequest(rc, j) then RequestIn(d, rc) else None
      invariant target == if SeesTarget(rc, j) then TargetIn(d, rc) else None
    {
      var e := rc.entries[j];
      var fits, post := WalkEntry(d, h, rc, j, canonical);
      if !fits { return false, canonical, request, target; }
      EntryForAt(rc.entries, j);
      SeesMore(rc, j);
      if e.path.Request? { request := Some(post.value.request); }
      if e.path.Ticket? && !Deletes(e) && rc.ticket == Some(e.path.local) { target := Some(post.value.ticket); }
      FoldStep(canonical, h, rc, j);
      canonical := canonical[e.path := Latest(rc.seqNo, e.post, e.pre)];
      j := j + 1;
    }
    FoldDone(canonical, h, rc);
    assert rc.entries[..j] == rc.entries;
    ok := true;
  }

  predicate SeesRequest(rc: ReceiptDoc, j: nat)
    requires j <= |rc.entries|
  {
    rc.requestId.Some? && EntryFor(rc.entries[..j], Request(rc.requestId.value)).Some?
  }

  predicate SeesTarget(rc: ReceiptDoc, j: nat)
    requires j <= |rc.entries|
  {
    rc.ticket.Some? && EntryFor(rc.entries[..j], Ticket(rc.ticket.value)).Some?
  }

  lemma SeesMore(rc: ReceiptDoc, j: nat)
    requires j < |rc.entries|
    ensures SeesRequest(rc, j + 1) <==> SeesRequest(rc, j) || (rc.requestId.Some? && rc.entries[j].path == Request(rc.requestId.value))
    ensures SeesTarget(rc, j + 1) <==> SeesTarget(rc, j) || (rc.ticket.Some? && rc.entries[j].path == Ticket(rc.ticket.value))
  {
    assert rc.entries[..j + 1][..j] == rc.entries[..j];
  }

  /** Every retained afterimage against the disk. */
  method CompareFold(d: Disk, canonical: map<Path, Latest>, settledUpTo: nat, except: Option<Path>, intent: bool) returns (bad: Option<Path>)
    ensures bad.None? <==> forall p :: p in canonical && InScope(p, except, intent) ==>
      ProjectionFits(d, p, canonical[p], canonical[p].seqNo > settledUpTo)
  {
    var rest := canonical.Keys;
    while rest != {}
      invariant rest <= canonical.Keys
      invariant forall p :: p in canonical && p !in rest && InScope(p, except, intent) ==>
        ProjectionFits(d, p, canonical[p], canonical[p].seqNo > settledUpTo)
      decreases |rest|
    {
      var p :| p in rest;
      rest := rest - {p};
      if InScope(p, except, intent) && !ProjectionFits(d, p, canonical[p], canonical[p].seqNo > settledUpTo) { return Some(p); }
    }
    bad := None;
  }

  /** Every file present against the retained afterimages. */
  method CompareFiles(d: Disk, known: set<Path>, intent: bool) returns (bad: Option<Path>)
    ensures bad.None? <==> forall p :: p in d && (intent || !IntentPath(p)) ==> p in known || Exempt(p)
  {
    var files := d.Keys;
    while files != {}
      invariant files <= d.Keys
      invariant forall p :: p in d && p !in files && (intent || !IntentPath(p)) ==> p in known || Exempt(p)
      decreases |files|
    {
      var p :| p in files;
      files := files - {p};
      if (intent || !IntentPath(p)) && !Exempt(p) && p !in known { return Some(p); }
    }
    bad := None;
  }

  lemma FoldedProjections(d: Disk, h: seq<ReceiptDoc>, canonical: map<Path, Latest>, settledUpTo: nat, except: Option<Path>, intent: bool)
    requires FoldsAll(canonical, h)
    ensures ProjectionsFit(d, h, settledUpTo, except, intent) <==>
      && (forall p :: p in canonical && InScope(p, except, intent) ==> ProjectionFits(d, p, canonical[p], canonical[p].seqNo > settledUpTo))
      && (forall p :: p in d && (intent || !IntentPath(p)) ==> p in canonical.Keys || Exempt(p))
  {
    forall p ensures p in canonical <==> LatestOf(h, p).Some? {}
    forall p | p in canonical ensures LatestOf(h, p) == Some(canonical[p]) {}
  }

  /** The projection comparison over the folded map and over the files present. */
  method WalkProjections(d: Disk, h: seq<ReceiptDoc>, canonical: map<Path, Latest>, settledUpTo: nat, except: Option<Path>, intent: bool)
    returns (bad: Option<Code>)
    requires FoldsAll(canonical, h)
    ensures bad.None? <==> ProjectionsFit(d, h, settledUpTo, except, intent)
    ensures bad.Some? ==> bad.value == JournalForked || bad.value == IntentDiverged
  {
    FoldedProjections(d, h, canonical, settledUpTo, except, intent);
    var at := CompareFold(d, canonical, settledUpTo, except, intent);
    if at.None? { at := CompareFiles(d, canonical.Keys, intent); }
    bad := if at.None? then None else Some(if IntentPath(at.value) then IntentDiverged else JournalForked);
  }

  /** The receipt names on the disk are exactly 1 to `m`. */
  method ReceiptNames(d: Disk, m: nat) returns (ok: bool)
    ensures ok <==> Contiguous(d, m)
  {
    var i := 1;
    while i <= m
      invariant 1 <= i <= m + 1
      invariant forall k: nat :: 1 <= k < i ==> Receipt(k) in d
    {
      if Receipt(i) !in d { return false; }
      i := i + 1;
    }
    var files := d.Keys;
    while files != {}
      invariant files <= d.Keys
      invariant forall k: nat :: Receipt(k) in d && Receipt(k) !in files ==> 1 <= k <= m
      decreases |files|
    {
      var p :| p in files;
      files := files - {p};
      if p.Receipt? && !(1 <= p.seqNo <= m) {
        assert Receipt(p.seqNo) in d;
        return false;
      }
    }
    ok := true;
  }

  /** One receipt of the chain. */
  method WalkReceipt(d: Disk, h: seq<ReceiptDoc>, head: HeadDoc, rc: ReceiptDoc, canonical: map<Path, Latest>)
    returns (ok: bool, next: map<Path, Latest>, request: Option<RequestDoc>)
    requires FoldsAll(canonical, h)
    ensures ok <==> ReceiptFits(d, h, head, rc)
    ensures ok ==> FoldsAll(next, h + [rc]) && request == RequestIn(d, rc)
  {
    next, request := canonical, None;
    if !ValidReceipt(rc) || rc.seqNo != |h| + 1 || rc.prev != (if h == [] then None else Some(Sum(ReceiptFile(h[|h| - 1]))))
       || (h != [] && h[|h| - 1].headGeneration > rc.headGeneration)
       || (h == [] && (head.init != Sum(ReceiptFile(rc)) || !Genesis(rc)))
       || (rc.seqNo == head.lastSeq && (head.lastReceipt != Sum(ReceiptFile(rc)) || head.generation != rc.headGeneration)) {
      return false, next, request;
    }
    var target;
    ok, next, request, target := WalkEntries(d, h, rc, canonical);
    ok := ok && (rc.requestId.Some? ==> request.Some?) && RevisionsBound(rc, request, target);
  }

  /** The receipts 1 to `m`, folded in order. */
  method WalkChain(d: Disk, head: HeadDoc, m: nat, request: string)
    returns (ok: bool, h: seq<ReceiptDoc>, canonical: map<Path, Latest>, found: Option<RequestDoc>)
    ensures ok <==> Decodable(d, m) && Chained(d, head, History(d, m))
    ensures ok ==> h == History(d, m) && FoldsAll(canonical, h) && found == Recorded(d, h, request)
  {
    canonical, h, found := map[], [], None;
    while |h| < m
      invariant |h| <= m && Walked(d, head, h, canonical) && found == Recorded(d, h, request)
      decreases m - |h|
    {
      if ReceiptOf(d, |h| + 1).None? { return false, h, canonical, found; }
      var rc := ReceiptOf(d, |h| + 1).value;
      var fits, next, req := WalkReceipt(d, h, head, rc, canonical);
      WalkedSoFar(d, head, m, h, canonical);
      if !fits { return false, h, canonical, found; }
      WalkedMore(d, head, h, canonical, rc, next);
      if rc.requestId == Some(request) { found := req; }
      canonical, h := next, h + [rc];
    }
    WalkedAll(d, head, m, h, canonical);
    ok := true;
  }

  /** The first receipts are walked: chained, and folded into `canonical`. */
  ghost predicate Walked(d: Disk, head: HeadDoc, h: seq<ReceiptDoc>, canonical: map<Path, Latest>) {
    && (forall k :: 1 <= k <= |h| ==> ReceiptOf(d, k) == Some(h[k - 1]))
    && Chained(d, head, h)
    && FoldsAll(canonical, h)
  }

  lemma ChainedMore(d: Disk, head: HeadDoc, h: seq<ReceiptDoc>, rc: ReceiptDoc)
    requires Chained(d, head, h) && ReceiptFits(d, h, head, rc)
    ensures Chained(d, head, h + [rc])
  {
    forall k | 0 <= k < |h + [rc]| ensures ReceiptFits(d, (h + [rc])[..k], head, (h + [rc])[k]) {
      assert (h + [rc])[..k] == h[..k];
      if k == |h| { assert h[..k] == h; }
    }
  }

  lemma WalkedMore(d: Disk, head: HeadDoc, h: seq<ReceiptDoc>, canonical: map<Path, Latest>, rc: ReceiptDoc, next: map<Path, Latest>)
    requires Walked(d, head, h, canonical) && ReceiptOf(d, |h| + 1) == Some(rc)
    requires ReceiptFits(d, h, head, rc) && FoldsAll(next, h + [rc])
    ensures Walked(d, head, h + [rc], next)
    ensures (h + [rc])[..|h|] == h
  {
    ChainedMore(d, head, h, rc);
  }

  lemma {:induction false} WalkedSoFar(d: Disk, head: HeadDoc, m: nat, h: seq<ReceiptDoc>, canonical: map<Path, Latest>)
    requires Walked(d, head, h, canonical) && |h| < m
    requires ReceiptOf(d, |h| + 1).Some?
    ensures Decodable(d, m) && Chained(d, head, History(d, m)) ==> ReceiptFits(d, h, head, ReceiptOf(d, |h| + 1).value)
  {
    hide ReceiptFits;
    if Decodable(d, m) && Chained(d, head, History(d, m)) {
      var all := History(d, m);
      assert forall i :: 0 <= i < |h| ==> Some(all[i]) == ReceiptOf(d, i + 1) == Some(h[i]);
      assert all[..|h|] == h;
      assert ReceiptFits(d, all[..|h|], head, all[|h|]);
    }
  }

  lemma {:induction false} WalkedAll(d: Disk, head: HeadDoc, m: nat, h: seq<ReceiptDoc>, canonical: map<Path, Latest>)
    requires Walked(d, head, h, canonical) && |h| == m
    ensures Decodable(d, m) && History(d, m) == h
  {
    assert Decodable(d, m);
    assert forall i :: 0 <= i < m ==> Some(History(d, m)[i]) == ReceiptOf(d, i + 1) == Some(h[i]);
  }

  /** The whole audit of one observed disk: the verdict, and what it selected. */
  method Walk(d: Disk, except: Option<Path>, intent: bool, request: string) returns (f: Finding)
    ensures f.code == None <==> Fits(d, except, intent) && !IsPending(d, HeadOf(d).value)
    ensures f.code == Some(RedoPending) <==> Fits(d, except, intent) && IsPending(d, HeadOf(d).value)
    ensures f.agreement == Some(PRE_OR_POST) <==> f.code == Some(RedoPending)
    ensures f.agreement == Some(AGREES) <==> Fits(d, None, true) && f.code.None? && except.None? && intent
    ensures f.code == None || f.code == Some(RedoPending) ==>
      var h := History(d, Retained(d, HeadOf(d).value));
      f.found == Recorded(d, h, request) && f.lastSeq == |h| && h != [] && f.lastReceipt == Some(Sum(ReceiptFile(h[|h| - 1])))
  {
    if HeadOf(d).None? { return Refusal(Malformed); }
    var head := HeadOf(d).value;
    var m := Retained(d, head);
    var named := ReceiptNames(d, m);
    if head.lastSeq < 1 || !named { return Refusal(JournalForked); }
    var ok, h, canonical, found := WalkChain(d, head, m, request);
    if !ok { return Refusal(JournalForked); }
    var bad := WalkProjections(d, h, canonical, head.lastSeq, except, intent);
    if bad.Some? { return Refusal(bad.value); }
    var agreement := if m > head.lastSeq then PRE_OR_POST
                     else if !intent then PRIVATE_AGREES_INTENT_NOT_OBSERVED
                     else if except.Some? then ALL_EXCEPT_TARGET_AGREE else AGREES;
    f := Finding(if m > head.lastSeq then Some(RedoPending) else None, Some(agreement), m > head.lastSeq, m,
                 Some(Sum(ReceiptFile(h[|h| - 1]))), found);
  }
}
