/** The files of the store as decoded documents.

    Every journal file is canonical, so a file is named here by the document it
    decodes to, and its digest is the injective constructor `Sum`: two files have
    one digest exactly when they are one file. Paths are the archive-namespace
    paths of the store, one constructor per kind of destination. */
module Documents {
  import opened Wrappers

  datatype Code = JournalForked | IntentDiverged | Malformed | RedoPending | SnapshotMoved | Unsupported | LimitExceeded | SessionFault
                | Uninitialized | UnsupportedVersion | RequestIdConflict

  datatype Result<+T> = Ok(value: T) | Err(code: Code)

  datatype Digest = Sum(file: File)

  datatype Path =
    | Head | Version | Reservations | Barrier | Queue | Policy | ImportMap
    | Ticket(local: string)
    | Release(releaseId: string)
    | Pinned(pin: Digest)
    | Evidence(blob: Digest)
    | Request(requestId: string)
    | Receipt(seqNo: nat)

  datatype File =
    | HeadFile(head: HeadDoc)
    | ReceiptFile(receipt: ReceiptDoc)
    | RequestFile(request: RequestDoc)
    | TicketFile(ticket: TicketDoc)
    | Raw(bytes: string)

  datatype HeadDoc = HeadDoc(queueId: string, lastSeq: nat, lastReceipt: Digest, generation: nat,
                             init: Digest, primary: string, version: Digest)

  /** One paired pre/post entry of a receipt. `post` is None for a deletion. */
  datatype Entry = Entry(path: Path, pre: Option<Digest>, post: Option<Digest>, record: Option<File>, blob: Option<Digest>)

  datatype ReceiptDoc = ReceiptDoc(seqNo: nat, prev: Option<Digest>, kind: string, requestId: Option<string>,
                                   ticket: Option<string>, headGeneration: nat, entries: seq<Entry>,
                                   outcome: string, codes: seq<string>)

  datatype Outcome = Outcome(requestId: string, outcome: string, replayed: bool, revision: Option<nat>,
                             acceptance: Option<nat>, receiptSeq: Option<nat>, codes: seq<string>)

  datatype RequestDoc = RequestDoc(requestId: string, seqNo: nat, mutation: Digest, outcome: Outcome)

  datatype TicketDoc = TicketDoc(local: string, revision: nat, acceptance: nat, body: string)

  type Disk = map<Path, File>

  const VERSION_BYTES := "taskman-state/0\n"
  const MAX_RECEIPTS: nat := 1000000

  function DigestAt(d: Disk, p: Path): Option<Digest> {
    if p in d then Some(Sum(d[p])) else None
  }

  predicate IntentPath(p: Path) {
    p.Queue? || p.Policy? || p.ImportMap? || p.Ticket? || p.Release?
  }

  /** The paths a receipt may post: everything but the head and the receipts. */
  predicate PostPath(p: Path) {
    !p.Head? && !p.Receipt?
  }

  function HeadOf(d: Disk): Option<HeadDoc> {
    if Path.Head in d && d[Path.Head].HeadFile? then Some(d[Path.Head].head) else None
  }

  function ReceiptOf(d: Disk, n: nat): Option<ReceiptDoc> {
    if Receipt(n) in d && d[Receipt(n)].ReceiptFile? then Some(d[Receipt(n)].receipt) else None
  }

  predicate Deletes(e: Entry) { e.post.None? }

  predicate ValidEntry(e: Entry, kind: string) {
    && PostPath(e.path)
    && (Deletes(e) ==> e.record.None? && e.blob.None? && kind == "UNPAUSE" && e.path.Barrier? && e.pre.Some?)
    && (!Deletes(e) ==>
          && (e.record.Some? <==> e.blob.None?)
          && (e.record.Some? ==> Sum(e.record.value) == e.post.value)
          && (e.blob.Some? ==> e.blob == e.post)
          && (e.path.Version? ==> e.blob.Some?))
  }

  /** The closed checks a receipt passes when it is decoded. */
  predicate ValidReceipt(rc: ReceiptDoc) {
    && rc.seqNo >= 1
    && (rc.seqNo == 1 <==> rc.prev.None?)
    && (rc.seqNo == 1 ==> rc.kind == "INIT" && rc.headGeneration == 0)
    && (rc.seqNo != 1 ==> rc.kind != "INIT")
    && (forall i :: 0 <= i < |rc.entries| ==> ValidEntry(rc.entries[i], rc.kind))
    && (forall i, j :: 0 <= i < j < |rc.entries| ==> rc.entries[i].path != rc.entries[j].path)
  }

  function PreOf(es: seq<Entry>, p: Path): Option<Digest> {
    if es == [] then None
    else if es[0].path == p then es[0].pre
    else PreOf(es[1..], p)
  }

  lemma {:induction false} PreOfAt(es: seq<Entry>, i: nat)
    requires i < |es|
    requires forall i, j :: 0 <= i < j < |es| ==> es[i].path != es[j].path
    ensures PreOf(es, es[i].path) == es[i].pre
  {
    if i > 0 {
      assert es[0].path != es[i].path;
      assert es[1..][i - 1] == es[i];
      PreOfAt(es[1..], i - 1);
    }
  }

  /** The bytes of one post entry: inline, or from the blob the entry names. */
  function PostBytes(d: Disk, e: Entry): Result<File>
    requires !Deletes(e)
  {
    var raw := if e.record.Some? then Some(e.record.value)
               else if e.blob.Some? then (if Evidence(e.blob.value) in d then Some(d[Evidence(e.blob.value)]) else None)
               else if e.path.Version? then Some(Raw(VERSION_BYTES)) else None;
    match raw
    case None => Err(Malformed)
    case Some(f) => if Sum(f) == e.post.value then Ok(f) else Err(JournalForked)
  }
}
