/** At most one commit per request, for good: a recorded answer never changes. */
module Requests {
  import opened Wrappers
  import opened Documents
  import opened Publication
  import opened Audit
  import opened Refinement
  import opened Runs
  import opened Isolation

  /** A chained history carries a request in one receipt. */
  lemma CarriedOnce(d: Disk, head: HeadDoc, h: seq<ReceiptDoc>, i: nat, j: nat, id: string)
    requires Chained(d, head, h) && i < j < |h| && h[i].requestId == Some(id)
    ensures h[j].requestId != Some(id)
  {
    ChainedPrefix(d, head, h, j);
    var init := h[..j];
    assert ReceiptFits(d, init, head, h[j]) && init[i].requestId == Some(id);
    if h[j].requestId == Some(id) { NoEarlier(d, head, init, h[j], id); }
  }

  lemma {:induction false} RecordedAt(d: Disk, h: seq<ReceiptDoc>, i: nat, id: string)
    requires i < |h| && h[i].requestId == Some(id) && forall j :: i < j < |h| ==> h[j].requestId != Some(id)
    ensures Recorded(d, h, id) == RequestIn(d, h[i])
  {
    if i < |h| - 1 { RecordedAt(d, h[..|h| - 1], i, id); }
  }

  /** ... and answers from it. */
  lemma AnsweredOnce(d: Disk, head: HeadDoc, h: seq<ReceiptDoc>, i: nat, id: string)
    requires Chained(d, head, h) && i < |h| && h[i].requestId == Some(id)
    ensures Recorded(d, h, id) == RequestIn(d, h[i])
  {
    forall j | i < j < |h| ensures h[j].requestId != Some(id) { CarriedOnce(d, head, h, i, j, id); }
    RecordedAt(d, h, i, id);
  }

  lemma NoEarlier(d: Disk, head: HeadDoc, init: seq<ReceiptDoc>, rc: ReceiptDoc, id: string)
    requires Chained(d, head, init) && ReceiptFits(d, init, head, rc) && rc.requestId == Some(id)
    ensures forall j :: 0 <= j < |init| ==> init[j].requestId != Some(id)
  {
    RequestPosted(d, head, init, rc, id);
    LatestRequest(d, head, init, id);
    EntryForIn(rc.entries, Request(id));
    var e := EntryFor(rc.entries, Request(id)).value;
    var k :| 0 <= k < |rc.entries| && rc.entries[k] == e;
    assert EntryFits(d, init, rc, rc.entries[k]);
  }

  /** No receipt carries an unanswered request. */
  lemma {:induction false} Unanswered(d: Disk, h: seq<ReceiptDoc>, id: string)
    ensures (forall j :: 0 <= j < |h| ==> h[j].requestId != Some(id)) ==> Recorded(d, h, id).None?
  {
    if h != [] {
      Unanswered(d, h[..|h| - 1], id);
      assert forall j :: 0 <= j < |h| - 1 ==> h[..|h| - 1][j] == h[j];
    }
  }

  function AnswerOf(d: Disk, head: HeadDoc, id: string): Option<RequestDoc> {
    Recorded(d, History(d, head.lastSeq), id)
  }

  /** A retry, however much later, gets the recorded outcome: the answer of an agreeing
      store survives every later commit, crash and redo. */
  lemma AnsweredForGood(w: nat -> State, i: nat, j: nat, a: HeadDoc, b: HeadDoc, id: string)
    requires Unedited(w) && i <= j
    requires Agrees(w(i).disk) && HeadOf(w(i).disk) == Some(a) && Agrees(w(j).disk) && HeadOf(w(j).disk) == Some(b)
    requires AnswerOf(w(i).disk, a, id).Some?
    ensures AnswerOf(w(j).disk, b, id) == AnswerOf(w(i).disk, a, id)
  {
    Grows(w, i, j);
    AnswerKept(w(i).disk, a, w(j).disk, b, id);
  }

  lemma AnswerKept(d: Disk, a: HeadDoc, d': Disk, b: HeadDoc, id: string)
    requires JournalFits(d) && HeadOf(d) == Some(a) && !IsPending(d, a)
    requires JournalFits(d') && HeadOf(d') == Some(b) && !IsPending(d', b)
    requires a.lastSeq <= b.lastSeq && ReceiptsKept(d, d')
    requires AnswerOf(d, a, id).Some?
    ensures AnswerOf(d', b, id) == AnswerOf(d, a, id)
  {
    hide History, RequestIn;
    var h, h' := History(d, a.lastSeq), History(d', b.lastSeq);
    Unanswered(d, h, id);
    var i :| 0 <= i < |h| && h[i].requestId == Some(id);
    assert Some(h[i]) == ReceiptOf(d, i + 1) && Some(h'[i]) == ReceiptOf(d', i + 1);
    assert Receipt(i + 1) in d;
    assert h'[i] == h[i];
    AnsweredOnce(d, a, h, i, id);
    AnsweredOnce(d', b, h', i, id);
    assert ReceiptFits(d, h[..i], a, h[i]);
    forall k | 0 <= k < |h[i].entries| && !Deletes(h[i].entries[k]) ensures PostBytes(d, h[i].entries[k]).Ok? {
      assert EntryFits(d, h[..i], h[i], h[i].entries[k]);
    }
    RequestInKept(d, d', h[i]);
  }
}
