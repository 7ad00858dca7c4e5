/** The lock-free reader: probe, read the body, probe again, compare. The world moves
    on by an arbitrary amount before every single file it looks at. */
module SnapshotReader {
  import opened Wrappers
  import opened Documents
  import opened Audit
  import opened Runs
  import opened Isolation

  function FileAt(d: Disk, p: Path): Option<File> {
    if p in d then Some(d[p]) else None
  }

  /** The store as time passes, and how much of it passes before each read. */
  class World {
    const states: nat -> State
    const trees: nat -> Option<Digest>   // what an intent tree walk ending then returns
    const pace: nat -> nat
    var now: nat

    constructor (states: nat -> State, trees: nat -> Option<Digest>, pace: nat -> nat)
      ensures this.states == states && now == 0
    {
      this.states, this.trees, this.pace, now := states, trees, pace, 0;
    }

    method Look(p: Path) returns (f: Option<File>)
      modifies this
      ensures old(now) <= now && f == FileAt(states(now).disk, p)
    {
      now := now + pace(now);
      f := FileAt(states(now).disk, p);
    }

    method Tree() returns (t: Option<Digest>)
      modifies this
      ensures old(now) <= now && t == trees(now)
    {
      now := now + pace(now);
      t := trees(now);
    }
  }

  datatype Snap = Snap(head: HeadDoc, barrier: Option<File>, lastReceipt: File, tree: Option<Digest>)

  /** A failed probe still reports the head it saw, when it saw one. */
  datatype Probed = Observed(snap: Snap) | Failed(code: Code, head: Option<HeadDoc>)

  /** Same head bytes, same barrier presence and bytes, same intent tree. */
  predicate Same(a: Snap, b: Snap) {
    a.head == b.head && a.barrier == b.barrier && a.tree == b.tree
  }

  /** The head was read at `at`, and no receipt lay beyond it at `checked`. */
  ghost predicate Clear(w: World, snap: Snap, at: nat, checked: nat) {
    && HeadOf(w.states(at).disk) == Some(snap.head) && at <= checked
    && Receipt(snap.head.lastSeq + 1) !in w.states(checked).disk
  }

  method Probe(w: World) returns (r: Probed, ghost at: nat, ghost checked: nat)
    modifies w
    ensures old(w.now) <= w.now
    ensures r.Observed? ==> old(w.now) <= at <= checked <= w.now && Clear(w, r.snap, at, checked)
    ensures r.Observed? ==> r.snap.head.lastReceipt == Sum(r.snap.lastReceipt)
    ensures r.Failed? && r.code == Code.RedoPending ==> r.head.Some? && Receipt(r.head.value.lastSeq + 1) in w.states(checked).disk
  {
    at, checked := 0, 0;
    var version := w.Look(Version);
    if version.None? { return Failed(Uninitialized, None), at, checked; }
    if version.value != Raw(VERSION_BYTES) { return Failed(UnsupportedVersion, None), at, checked; }
    var head := w.Look(Path.Head);
    at := w.now;
    if head.None? { return Failed(Uninitialized, None), at, checked; }
    if !head.value.HeadFile? { return Failed(Malformed, None), at, checked; }
    var h := head.value.head;
    var fork := w.Look(Receipt(h.lastSeq + 2));
    if fork.Some? { return Failed(JournalForked, Some(h)), at, checked; }
    var pending := w.Look(Receipt(h.lastSeq + 1));
    checked := w.now;
    if pending.Some? { return Failed(Code.RedoPending, Some(h)), at, checked; }
    var last := w.Look(Receipt(h.lastSeq));
    if last.None? || Sum(last.value) != h.lastReceipt { return Failed(JournalForked, Some(h)), at, checked; }
    var barrier := w.Look(Barrier);
    var tree := w.Tree();
    r := Observed(Snap(h, barrier, last.value, tree));
  }

  ghost predicate FoundWithin(w: World, p: Path, f: Option<File>, from: nat, to: nat) {
    exists t: nat :: from <= t <= to && f == FileAt(w.states(t).disk, p)
  }

  /** Each file was read at some moment of the window. */
  ghost predicate ReadWithin(w: World, paths: seq<Path>, files: seq<Option<File>>, from: nat, to: nat) {
    |files| == |paths| && forall i :: 0 <= i < |paths| ==> FoundWithin(w, paths[i], files[i], from, to)
  }

  /** The body: the files it reads, one look each. */
  method ReadAll(w: World, paths: seq<Path>) returns (files: seq<Option<File>>)
    modifies w
    ensures old(w.now) <= w.now && ReadWithin(w, paths, files, old(w.now), w.now)
  {
    files := [];
    while |files| < |paths|
      invariant |files| <= |paths| && old(w.now) <= w.now
      invariant ReadWithin(w, paths[..|files|], files, old(w.now), w.now)
    {
      ghost var was, before := files, w.now;
      var f := w.Look(paths[|files|]);
      files := files + [f];
      forall i | 0 <= i < |files| ensures FoundWithin(w, paths[..|files|][i], files[i], old(w.now), w.now) {
        if i < |was| { assert FoundWithin(w, paths[..|was|][i], was[i], old(w.now), before); }
      }
    }
    assert paths[..|files|] == paths;
  }

  /** The outcome of a whole read. `Seen` carries the body's own verdict on the files. */
  datatype Reading =
    | Seen(snap: Snap, files: seq<Option<File>>, verdict: Option<Code>)
    | Unreadable(code: Code)
    | Moved(attempts: nat)

  /** Zero asks for the default of three retries; a negative count for none. */
  function Attempts(retries: int): nat {
    if retries == 0 then 4 else if retries < 0 then 1 else retries + 1
  }

  /** The files are those of one agreeing state, whose head is the snapshot's. */
  ghost predicate OneState(d: Disk, snap: Snap, paths: seq<Path>, files: seq<Option<File>>) {
    && Agrees(d) && HeadOf(d) == Some(snap.head) && |files| == |paths|
    && forall i :: 0 <= i < |paths| && !paths[i].Evidence? ==> files[i] == FileAt(d, paths[i])
  }

  /** No receipt beyond the observed head at any moment of the window. */
  ghost predicate NothingBeyond(w: World, snap: Snap, at: nat, until: nat) {
    forall t: nat :: at <= t <= until ==> Receipt(snap.head.lastSeq + 1) !in w.states(t).disk && Agrees(w.states(t).disk)
  }

  lemma OneFile(w: World, head: HeadDoc, at: nat, until: nat, p: Path, f: Option<File>)
    requires Unedited(w.states) && HeadOf(w.states(at).disk) == Some(head) && Receipt(head.lastSeq + 1) !in w.states(until).disk
    requires FoundWithin(w, p, f, at, until) && !p.Evidence?
    ensures f == FileAt(w.states(at).disk, p)
  {
    hide Unedited, HeadOf;
    var t: nat :| at <= t <= until && f == FileAt(w.states(t).disk, p);
    ReadsOneState(w.states, at, t, until, p);
    assert DigestAt(w.states(t).disk, p) == DigestAt(w.states(at).disk, p);
  }

  lemma FilesOfOneState(w: World, head: HeadDoc, at: nat, until: nat, paths: seq<Path>, files: seq<Option<File>>)
    requires Unedited(w.states) && HeadOf(w.states(at).disk) == Some(head) && Receipt(head.lastSeq + 1) !in w.states(until).disk
    requires ReadWithin(w, paths, files, at, until)
    ensures forall i :: 0 <= i < |paths| && !paths[i].Evidence? ==> files[i] == FileAt(w.states(at).disk, paths[i])
  {
    forall i | 0 <= i < |paths| && !paths[i].Evidence? ensures files[i] == FileAt(w.states(at).disk, paths[i]) {
      OneFile(w, head, at, until, paths[i], files[i]);
    }
  }

  lemma NothingLinked(w: World, snap: Snap, at: nat, until: nat)
    requires Unedited(w.states) && Clear(w, snap, at, until)
    ensures NothingBeyond(w, snap, at, until)
  {
    forall t: nat | at <= t <= until ensures Receipt(snap.head.lastSeq + 1) !in w.states(t).disk && Agrees(w.states(t).disk) {
      NoReceiptBeyond(w.states, at, t, until);
    }
  }

  lemma WindowIsOneState(w: World, snap: Snap, at: nat, until: nat, paths: seq<Path>, files: seq<Option<File>>)
    requires Unedited(w.states) && Clear(w, snap, at, until) && ReadWithin(w, paths, files, at, until)
    ensures OneState(w.states(at).disk, snap, paths, files)
  {
    NoReceiptBeyond(w.states, at, at, until);
    FilesOfOneState(w, snap.head, at, until, paths, files);
  }

  lemma Widen(w: World, paths: seq<Path>, files: seq<Option<File>>, from: nat, to: nat, from': nat, to': nat)
    requires ReadWithin(w, paths, files, from, to) && from' <= from && to <= to'
    ensures ReadWithin(w, paths, files, from', to')
  {
    forall i | 0 <= i < |paths| ensures FoundWithin(w, paths[i], files[i], from', to') {
      assert FoundWithin(w, paths[i], files[i], from, to);
    }
  }

  /** Probe, body, probe, compare; retry a move. A successful read is a read of one
      state, and no later receipt was linked from its first head read to the last
      slot check. A probe that fails is reported as it is; only a read that moved on
      every attempt ends as Moved. */
  method Read(w: World, retries: int, paths: seq<Path>, judge: seq<Option<File>> -> Option<Code>)
    returns (r: Reading, ghost at: nat, ghost until: nat)
    modifies w
    ensures r.Seen? ==> old(w.now) <= at <= until <= w.now && Clear(w, r.snap, at, until) && r.verdict == judge(r.files)
    ensures r.Seen? ==> ReadWithin(w, paths, r.files, at, until)
    ensures r.Seen? && Unedited(w.states) ==> OneState(w.states(at).disk, r.snap, paths, r.files) && NothingBeyond(w, r.snap, at, until)
    ensures r.Moved? ==> r.attempts == Attempts(retries)
  {
    var attempt := 0;
    at, until := 0, 0;
    while attempt < Attempts(retries)
      invariant attempt <= Attempts(retries) && old(w.now) <= w.now
    {
      var first, again;
      ghost var c, c', u;
      first, at, c := Probe(w);
      if first.Failed? { return Unreadable(first.code), at, until; }
      ghost var start := w.now;
      var files := ReadAll(w, paths);
      ghost var end := w.now;
      again, c', u := Probe(w);
      if again.Failed? { return Unreadable(again.code), at, until; }
      if Same(first.snap, again.snap) {
        until := u;
        Widen(w, paths, files, start, end, at, until);
        if Unedited(w.states) {
          NothingLinked(w, first.snap, at, until);
          WindowIsOneState(w, first.snap, at, until, paths, files);
        }
        return Seen(first.snap, files, judge(files)), at, until;
      }
      attempt := attempt + 1;
    }
    r := Moved(attempt);
  }
}
