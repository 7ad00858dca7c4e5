/** The archive manifest read back under its own bounds, and the cost of a whole archive. */
module ArchiveLaws {
  import opened Utf8
  import opened Wire
  import opened Codec
  import opened WireLaws
  import opened Archive

  /** The one widening any document has: the files array, and nodes for it. */
  const MANIFEST_OPTIONS: Options := Options(FILES, MAX_FILES, NODE_CAP)

  // ----- one entry -----

  predicate Plainly(v: Value) { v.Null? || v.Bool? || (v.Str? && Clean(v.text, true)) }

  predicate FlatMember(m: Member) { Clean(m.key, true) && Plainly(m.value) }

  predicate Flat(ms: seq<Member>) { forall i :: 0 <= i < |ms| ==> FlatMember(ms[i]) }

  lemma FlatText(k: bytes, t: bytes)
    requires Plain(k) && (Plain(t) || Clean(t, false) || Digest(t) || Size(t))
    ensures FlatMember(Member(k, Str(t)))
  {
    PlainLength(k);
    if Plain(t) { PlainLength(t); } else if Digest(t) { DigestPlain(t); } else if Size(t) { SizePlain(t); } else { CleanText(t); }
  }

  lemma FlatPlain(k: bytes, v: Value)
    requires Plain(k) && (v.Null? || v.Bool?)
    ensures FlatMember(Member(k, v))
  {
    PlainLength(k);
  }

  lemma EntryFlat(f: FileEntry)
    requires ValidEntry(f)
    ensures Flat(EntryMembers(f))
  {
    FootKeys();
    hide Ascii, Plain, FlatMember, Digest, Size, Clean;
    FlatText(PATH, f.path);
    FlatText(SHA256, f.sha256);
    FlatText(BYTES, f.size);
  }

  lemma EntryDistinct(f: FileEntry)
    ensures Distinct(EntryMembers(f))
  {
    FootKeys();
    hide Plain, Ascii;
    var ms := EntryMembers(f);
    assert |ms[0].key| == 4 && |ms[1].key| == 6 && |ms[2].key| == 5;
  }

  lemma EntryIsFlat(f: FileEntry)
    requires ValidEntry(f)
    ensures Keyed(EntryValue(f)) && NodeCount(EntryValue(f)) == 4
  {
    EntryFlat(f);
    EntryDistinct(f);
    var ms := EntryMembers(f);
    assert |ms| == 3;
    hide ValidEntry, Plain, Ascii, Clean, Distinct, Flat, EntryMembers, Keyed;
    NodesFlat(ms);
    KeyedFlat(ms);
  }

  lemma KeyedFlat(ms: seq<Member>)
    requires Flat(ms) && Distinct(ms)
    ensures Keyed(Obj(ms))
  {
    hide Clean, Distinct;
    forall x | x in ms ensures Keyed(x.value) {
      var i :| 0 <= i < |ms| && ms[i] == x;
      assert FlatMember(ms[i]);
    }
  }

  lemma {:induction false} NodesFlat(ms: seq<Member>)
    requires Flat(ms)
    ensures NodesIn(ms) == |ms|
  {
    hide Clean;
    if ms != [] {
      assert FlatMember(ms[0]);
      forall i | 0 <= i < |ms[1..]| ensures FlatMember(ms[1..][i]) { assert FlatMember(ms[i + 1]); }
      NodesFlat(ms[1..]);
    }
  }

  lemma FlatFits(b: Bounds, ms: seq<Member>, depth: nat)
    requires Flat(ms) && b == BoundsOf(MANIFEST_OPTIONS)
    ensures forall x :: x in ms ==> b.admits(x.key) && CleanTexts(b, x.value)
    ensures forall x :: x in ms ==> Fits(b, x.value, depth, IsWide(b, depth, x.key))
  {
    hide Clean, IsWide;
    forall x | x in ms ensures b.admits(x.key) && CleanTexts(b, x.value) && Fits(b, x.value, depth, IsWide(b, depth, x.key)) {
      var i :| 0 <= i < |ms| && ms[i] == x;
      assert FlatMember(ms[i]);
    }
  }

  lemma EntryFits(f: FileEntry)
    requires ValidEntry(f)
    ensures Fits(BoundsOf(MANIFEST_OPTIONS), EntryValue(f), 2, false) && CleanTexts(BoundsOf(MANIFEST_OPTIONS), EntryValue(f))
  {
    EntryFlat(f);
    hide ValidEntry, EntryMembers, Flat;
    FlatFits(BoundsOf(MANIFEST_OPTIONS), EntryMembers(f), 3);
  }

  lemma {:induction false} EntriesNodes(fs: seq<FileEntry>)
    requires forall f :: f in fs ==> ValidEntry(f)
    ensures NodesOf(EntryValues(fs)) == 4 * |fs|
  {
    hide ValidEntry, EntryValue;
    if fs != [] {
      assert fs[0] in fs;
      EntryIsFlat(fs[0]);
      EntriesNodes(fs[1..]);
      assert EntryValues(fs)[1..] == EntryValues(fs[1..]);
    }
  }

  // ----- the manifest -----

  lemma {:induction false} NodesConcat(a: seq<Member>, b: seq<Member>)
    ensures NodesIn(a + b) == NodesIn(a) + NodesIn(b)
  {
    if a == [] {
      assert a + b == b;
    } else {
      assert (a + b)[0] == a[0] && (a + b)[1..] == a[1..] + b;
      NodesConcat(a[1..], b);
    }
  }

  lemma HeadFlat(m: Manifest)
    requires ValidManifest(m)
    ensures Flat(Head(m))
  {
    HeadKeys();
    hide Ascii, Plain, FlatMember, Digest, Size, Clean, ValidEntry;
    FlatText(PROFILE, ARCHIVE_0);
    FlatText(QUEUE_ID, m.queueId);
    FlatText(EXPORTED, m.exportedAtSeq);
    FlatText(HEAD_SUM, m.headSha256);
    FlatText(VERSION_SUM, m.versionSha256);
    if m.barrierSha256.Str? { FlatText(BARRIER_SUM, m.barrierSha256.text); } else { FlatPlain(BARRIER_SUM, m.barrierSha256); }
    FlatText(WORKTREE, m.primaryWorktree);
    FlatText(INTENT_SUM, m.intentTreeSha256);
  }

  lemma FootFlat(m: Manifest)
    requires ValidManifest(m)
    ensures Flat(Foot(m))
  {
    FootKeys();
    hide Ascii, Plain, FlatMember, Digest, Size, Clean, ValidEntry;
    FlatText(RECEIPTS, m.receiptCount);
    FlatText(LAST_SUM, m.lastReceiptSha256);
    FlatText(GENERATION, m.headGeneration);
    FlatPlain(COMPLETE, Bool(m.complete));
  }

  lemma SortedValid(m: Manifest)
    requires ValidManifest(m)
    ensures |SortEntries(m.files)| == |m.files| <= MAX_FILES && forall f :: f in SortEntries(m.files) ==> ValidEntry(f)
  {
    hide ValidEntry;
    SortEntriesCost(m.files);
  }

  function FilesMember(m: Manifest): Member { Member(FILES, Arr(EntryValues(SortEntries(m.files)))) }

  lemma OneNodes(m: Manifest, n: nat)
    requires NodesOf(EntryValues(SortEntries(m.files))) == n
    ensures NodesIn([FilesMember(m)]) == 1 + n
  {
    hide EntryValues, SortEntries, Ascii, NodesOf;
    assert [FilesMember(m)][1..] == [];
  }

  lemma ManifestNodes(m: Manifest)
    requires ValidManifest(m)
    ensures NodeCount(ManifestValue(m)) == 14 + 4 * |m.files|
  {
    assert NodeCount(ManifestValue(m)) == 1 + NodesIn(MembersOf(m)) by { hide MembersOf, NodesIn; }
    HeadFlat(m);
    FootFlat(m);
    SortedValid(m);
    hide ValidEntry, ValidManifest, Flat, SortEntries, EntryValues, Ascii;
    NodesFlat(Head(m));
    NodesFlat(Foot(m));
    assert |Head(m)| == 8 && |Foot(m)| == 4;
    EntriesNodes(SortEntries(m.files));
    OneNodes(m, 4 * |m.files|);
    assert MembersOf(m) == Head(m) + [FilesMember(m)] + Foot(m);
    hide Head, Foot, FilesMember, NodesIn, MembersOf;
    NodesConcat(Head(m) + [FilesMember(m)], Foot(m));
    NodesConcat(Head(m), [FilesMember(m)]);
  }

  /** Thirteen keys, told apart by length and first byte. */
  function Mark(k: bytes): (int, int) { (|k|, if k == [] then -1 else k[0]) }

  lemma HeadMarks()
    ensures Mark(PROFILE) == (7, 0x70) && Mark(QUEUE_ID) == (7, 0x71) && Mark(EXPORTED) == (13, 0x65) && Mark(HEAD_SUM) == (10, 0x68)
    ensures Mark(VERSION_SUM) == (13, 0x76) && Mark(BARRIER_SUM) == (13, 0x62) && Mark(WORKTREE) == (15, 0x70) && Mark(INTENT_SUM) == (16, 0x69)
  {
  }

  lemma FootMarks()
    ensures Mark(FILES) == (5, 0x66) && Mark(RECEIPTS) == (12, 0x72) && Mark(LAST_SUM) == (17, 0x6C) && Mark(GENERATION) == (14, 0x68) && Mark(COMPLETE) == (8, 0x63)
  {
  }

  lemma ManifestDistinct(m: Manifest)
    ensures Distinct(MembersOf(m))
  {
    HeadMarks();
    FootMarks();
    hide Ascii, EntryValues, SortEntries, Mark;
    var ms := MembersOf(m);
    assert |ms| == 13;
    var marks := [(7, 0x70), (7, 0x71), (13, 0x65), (10, 0x68), (13, 0x76), (13, 0x62), (15, 0x70), (16, 0x69), (5, 0x66), (12, 0x72), (17, 0x6C), (14, 0x68), (8, 0x63)];
    assert forall i :: 0 <= i < 13 ==> Mark(ms[i].key) == marks[i];
    assert forall i, j :: 0 <= i < j < 13 ==> marks[i] != marks[j];
    forall i, j | 0 <= i < j < |ms| ensures ms[i].key != ms[j].key {
      assert marks[i] != marks[j];
    }
  }

  lemma EntriesWithin(m: Manifest)
    requires ValidManifest(m)
    ensures var b, es := BoundsOf(MANIFEST_OPTIONS), EntryValues(SortEntries(m.files));
      |es| <= MAX_FILES && forall e :: e in es ==> Keyed(e) && CleanTexts(b, e) && Fits(b, e, 2, false)
  {
    SortedValid(m);
    hide ValidEntry, ValidManifest, SortEntries, EntryValue, Keyed, CleanTexts, Fits, BoundsOf;
    var fs := SortEntries(m.files);
    var b, es := BoundsOf(MANIFEST_OPTIONS), EntryValues(fs);
    forall e | e in es ensures Keyed(e) && CleanTexts(b, e) && Fits(b, e, 2, false) {
      var i :| 0 <= i < |es| && es[i] == e;
      assert fs[i] in fs;
      EntryIsFlat(fs[i]);
      EntryFits(fs[i]);
    }
  }

  /** What each member of the manifest meets. */
  predicate Meets(b: Bounds, x: Member) {
    Keyed(x.value) && b.admits(x.key) && CleanTexts(b, x.value) && Fits(b, x.value, 1, IsWide(b, 1, x.key))
  }

  lemma FlatMeets(b: Bounds, ms: seq<Member>)
    requires Flat(ms) && b == BoundsOf(MANIFEST_OPTIONS)
    ensures forall x :: x in ms ==> Meets(b, x)
  {
    FlatFits(b, ms, 1);
    FlatKeyed(ms);
    hide Keyed, CleanTexts, Fits, BoundsOf, IsWide, Flat;
  }

  lemma WholeMeets(b: Bounds, ms: seq<Member>)
    requires Distinct(ms) && b.depth >= 1 && forall x :: x in ms ==> Meets(b, x)
    ensures Keyed(Obj(ms)) && CleanTexts(b, Obj(ms)) && Fits(b, Obj(ms), 0, false)
  {
    hide Distinct, IsWide;
  }

  lemma FilesMeets(m: Manifest)
    requires ValidManifest(m)
    ensures Meets(BoundsOf(MANIFEST_OPTIONS), FilesMember(m))
  {
    EntriesWithin(m);
    FilesWithin(BoundsOf(MANIFEST_OPTIONS), EntryValues(SortEntries(m.files)));
    FilesAdmitted();
    hide ValidManifest, EntryValues, SortEntries, Keyed, CleanTexts, Fits, BoundsOf, IsWide;
  }

  lemma ManifestWithin(m: Manifest)
    requires ValidManifest(m)
    ensures Keyed(ManifestValue(m)) && CleanTexts(BoundsOf(MANIFEST_OPTIONS), ManifestValue(m)) && Fits(BoundsOf(MANIFEST_OPTIONS), ManifestValue(m), 0, false)
  {
    var b := BoundsOf(MANIFEST_OPTIONS);
    ManifestDistinct(m);
    HeadFlat(m);
    FootFlat(m);
    FilesMeets(m);
    DepthAllowed();
    FlatMeets(b, Head(m));
    FlatMeets(b, Foot(m));
    assert MembersOf(m) == Head(m) + [FilesMember(m)] + Foot(m);
    hide ValidManifest, Flat, Head, Foot, MembersOf, Meets, BoundsOf, Distinct, Keyed, CleanTexts, Fits, FilesMember;
    WholeMeets(b, MembersOf(m));
  }

  lemma DepthAllowed()
    ensures BoundsOf(MANIFEST_OPTIONS).depth == 24
  {
  }

  lemma FilesAdmitted()
    ensures BoundsOf(MANIFEST_OPTIONS).admits(FILES)
  {
    FootKeys();
    PlainLength(FILES);
  }

  lemma FlatKeyed(ms: seq<Member>)
    requires Flat(ms)
    ensures forall x :: x in ms ==> Keyed(x.value)
  {
    hide Clean;
    forall x | x in ms ensures Keyed(x.value) {
      var i :| 0 <= i < |ms| && ms[i] == x;
      assert FlatMember(ms[i]);
    }
  }

  lemma FilesWithin(b: Bounds, es: seq<Value>)
    requires b == BoundsOf(MANIFEST_OPTIONS) && |es| <= MAX_FILES && forall e :: e in es ==> Keyed(e) && CleanTexts(b, e) && Fits(b, e, 2, false)
    ensures Keyed(Arr(es)) && CleanTexts(b, Arr(es)) && IsWide(b, 1, FILES) && Fits(b, Arr(es), 1, true)
  {
    FootKeys();
  }

  /** Every valid manifest reads back under the archive bounds, with every node of the
      fullest one allowed for. */
  lemma ManifestReadsBack(m: Manifest)
    requires ValidManifest(m)
    ensures ParseWith(EncodeManifest(m), MANIFEST_OPTIONS) == Outcome.Ok(Canon(ManifestValue(m)))
    ensures |EncodeManifest(m)| < MAX_MANIFEST && NodeCount(ManifestValue(m)) <= NODE_CAP
  {
    hide Keyed, CleanTexts, Fits, ValidManifest, ParseWith;
    ManifestWithin(m);
    ManifestNodes(m);
    ManifestFits(m);
    assert |m.files| <= MAX_FILES by { FilesCounted(m); }
    FileReadsBack(MANIFEST_OPTIONS, ManifestValue(m));
  }

  lemma FilesCounted(m: Manifest)
    requires ValidManifest(m)
    ensures |m.files| <= MAX_FILES
  {
  }
}
