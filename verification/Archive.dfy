/** The archive manifest: how long its encoding is, in any order of its files, and that
    every valid manifest fits its cap and reads back under the archive bounds. */
module Archive {
  import opened Utf8
  import opened Wire
  import opened Codec
  import opened WireLaws

  datatype FileEntry = FileEntry(path: bytes, sha256: bytes, size: bytes)

  datatype Manifest = Manifest(queueId: bytes, exportedAtSeq: bytes, headSha256: bytes, versionSha256: bytes, barrierSha256: Wire.Value,
                               primaryWorktree: bytes, intentTreeSha256: bytes, files: seq<FileEntry>, receiptCount: bytes,
                               lastReceiptSha256: bytes, headGeneration: bytes, complete: bool)

  const MAX_FILES: nat := 2100000
  const MAX_MANIFEST: nat := 768 * 1024 * 1024
  const NODE_CAP: nat := 4 * MAX_FILES + 14

  predicate Plain(s: bytes) { forall i :: 0 <= i < |s| ==> 0x20 <= s[i] < 0x7F && s[i] != QUOTE && s[i] != BACKSLASH }

  /** The bytes of a plain literal. */
  function Ascii(s: string): (r: bytes)
    requires forall i :: 0 <= i < |s| ==> s[i] < 128 as char
    ensures |r| == |s| && forall i :: 0 <= i < |s| ==> r[i] == s[i] as int
  {
    seq(|s|, i requires 0 <= i < |s| => s[i] as int)
  }

  const FILES: bytes := Ascii("files")
  const PROFILE: bytes := Ascii("profile")
  const QUEUE_ID: bytes := Ascii("queueId")
  const EXPORTED: bytes := Ascii("exportedAtSeq")
  const HEAD_SUM: bytes := Ascii("headSha256")
  const VERSION_SUM: bytes := Ascii("versionSha256")
  const BARRIER_SUM: bytes := Ascii("barrierSha256")
  const WORKTREE: bytes := Ascii("primaryWorktree")
  const INTENT_SUM: bytes := Ascii("intentTreeSha256")
  const RECEIPTS: bytes := Ascii("receiptCount")
  const LAST_SUM: bytes := Ascii("lastReceiptSha256")
  const GENERATION: bytes := Ascii("headGeneration")
  const COMPLETE: bytes := Ascii("complete")
  const PATH: bytes := Ascii("path")
  const SHA256: bytes := Ascii("sha256")
  const BYTES: bytes := Ascii("bytes")
  const ARCHIVE_0: bytes := Ascii("taskman-archive/0")

  function EntryMembers(f: FileEntry): seq<Member> {
    [Member(PATH, Str(f.path)), Member(SHA256, Str(f.sha256)), Member(BYTES, Str(f.size))]
  }

  function EntryValue(f: FileEntry): Value { Obj(EntryMembers(f)) }

  function EntryValues(fs: seq<FileEntry>): (r: seq<Value>)
    ensures |r| == |fs| && forall i :: 0 <= i < |fs| ==> r[i] == EntryValue(fs[i])
  {
    seq(|fs|, i requires 0 <= i < |fs| => EntryValue(fs[i]))
  }

  // ----- canonical file order -----

  function InsertEntry(f: FileEntry, fs: seq<FileEntry>): seq<FileEntry> {
    if fs == [] then [f]
    else if Below(Encode(EntryValue(fs[0])), Encode(EntryValue(f))) then [fs[0]] + InsertEntry(f, fs[1..])
    else [f] + fs
  }

  /** By the bytes of their encoding. */
  function SortEntries(fs: seq<FileEntry>): seq<FileEntry> {
    if fs == [] then [] else InsertEntry(fs[0], SortEntries(fs[1..]))
  }

  function Head(m: Manifest): seq<Member> {
    [Member(PROFILE, Str(ARCHIVE_0)), Member(QUEUE_ID, Str(m.queueId)),
     Member(EXPORTED, Str(m.exportedAtSeq)), Member(HEAD_SUM, Str(m.headSha256)),
     Member(VERSION_SUM, Str(m.versionSha256)), Member(BARRIER_SUM, m.barrierSha256),
     Member(WORKTREE, Str(m.primaryWorktree)), Member(INTENT_SUM, Str(m.intentTreeSha256))]
  }

  function Foot(m: Manifest): seq<Member> {
    [Member(RECEIPTS, Str(m.receiptCount)), Member(LAST_SUM, Str(m.lastReceiptSha256)),
     Member(GENERATION, Str(m.headGeneration)), Member(COMPLETE, Bool(m.complete))]
  }

  function MembersOf(m: Manifest): seq<Member> { Head(m) + [Member(FILES, Arr(EntryValues(SortEntries(m.files))))] + Foot(m) }

  function ManifestValue(m: Manifest): Value { Obj(MembersOf(m)) }

  function EncodeManifest(m: Manifest): bytes { EncodeFile(ManifestValue(m)) }

  // ----- lengths -----

  function MemberCost(m: Member): nat { |EncodeText(m.key)| + 1 + |Encode(m.value)| }

  function Cost(ms: seq<Member>): nat { if ms == [] then 0 else MemberCost(ms[0]) + Cost(ms[1..]) }

  function Rendered(ms: seq<Member>): nat { if ms == [] then 0 else |RenderMember(ms[0])| + Rendered(ms[1..]) }

  function Commas(n: nat): nat { if n == 0 then 0 else n - 1 }

  lemma {:induction false} MembersLength(ms: seq<Member>)
    ensures |RenderMembers(ms)| == Rendered(ms) + Commas(|ms|)
  {
    if |ms| > 1 { MembersLength(ms[1..]); }
  }

  lemma {:induction false} InsertLength(m: Member, ms: seq<Member>)
    ensures Rendered(Insert(m, ms)) == |RenderMember(m)| + Rendered(ms)
  {
    if ms != [] && Below(ms[0].key, m.key) {
      InsertLength(m, ms[1..]);
      assert ([ms[0]] + Insert(m, ms[1..]))[1..] == Insert(m, ms[1..]);
    } else {
      assert ([m] + ms)[1..] == ms;
    }
  }

  lemma {:induction false} SortLength(ms: seq<Member>)
    ensures Rendered(SortMembers(ms)) == Rendered(ms)
  {
    if ms != [] {
      SortLength(ms[1..]);
      InsertLength(ms[0], SortMembers(ms[1..]));
    }
  }

  lemma {:induction false} CanonCost(ms: seq<Member>)
    ensures Rendered(CanonMembers(ms)) == Cost(ms)
  {
    if ms != [] {
      CanonCost(ms[1..]);
      assert CanonMembers(ms)[1..] == CanonMembers(ms[1..]);
    }
  }

  /** Sorting the keys does not change the length. */
  lemma ObjectLength(ms: seq<Member>)
    ensures |Encode(Obj(ms))| == 2 + Cost(ms) + Commas(|ms|)
  {
    var cs := CanonMembers(ms);
    SortLength(cs);
    CanonCost(ms);
    MembersLength(SortMembers(cs));
  }

  function ElemCost(es: seq<Value>): nat { if es == [] then 0 else |Encode(es[0])| + ElemCost(es[1..]) }

  lemma {:induction false} ElemsLength(es: seq<Value>)
    ensures |RenderElems(CanonAll(es))| == ElemCost(es) + Commas(|es|)
  {
    if es != [] {
      ElemsLength(es[1..]);
      assert CanonAll(es)[1..] == CanonAll(es[1..]);
    }
  }

  lemma {:induction false} CostConcat(a: seq<Member>, b: seq<Member>)
    ensures Cost(a + b) == Cost(a) + Cost(b)
  {
    if a == [] {
      assert a + b == b;
    } else {
      assert (a + b)[0] == a[0] && (a + b)[1..] == a[1..] + b;
      CostConcat(a[1..], b);
    }
  }

  function FilesCost(fs: seq<FileEntry>): nat { if fs == [] then 0 else |Encode(EntryValue(fs[0]))| + FilesCost(fs[1..]) }

  lemma {:induction false} FilesElems(fs: seq<FileEntry>)
    ensures ElemCost(EntryValues(fs)) == FilesCost(fs)
  {
    if fs != [] {
      FilesElems(fs[1..]);
      assert EntryValues(fs)[1..] == EntryValues(fs[1..]);
    }
  }

  lemma {:induction false} InsertEntryCost(f: FileEntry, fs: seq<FileEntry>)
    ensures FilesCost(InsertEntry(f, fs)) == |Encode(EntryValue(f))| + FilesCost(fs) && |InsertEntry(f, fs)| == |fs| + 1
    ensures forall x :: x in InsertEntry(f, fs) <==> x == f || x in fs
  {
    hide Encode;
    if fs != [] {
      assert fs == [fs[0]] + fs[1..];
      if Below(Encode(EntryValue(fs[0])), Encode(EntryValue(f))) {
        InsertEntryCost(f, fs[1..]);
        assert ([fs[0]] + InsertEntry(f, fs[1..]))[1..] == InsertEntry(f, fs[1..]);
      } else {
        assert ([f] + fs)[1..] == fs;
      }
    }
  }

  lemma {:induction false} SortEntriesCost(fs: seq<FileEntry>)
    ensures FilesCost(SortEntries(fs)) == FilesCost(fs) && |SortEntries(fs)| == |fs|
    ensures forall x :: x in SortEntries(fs) <==> x in fs
  {
    hide Encode;
    if fs != [] {
      SortEntriesCost(fs[1..]);
      InsertEntryCost(fs[0], SortEntries(fs[1..]));
      assert fs == [fs[0]] + fs[1..];
    }
  }

  lemma FilesMemberLength(m: Manifest)
    ensures |Encode(Arr(EntryValues(SortEntries(m.files))))| == 2 + FilesCost(m.files) + Commas(|m.files|)
  {
    ElemsLength(EntryValues(SortEntries(m.files)));
    FilesElems(SortEntries(m.files));
    SortEntriesCost(m.files);
  }

  lemma OneCost(m: Member)
    ensures Cost([m]) == MemberCost(m)
  {
    assert [m][1..] == [];
  }

  lemma ManifestLength(m: Manifest)
    ensures |EncodeManifest(m)| == 3 + Cost(Head(m)) + |EncodeText(FILES)| + 1 + (2 + FilesCost(m.files) + Commas(|m.files|)) + Cost(Foot(m)) + 12
  {
    hide Encode, EncodeText, EntryMembers, Cost;
    ObjectLength(MembersOf(m));
    var one := [Member(FILES, Arr(EntryValues(SortEntries(m.files))))];
    CostConcat(Head(m) + one, Foot(m));
    CostConcat(Head(m), one);
    OneCost(one[0]);
    FilesMemberLength(m);
  }

  /** The encoding is the empty manifest's and the entries', with a comma between each two,
      in whatever order the files are given. */
  lemma MeasureIsExact(m: Manifest)
    ensures |EncodeManifest(m)| == |EncodeManifest(m.(files := []))| + FilesCost(m.files) + Commas(|m.files|)
  {
    hide Encode, EncodeText, Cost;
    ManifestLength(m);
    ManifestLength(m.(files := []));
    assert Head(m) == Head(m.(files := [])) && Foot(m) == Foot(m.(files := []));
  }

  // ----- what a valid manifest holds -----

  predicate Digest(s: bytes) { |s| == 64 && forall i :: 0 <= i < 64 ==> 0x30 <= s[i] <= 0x39 || 0x61 <= s[i] <= 0x66 }

  /** Decimal without a leading zero, at most twenty digits. */
  predicate Size(s: bytes) { 1 <= |s| <= 20 && (forall i :: 0 <= i < |s| ==> 0x30 <= s[i] <= 0x39) && (|s| > 1 ==> s[0] != 0x30) }

  /** An identifier that is also a path: no hostile code point, backslash or DEL. */
  predicate FilePath(s: bytes) {
    && 1 <= |s| <= 128 && Clean(s, false)
    && (forall i :: 0 <= i < |s| ==> s[i] != BACKSLASH && s[i] != 0x7F)
    && s[0] != 0x2F
  }

  predicate PathText(s: bytes) { 1 <= |s| <= 4096 && Clean(s, false) && s[0] == 0x2F }

  predicate QueueId(s: bytes) { |s| <= 128 && Plain(s) }

  predicate ValidEntry(f: FileEntry) { FilePath(f.path) && Digest(f.sha256) && Size(f.size) }

  predicate ValidManifest(m: Manifest) {
    && QueueId(m.queueId) && Size(m.exportedAtSeq) && Digest(m.headSha256) && Digest(m.versionSha256)
    && (m.barrierSha256.Null? || (m.barrierSha256.Str? && Digest(m.barrierSha256.text)))
    && PathText(m.primaryWorktree) && Digest(m.intentTreeSha256) && Size(m.receiptCount) && Digest(m.lastReceiptSha256)
    && Size(m.headGeneration) && m.complete && m.exportedAtSeq == m.receiptCount
    && |m.files| <= MAX_FILES && forall f :: f in m.files ==> ValidEntry(f)
  }

  // ----- bounds -----

  lemma {:induction false} PlainLength(s: bytes)
    requires Plain(s)
    ensures EscapeAll(s) == s && |EncodeText(s)| == |s| + 2 && Clean(s, true)
  {
    if s != [] {
      PlainLength(s[1..]);
      assert s == [s[0]] + s[1..];
    }
  }

  lemma {:induction false} CleanBytes(s: bytes)
    requires Clean(s, false)
    ensures (forall i :: 0 <= i < |s| ==> s[i] >= 0x20) && Clean(s, true)
    decreases |s|
  {
    if s != [] {
      var n := RuneLen(s);
      RuneTails(s);
      CleanBytes(s[n..]);
      forall i | 0 <= i < |s| ensures s[i] >= 0x20 {
        if i >= n { assert s[n..][i - n] == s[i]; }
      }
    }
  }

  lemma {:induction false} EscapedTwice(s: bytes)
    requires forall i :: 0 <= i < |s| ==> s[i] >= 0x20
    ensures |EscapeAll(s)| <= 2 * |s|
  {
    if s != [] { EscapedTwice(s[1..]); }
  }

  lemma TextCost(k: bytes, t: bytes)
    requires Plain(k)
    ensures MemberCost(Member(k, Str(t))) == |k| + 2 + 1 + |EncodeText(t)|
  {
    PlainLength(k);
  }

  lemma DigestPlain(s: bytes)
    requires Digest(s)
    ensures Plain(s) && |EncodeText(s)| == 66 && Clean(s, true)
  {
    PlainLength(s);
  }

  lemma SizePlain(s: bytes)
    requires Size(s)
    ensures Plain(s) && |EncodeText(s)| <= 22 && Clean(s, true)
  {
    PlainLength(s);
  }

  lemma CleanText(s: bytes)
    requires Clean(s, false)
    ensures |EncodeText(s)| <= 2 * |s| + 2 && Clean(s, true)
  {
    CleanBytes(s);
    EscapedTwice(s);
  }

  lemma EntryCost(f: FileEntry)
    ensures |Encode(EntryValue(f))| == 28 + |EncodeText(f.path)| + |EncodeText(f.sha256)| + |EncodeText(f.size)|
  {
    hide EncodeText;
    var ms := EntryMembers(f);
    ObjectLength(ms);
    assert ms[1..][1..] == [ms[2]];
    OneCost(ms[2]);
    assert Cost(ms) == MemberCost(ms[0]) + (MemberCost(ms[1]) + MemberCost(ms[2]));
    TextCost(PATH, f.path);
    TextCost(SHA256, f.sha256);
    TextCost(BYTES, f.size);
  }

  /** One entry and its comma are at most 375 bytes. */
  lemma EntryBound(f: FileEntry)
    requires ValidEntry(f)
    ensures |Encode(EntryValue(f))| + 1 <= 375
  {
    EntryCost(f);
    CleanText(f.path);
    DigestPlain(f.sha256);
    SizePlain(f.size);
  }

  function Repeat(c: byte, n: nat): (r: bytes)
    ensures |r| == n && forall i :: 0 <= i < n ==> r[i] == c
  {
    seq(n, _ => c)
  }

  lemma {:induction false} RepeatClean(n: nat)
    ensures Clean(Repeat(QUOTE, n), false) && |EncodeText(Repeat(QUOTE, n))| == 2 * n + 2
  {
    if n > 0 {
      RepeatClean(n - 1);
      assert Repeat(QUOTE, n)[1..] == Repeat(QUOTE, n - 1);
    }
  }

  function LargestEntry(): FileEntry { FileEntry(Repeat(QUOTE, 128), Repeat(0x30, 64), Repeat(0x31, 20)) }

  lemma RepeatDigest(n: nat)
    ensures n == 64 ==> Digest(Repeat(0x30, n))
    ensures 1 <= n <= 20 ==> Size(Repeat(0x31, n))
  {
  }

  lemma RepeatPath(n: nat)
    requires 1 <= n <= 128
    ensures FilePath(Repeat(QUOTE, n)) && |EncodeText(Repeat(QUOTE, n))| == 2 * n + 2
  {
    RepeatClean(n);
    hide Clean, EncodeText;
  }

  lemma RepeatText(n: nat)
    requires 1 <= n <= 20
    ensures |EncodeText(Repeat(0x31, n))| == n + 2
  {
    PlainLength(Repeat(0x31, n));
  }

  /** The bound of 375 is met; it is one more than the 374 its comment counts. */
  lemma EntryBoundMet()
    ensures ValidEntry(LargestEntry()) && |Encode(EntryValue(LargestEntry()))| + 1 == 375
  {
    hide Encode, EncodeText, EntryMembers, Repeat, FilePath, Digest, Size;
    RepeatPath(128);
    RepeatDigest(64);
    RepeatDigest(20);
    RepeatText(20);
    DigestPlain(Repeat(0x30, 64));
    EntryCost(LargestEntry());
  }

  lemma {:induction false} FilesBound(fs: seq<FileEntry>)
    requires forall f :: f in fs ==> ValidEntry(f)
    ensures FilesCost(fs) <= 374 * |fs|
  {
    hide Encode, ValidEntry;
    if fs != [] {
      assert fs[0] in fs;
      EntryBound(fs[0]);
      FilesBound(fs[1..]);
    }
  }

  lemma HeadKeys()
    ensures Plain(PROFILE) && |PROFILE| == 7 && Plain(QUEUE_ID) && |QUEUE_ID| == 7 && Plain(EXPORTED) && |EXPORTED| == 13
    ensures Plain(HEAD_SUM) && |HEAD_SUM| == 10 && Plain(VERSION_SUM) && |VERSION_SUM| == 13 && Plain(BARRIER_SUM) && |BARRIER_SUM| == 13
    ensures Plain(WORKTREE) && |WORKTREE| == 15 && Plain(INTENT_SUM) && |INTENT_SUM| == 16 && Plain(ARCHIVE_0) && |ARCHIVE_0| == 17
  {
    FirstKeys();
    SecondKeys();
    hide Plain, Ascii;
  }

  lemma FirstKeys()
    ensures Plain(PROFILE) && |PROFILE| == 7 && Plain(QUEUE_ID) && |QUEUE_ID| == 7 && Plain(EXPORTED) && |EXPORTED| == 13
    ensures Plain(HEAD_SUM) && |HEAD_SUM| == 10 && Plain(VERSION_SUM) && |VERSION_SUM| == 13
  {
  }

  lemma SecondKeys()
    ensures Plain(BARRIER_SUM) && |BARRIER_SUM| == 13
    ensures Plain(WORKTREE) && |WORKTREE| == 15 && Plain(INTENT_SUM) && |INTENT_SUM| == 16 && Plain(ARCHIVE_0) && |ARCHIVE_0| == 17
  {
  }

  lemma FootKeys()
    ensures Plain(RECEIPTS) && |RECEIPTS| == 12 && Plain(LAST_SUM) && |LAST_SUM| == 17 && Plain(GENERATION) && |GENERATION| == 14
    ensures Plain(COMPLETE) && |COMPLETE| == 8 && Plain(FILES) && |FILES| == 5
    ensures Plain(PATH) && |PATH| == 4 && Plain(SHA256) && |SHA256| == 6 && Plain(BYTES) && |BYTES| == 5
  {
  }

  lemma DigestMember(k: bytes, t: bytes)
    requires Plain(k) && Digest(t)
    ensures MemberCost(Member(k, Str(t))) == |k| + 69
  {
    DigestPlain(t);
    TextCost(k, t);
  }

  lemma SizeMember(k: bytes, t: bytes)
    requires Plain(k) && Size(t)
    ensures MemberCost(Member(k, Str(t))) <= |k| + 25
  {
    SizePlain(t);
    TextCost(k, t);
  }

  lemma PlainMember(k: bytes, t: bytes)
    requires Plain(k) && Plain(t)
    ensures MemberCost(Member(k, Str(t))) == |k| + |t| + 5
  {
    PlainLength(t);
    TextCost(k, t);
  }

  lemma PathMember(k: bytes, t: bytes)
    requires Plain(k) && Clean(t, false)
    ensures MemberCost(Member(k, Str(t))) <= |k| + 2 * |t| + 5
  {
    CleanText(t);
    TextCost(k, t);
  }

  lemma BarrierMember(k: bytes, v: Value)
    requires Plain(k) && (v.Null? || (v.Str? && Digest(v.text)))
    ensures MemberCost(Member(k, v)) <= |k| + 69
  {
    PlainLength(k);
    if v.Str? { DigestPlain(v.text); }
  }

  lemma HeadBound(m: Manifest)
    requires ValidManifest(m)
    ensures Cost(Head(m)) <= 8747
  {
    HeadKeys();
    hide MemberCost, Encode, Clean, Cost, Plain, Ascii, Digest, Size;
    PlainMember(PROFILE, ARCHIVE_0);
    PlainMember(QUEUE_ID, m.queueId);
    SizeMember(EXPORTED, m.exportedAtSeq);
    DigestMember(HEAD_SUM, m.headSha256);
    DigestMember(VERSION_SUM, m.versionSha256);
    BarrierMember(BARRIER_SUM, m.barrierSha256);
    PathMember(WORKTREE, m.primaryWorktree);
    DigestMember(INTENT_SUM, m.intentTreeSha256);
    EightCosts(Head(m));
  }

  lemma EightCosts(ms: seq<Member>)
    requires |ms| == 8
    ensures Cost(ms) == MemberCost(ms[0]) + MemberCost(ms[1]) + MemberCost(ms[2]) + MemberCost(ms[3])
                        + MemberCost(ms[4]) + MemberCost(ms[5]) + MemberCost(ms[6]) + MemberCost(ms[7])
  {
    hide MemberCost;
    assert ms == ms[..4] + ms[4..];
    CostConcat(ms[..4], ms[4..]);
    FourCosts(ms[..4]);
    FourCosts(ms[4..]);
  }

  lemma FourCosts(ms: seq<Member>)
    requires |ms| == 4
    ensures Cost(ms) == MemberCost(ms[0]) + MemberCost(ms[1]) + MemberCost(ms[2]) + MemberCost(ms[3])
  {
    hide MemberCost;
    assert ms[1..][1..] == ms[2..] && ms[2..][1..] == [ms[3]];
    OneCost(ms[3]);
    assert Cost(ms[2..]) == MemberCost(ms[2]) + Cost([ms[3]]);
    assert Cost(ms[1..]) == MemberCost(ms[1]) + Cost(ms[2..]);
  }

  lemma FootBound(m: Manifest)
    requires ValidManifest(m)
    ensures Cost(Foot(m)) <= 177
  {
    FootKeys();
    hide MemberCost, Encode, Clean, Cost, Plain, Ascii, Digest, Size;
    SizeMember(RECEIPTS, m.receiptCount);
    DigestMember(LAST_SUM, m.lastReceiptSha256);
    SizeMember(GENERATION, m.headGeneration);
    CompleteCost();
    FourCosts(Foot(m));
  }

  lemma CompleteCost()
    ensures MemberCost(Member(COMPLETE, Bool(true))) == 15
  {
    FootKeys();
    hide Plain, Ascii, EncodeText;
    PlainLength(COMPLETE);
    assert Encode(Bool(true)) == TRUE_TEXT;
  }

  /** Every valid manifest of at most 2,100,000 files is under the 768 MiB cap, entry by
      entry of 375 bytes and not 374. */
  lemma ManifestFits(m: Manifest)
    requires ValidManifest(m)
    ensures |EncodeManifest(m)| <= 8949 + 375 * |m.files| <= 787508949 < MAX_MANIFEST
  {
    hide EncodeText, Encode, Cost, Clean;
    ManifestLength(m);
    HeadBound(m);
    FootBound(m);
    FilesBound(m.files);
    PlainLength(FILES);
  }
}
