/** The retained files of a store as an archive would charge for them. A cost is a sum
    over the files, so an inventory with fewer and smaller files costs no more. */
module Inventory {

  /** Retained paths. A request index is named by a digest: its first byte is the shard. */
  datatype Kept =
    | HeadJson | VersionText | ReservationsJson | BarrierJson
    | QueueJson | PolicyJson
    | TicketJson(local: string) | ReleaseJson(releaseId: string)
    | PinnedJson(pin: string) | EvidenceBlob(blob: string)
    | RequestJson(shard: nat, digest: nat) | ReceiptJson(seqNo: nat)

  datatype Dir = Receipts | Requests | Shard(n: nat) | EvidenceDir | PinnedDir | Staging | Other(name: string)

  datatype Meta = Meta(sha: string, bytes: nat)

  datatype Books = Books(files: map<Kept, Meta>, dirs: set<Dir>)

  predicate Intent(p: Kept) { p.QueueJson? || p.PolicyJson? || p.TicketJson? || p.ReleaseJson? }

  /** The directories a file lives in, below the state root. */
  function Parents(p: Kept): set<Dir> {
    match p
    case ReceiptJson(_) => {Receipts}
    case RequestJson(s, _) => {Requests, Shard(s)}
    case EvidenceBlob(_) => {EvidenceDir}
    case PinnedJson(_) => {PinnedDir}
    case _ => {}
  }

  /** Retain `m` at `p`, over whatever was there. */
  function Put(b: Books, p: Kept, m: Meta): Books { Books(b.files[p := m], b.dirs + Parents(p)) }

  // ----- the tariff -----

  /** What the archive encoder charges: the manifest without its files, the tar header
      and the manifest entry of a name (sizes apart), the size bound of a name, and how
      long a head is that names a given last receipt. */
  datatype Tariff = Tariff(envelope: nat, manifestHeader: nat, header: Kept -> nat, entry: Kept -> nat, bound: Kept -> nat, headSize: nat -> nat)

  /** Names of one kind and one length are charged alike. */
  ghost predicate Uniform(t: Tariff) {
    forall s: nat, d: nat, s': nat, d': nat ::
      && t.header(RequestJson(s, d)) == t.header(RequestJson(s', d'))
      && t.entry(RequestJson(s, d)) == t.entry(RequestJson(s', d'))
      && t.bound(RequestJson(s, d)) == t.bound(RequestJson(s', d'))
  }

  const BLOCK: nat := 512
  const TRAILER: nat := 1024
  const NULL_BYTES: nat := 4
  const QUOTED_DIGEST_BYTES: nat := 66

  function RoundBlock(n: nat): (r: nat)
    ensures r % BLOCK == 0 && n <= r < n + BLOCK
  {
    if n % BLOCK == 0 then n else n + (BLOCK - n % BLOCK)
  }

  /** Decimal digits. */
  function Digits(n: nat): (d: nat)
    ensures d >= 1
  {
    if n < 10 then 1 else 1 + Digits(n / 10)
  }

  lemma {:induction false} DigitsGrow(a: nat, b: nat)
    requires a <= b
    ensures Digits(a) <= Digits(b)
  {
    if a >= 10 { DigitsGrow(a / 10, b / 10); }
  }

  lemma RoundGrows(a: nat, b: nat)
    requires a <= b
    ensures RoundBlock(a) <= RoundBlock(b)
  {
    assert RoundBlock(a) == (a + BLOCK - 1) / BLOCK * BLOCK;
    assert RoundBlock(b) == (b + BLOCK - 1) / BLOCK * BLOCK;
  }

  // ----- totals over files -----

  /** What is counted over the files: how many, how many a scan of the state directory
      meets, their bytes, their manifest entries, their tar blocks, and the receipts,
      evidence and intent among them. */
  datatype Tally = Tally(files: nat, scanned: nat, payload: nat, entries: nat, tar: nat, journalCount: nat,
                         journalBytes: nat, evidence: nat, intentBytes: nat)

  const NOTHING: Tally := Tally(0, 0, 0, 0, 0, 0, 0, 0, 0)

  function Only(counts: bool, n: nat): nat { if counts then n else 0 }

  function Charge(t: Tariff, p: Kept, m: Meta): Tally {
    Tally(1, Only(!Intent(p), 1), m.bytes, t.entry(p) + Digits(m.bytes), t.header(p) + RoundBlock(m.bytes),
          Only(p.ReceiptJson?, 1), Only(p.ReceiptJson?, m.bytes), Only(p.EvidenceBlob?, m.bytes), Only(Intent(p), m.bytes))
  }

  function Plus(a: Tally, b: Tally): Tally {
    Tally(a.files + b.files, a.scanned + b.scanned, a.payload + b.payload, a.entries + b.entries, a.tar + b.tar,
          a.journalCount + b.journalCount, a.journalBytes + b.journalBytes, a.evidence + b.evidence, a.intentBytes + b.intentBytes)
  }

  ghost function Totals(t: Tariff, fs: map<Kept, Meta>): Tally
    decreases |fs|
  {
    if fs == map[] then NOTHING
    else
      var p :| p in fs;
      Plus(Charge(t, p, fs[p]), Totals(t, fs - {p}))
  }

  lemma PlusSwaps(a: Tally, b: Tally, c: Tally)
    ensures Plus(a, Plus(b, c)) == Plus(b, Plus(a, c)) == Plus(Plus(a, b), c)
  {
  }

  lemma TotalsPick(t: Tariff, fs: map<Kept, Meta>) returns (q: Kept)
    requires fs != map[]
    ensures q in fs && Totals(t, fs) == Plus(Charge(t, q, fs[q]), Totals(t, fs - {q}))
  {
    q :| q in fs && Totals(t, fs) == Plus(Charge(t, q, fs[q]), Totals(t, fs - {q}));
  }

  /** Any file may be counted first. */
  lemma {:induction false} TotalsTake(t: Tariff, fs: map<Kept, Meta>, p: Kept)
    requires p in fs
    ensures Totals(t, fs) == Plus(Charge(t, p, fs[p]), Totals(t, fs - {p}))
    decreases |fs|
  {
    hide Charge, Plus;
    var q := TotalsPick(t, fs);
    if q != p {
      TotalsTake(t, fs - {q}, p);
      TotalsTake(t, fs - {p}, q);
      assert fs - {q} - {p} == fs - {p} - {q};
      PlusSwaps(Charge(t, q, fs[q]), Charge(t, p, fs[p]), Totals(t, fs - {q} - {p}));
    }
  }

  predicate NoBigger(f: map<Kept, Meta>, g: map<Kept, Meta>) {
    forall p :: p in f ==> p in g && f[p].bytes <= g[p].bytes
  }

  predicate NoMore(a: Tally, b: Tally) {
    && a.files <= b.files && a.scanned <= b.scanned && a.payload <= b.payload && a.entries <= b.entries && a.tar <= b.tar
    && a.journalCount <= b.journalCount && a.journalBytes <= b.journalBytes && a.evidence <= b.evidence && a.intentBytes <= b.intentBytes
  }

  lemma ChargeGrows(t: Tariff, p: Kept, m: Meta, n: Meta)
    requires m.bytes <= n.bytes
    ensures NoMore(Charge(t, p, m), Charge(t, p, n))
  {
    DigitsGrow(m.bytes, n.bytes);
    RoundGrows(m.bytes, n.bytes);
  }

  lemma {:induction false} TotalsGrow(t: Tariff, f: map<Kept, Meta>, g: map<Kept, Meta>)
    requires NoBigger(f, g)
    ensures NoMore(Totals(t, f), Totals(t, g))
    decreases |f|
  {
    if f != map[] {
      var p :| p in f;
      TotalsTake(t, f, p);
      TotalsTake(t, g, p);
      ChargeGrows(t, p, f[p], g[p]);
      TotalsGrow(t, f - {p}, g - {p});
    }
  }

  // ----- the cost -----

  datatype Cost = Cost(files: nat, scanned: nat, payload: nat, manifest: nat, tar: nat, journalCount: nat,
                       journalBytes: nat, evidence: nat, intentBytes: nat, temporary: nat, promised: nat)

  /** The manifest: its envelope, the receipt count twice, the barrier digest or null,
      one entry a file and a comma between entries. */
  function ManifestSize(t: Tariff, y: Tally, barrier: bool): nat {
    t.envelope + 2 * Digits(y.journalCount) + (if barrier then QUOTED_DIGEST_BYTES else NULL_BYTES)
    + y.entries + (if y.files > 0 then y.files - 1 else 0)
  }

  function Price(t: Tariff, y: Tally, barrier: bool, dirs: nat, temporary: nat, promised: nat, names: nat): Cost {
    var manifest := ManifestSize(t, y, barrier);
    Cost(y.files, dirs + y.scanned + names, y.payload, manifest, t.manifestHeader + RoundBlock(manifest) + y.tar + TRAILER,
         y.journalCount, y.journalBytes, y.evidence, y.intentBytes, temporary, promised)
  }

  ghost function CostOf(t: Tariff, b: Books, temporary: nat, promised: nat, names: nat): Cost {
    Price(t, Totals(t, b.files), BarrierJson in b.files, |b.dirs|, temporary, promised, names)
  }

  datatype Limits = Limits(files: nat, scan: nat, manifest: nat, tar: nat, journalCount: nat, journalBytes: nat, evidence: nat, intentBytes: nat)

  const MAX_UINT64: nat := 0xFFFF_FFFF_FFFF_FFFF
  const MIB: nat := 0x10_0000
  const GIB: nat := 0x4000_0000
  const MAX_FILES: nat := 2100000
  const MAX_RECEIPTS: nat := 1000000
  const HARD: Limits := Limits(MAX_FILES, MAX_FILES + 4096, 768 * MIB, 64 * GIB, MAX_RECEIPTS, 4 * GIB, 16 * GIB, 256 * MIB)

  /** Every limit holds and no 64-bit sum overflows. */
  predicate Within(c: Cost, l: Limits) {
    && c.files <= l.files && c.scanned <= l.scan && c.manifest <= l.manifest && c.tar <= l.tar
    && c.journalCount <= l.journalCount && c.journalBytes <= l.journalBytes && c.evidence <= l.evidence && c.intentBytes <= l.intentBytes
    && c.payload <= MAX_UINT64 && c.temporary + c.promised <= MAX_UINT64
  }

  predicate Bounded(t: Tariff, b: Books) {
    forall p :: p in b.files ==> b.files[p].bytes <= t.bound(p)
  }

  /** An archive of these files can be encoded at all. */
  predicate Encodable(c: Cost) {
    c.files <= HARD.files && c.manifest <= HARD.manifest && c.tar <= HARD.tar && c.payload <= MAX_UINT64
  }

  /** The inventory can be measured, and its cost is within the limits given. */
  ghost predicate Affordable(t: Tariff, b: Books, temporary: nat, promised: nat, names: nat, l: Limits) {
    var c := CostOf(t, b, temporary, promised, names);
    Bounded(t, b) && Encodable(c) && Within(c, l)
  }

  // ----- dominance -----

  predicate Dominated(a: Books, b: Books) {
    NoBigger(a.files, b.files) && a.dirs <= b.dirs
  }

  ghost predicate NoDearer(a: Cost, b: Cost) {
    && a.files <= b.files && a.scanned <= b.scanned && a.payload <= b.payload && a.manifest <= b.manifest && a.tar <= b.tar
    && a.journalCount <= b.journalCount && a.journalBytes <= b.journalBytes && a.evidence <= b.evidence && a.intentBytes <= b.intentBytes
    && a.temporary <= b.temporary && a.promised <= b.promised
  }

  lemma {:induction false} FewerDirs(a: set<Dir>, b: set<Dir>)
    requires a <= b
    ensures |a| <= |b|
  {
    assert b == a + (b - a);
    assert |b| == |a| + |b - a|;
  }

  lemma PriceGrows(t: Tariff, y: Tally, z: Tally, barrier: bool, barrier': bool, dirs: nat, dirs': nat,
                   temporary: nat, promised: nat, names: nat, temporary': nat, promised': nat, names': nat)
    requires NoMore(y, z) && (barrier ==> barrier') && dirs <= dirs' && temporary <= temporary' && promised <= promised' && names <= names'
    ensures NoDearer(Price(t, y, barrier, dirs, temporary, promised, names), Price(t, z, barrier', dirs', temporary', promised', names'))
  {
    DigitsGrow(y.journalCount, z.journalCount);
    RoundGrows(ManifestSize(t, y, barrier), ManifestSize(t, z, barrier'));
  }

  /** Fewer, smaller files under fewer directories cost no more in any dimension. */
  lemma CostGrows(t: Tariff, a: Books, b: Books, temporary: nat, promised: nat, names: nat, temporary': nat, promised': nat, names': nat)
    requires Dominated(a, b) && temporary <= temporary' && promised <= promised' && names <= names'
    ensures NoDearer(CostOf(t, a, temporary, promised, names), CostOf(t, b, temporary', promised', names'))
  {
    FewerDirs(a.dirs, b.dirs);
    TotalsGrow(t, a.files, b.files);
    PriceGrows(t, Totals(t, a.files), Totals(t, b.files), BarrierJson in a.files, BarrierJson in b.files, |a.dirs|, |b.dirs|,
      temporary, promised, names, temporary', promised', names');
  }

  lemma DominatedAffordable(t: Tariff, a: Books, b: Books, temporary: nat, promised: nat, names: nat,
                            temporary': nat, promised': nat, names': nat, l: Limits)
    requires Dominated(a, b) && temporary <= temporary' && promised <= promised' && names <= names'
    requires Affordable(t, b, temporary', promised', names', l)
    ensures Affordable(t, a, temporary, promised, names, l)
  {
    CostGrows(t, a, b, temporary, promised, names, temporary', promised', names');
  }
}
