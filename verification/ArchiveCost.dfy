/** Measuring an archive without writing it. */
module ArchiveCost {
  import opened Utf8
  import opened Wire
  import opened Codec
  import opened Archive

  const MAX_UINT64: nat := 0xFFFF_FFFF_FFFF_FFFF
  const MAX_INT64: nat := 0x7FFF_FFFF_FFFF_FFFF
  const MAX_ARCHIVE: nat := 64 * 1024 * 1024 * 1024
  const BLOCK: nat := 512
  const TRAILER: nat := 1024

  datatype Measured = Bytes(n: nat) | Overflow | OverLimit

  /** Unsigned 64-bit addition that refuses to wrap. */
  function CheckedAdd(a: nat, b: nat): (r: Measured)
    requires a <= MAX_UINT64
    ensures r == if a + b <= MAX_UINT64 then Bytes(a + b) else Overflow
  {
    if b > MAX_UINT64 - a then Overflow else Bytes(a + b)
  }

  function AddWithin(a: nat, b: nat, limit: nat): (r: Measured)
    requires a <= limit <= MAX_UINT64
    ensures r.Bytes? <==> a + b <= limit
    ensures r.Bytes? ==> r.n == a + b
  {
    match CheckedAdd(a, b)
    case Bytes(n) => if n > limit then OverLimit else Bytes(n)
    case bad => bad
  }

  /** The least multiple of the block that holds `n` bytes, unless it leaves 64 bits. */
  function RoundBody(n: nat): (r: Measured)
    requires n <= MAX_UINT64
    ensures r.Bytes? ==> r.n % BLOCK == 0 && n <= r.n < n + BLOCK
    ensures r.Bytes? <==> n <= MAX_UINT64 - MAX_UINT64 % BLOCK
  {
    var remainder := n % BLOCK;
    if remainder == 0 then Bytes(n) else CheckedAdd(n, BLOCK - remainder)
  }

  /** The manifest's encoded length, whatever the order of its files; refused exactly over
      the cap, and never for a valid manifest. */
  method MeasureManifest(m: Manifest) returns (r: Measured)
    ensures r.Bytes? <==> |EncodeManifest(m)| <= MAX_MANIFEST
    ensures r.Bytes? ==> r.n == |EncodeManifest(m)|
    ensures ValidManifest(m) ==> r.Bytes?
  {
    MeasureIsExact(m);
    if ValidManifest(m) { ManifestFits(m); }
    hide EncodeManifest, EntryValue, Encode, ValidManifest;
    var n: nat := |EncodeManifest(m.(files := []))|;
    if n > MAX_MANIFEST { return OverLimit; }
    var i := 0;
    assert m.files[0..] == m.files;
    while i < |m.files|
      invariant i <= |m.files| && n <= MAX_MANIFEST
      invariant n + FilesCost(m.files[i..]) + (if i == 0 then Commas(|m.files|) else |m.files| - i) == |EncodeManifest(m)|
    {
      assert m.files[i..][0] == m.files[i] && m.files[i..][1..] == m.files[i + 1..];
      if i > 0 {
        r := AddWithin(n, 1, MAX_MANIFEST);
        if !r.Bytes? { return; }
        n := r.n;
      }
      r := AddWithin(n, |Encode(EntryValue(m.files[i]))|, MAX_MANIFEST);
      if !r.Bytes? { return; }
      n := r.n;
      i := i + 1;
    }
    assert m.files[i..] == [];
    return Bytes(n);
  }

  // ----- the tar stream -----

  function Zeros(n: nat): (r: bytes)
    ensures |r| == n && forall i :: 0 <= i < n ==> r[i] == 0
  {
    seq(n, _ => 0)
  }

  /** A body and the zero bytes that fill its last block. */
  function Blocked(body: bytes): (r: bytes)
    ensures |r| % BLOCK == 0 && |body| <= |r| < |body| + BLOCK
  {
    body + Zeros((BLOCK - |body| % BLOCK) % BLOCK)
  }

  /** A named file and its bytes. */
  datatype Entry = Entry(name: bytes, body: bytes)

  /** The headers as the tar writer makes them, from name and size. */
  type Headers = (bytes, nat) -> bytes

  function Entries(h: Headers, es: seq<Entry>): bytes {
    if es == [] then [] else h(es[0].name, |es[0].body|) + Blocked(es[0].body) + Entries(h, es[1..])
  }

  /** Every entry in order, then the end marker. */
  function Tar(h: Headers, es: seq<Entry>): bytes { Entries(h, es) + Zeros(TRAILER) }

  /** The length of the whole stream, from names and sizes alone; refused exactly over the
      archive limit. */
  method MeasureTar(h: Headers, es: seq<Entry>) returns (r: Measured)
    ensures r.Bytes? <==> |Tar(h, es)| <= MAX_ARCHIVE
    ensures r.Bytes? ==> r.n == |Tar(h, es)|
  {
    var total: nat, i := 0, 0;
    assert es[0..] == es;
    while i < |es|
      invariant i <= |es| && total <= MAX_ARCHIVE
      invariant total + |Entries(h, es[i..])| == |Entries(h, es)|
    {
      assert es[i..][0] == es[i] && es[i..][1..] == es[i + 1..];
      var size := |es[i].body|;
      if size > MAX_INT64 { return Overflow; }
      r := AddWithin(total, |h(es[i].name, size)|, MAX_ARCHIVE);
      if !r.Bytes? { return; }
      total := r.n;
      var body := RoundBody(size);
      assert body.n == |Blocked(es[i].body)|;
      r := AddWithin(total, body.n, MAX_ARCHIVE);
      if !r.Bytes? { return; }
      total := r.n;
      i := i + 1;
    }
    assert es[i..] == [];
    r := AddWithin(total, TRAILER, MAX_ARCHIVE);
  }
}
