/** UTF-8 as RFC 3629 section 3 defines it, and the code points no document may hold. */
module Utf8 {
  type byte = b: int | 0 <= b < 256

  type bytes = seq<byte>

  type scalar = r: int | 0 <= r <= 0x10FFFF && !(0xD800 <= r <= 0xDFFF) witness 0

  predicate Tail(s: bytes, i: nat) {
    i < |s| && 0x80 <= s[i] <= 0xBF
  }

  /** The length of the well-formed sequence at the front, or 0 when there is none. */
  function RuneLen(s: bytes): (n: nat)
    ensures n <= |s| && n <= 4
  {
    if s == [] then 0
    else if s[0] < 0x80 then 1
    else if 0xC2 <= s[0] <= 0xDF then (if Tail(s, 1) then 2 else 0)
    else if s[0] == 0xE0 then (if Tail(s, 1) && s[1] >= 0xA0 && Tail(s, 2) then 3 else 0)
    else if s[0] == 0xED then (if Tail(s, 1) && s[1] <= 0x9F && Tail(s, 2) then 3 else 0)
    else if 0xE1 <= s[0] <= 0xEF then (if Tail(s, 1) && Tail(s, 2) then 3 else 0)
    else if s[0] == 0xF0 then (if Tail(s, 1) && s[1] >= 0x90 && Tail(s, 2) && Tail(s, 3) then 4 else 0)
    else if s[0] == 0xF4 then (if Tail(s, 1) && s[1] <= 0x8F && Tail(s, 2) && Tail(s, 3) then 4 else 0)
    else if 0xF1 <= s[0] <= 0xF3 then (if Tail(s, 1) && Tail(s, 2) && Tail(s, 3) then 4 else 0)
    else 0
  }

  function RuneAt(s: bytes): (r: scalar)
    requires RuneLen(s) > 0
  {
    match RuneLen(s)
    case 1 => s[0]
    case 2 => Join(Join(0, s[0] as int - 0xC0), s[1] as int - 0x80)
    case 3 => Join(Join(s[0] as int - 0xE0, s[1] as int - 0x80), s[2] as int - 0x80)
    case _ => Join(Join(Join(s[0] as int - 0xF0, s[1] as int - 0x80), s[2] as int - 0x80), s[3] as int - 0x80)
  }

  /** Six more bits. */
  function Join(high: int, low: int): int {
    high * 64 + low
  }

  function High(r: nat): nat { r / 64 }

  function Low(r: nat): (n: nat)
    ensures n < 64 && r == Join(High(r), n)
  {
    r % 64
  }

  function RuneBytes(r: scalar): (s: bytes)
    ensures 1 <= |s| <= 4
  {
    if r < 0x80 then [r]
    else if r < 0x800 then [0xC0 + High(r), 0x80 + Low(r)]
    else if r < 0x10000 then [0xE0 + High(High(r)), 0x80 + Low(High(r)), 0x80 + Low(r)]
    else [0xF0 + High(High(High(r))), 0x80 + Low(High(High(r))), 0x80 + Low(High(r)), 0x80 + Low(r)]
  }

  lemma TwoBytes(r: scalar, s: bytes)
    requires 0x80 <= r < 0x800 && |s| >= 2 && s[..2] == RuneBytes(r)
    ensures RuneLen(s) == 2 && RuneAt(s) == r
  {
    assert s[0] == s[..2][0] && s[1] == s[..2][1];
    assert 2 <= High(r) < 32;
  }

  lemma ThreeBytes(r: scalar, s: bytes)
    requires 0x800 <= r < 0x10000 && |s| >= 3 && s[..3] == RuneBytes(r)
    ensures RuneLen(s) == 3 && RuneAt(s) == r
  {
    assert s[0] == s[..3][0] && s[1] == s[..3][1] && s[2] == s[..3][2];
    var h := High(r);
    assert 32 <= h < 1024 && 0 <= High(h) < 16;
    assert High(h) == 0 ==> Low(h) >= 32;
    assert High(h) == 13 ==> Low(h) < 32;
  }

  lemma FourBytes(r: scalar, s: bytes)
    requires 0x10000 <= r && |s| >= 4 && s[..4] == RuneBytes(r)
    ensures RuneLen(s) == 4 && RuneAt(s) == r
  {
    assert s[0] == s[..4][0] && s[1] == s[..4][1] && s[2] == s[..4][2] && s[3] == s[..4][3];
    var h := High(r);
    var k := High(h);
    assert 0x400 <= h < 0x4400 && 16 <= k < 272 && 0 <= High(k) <= 4;
    assert High(k) == 0 ==> Low(k) >= 16;
    assert High(k) == 4 ==> Low(k) < 16;
  }

  /** Encoding a scalar gives the one well-formed sequence that decodes to it. */
  lemma RuneDecodes(r: scalar, rest: bytes)
    ensures RuneLen(RuneBytes(r) + rest) == |RuneBytes(r)| && RuneAt(RuneBytes(r) + rest) == r
  {
    var s := RuneBytes(r) + rest;
    assert s[..|RuneBytes(r)|] == RuneBytes(r);
    if 0x10000 <= r { FourBytes(r, s); }
    else if 0x800 <= r { ThreeBytes(r, s); }
    else if 0x80 <= r { TwoBytes(r, s); }
  }

  predicate Valid(s: bytes) {
    s == [] || (RuneLen(s) > 0 && Valid(s[RuneLen(s)..]))
  }

  predicate HostileRune(r: scalar, allowTabLfCr: bool) {
    if r == 0 then true
    else if r == 0x09 || r == 0x0A || r == 0x0D then !allowTabLfCr
    else r < 0x20 || 0x80 <= r <= 0x9F || r == 0xFEFF || r == 0x061C || r == 0x200E || r == 0x200F
         || 0x202A <= r <= 0x202E || 0x2066 <= r <= 0x2069
  }

  /** Well-formed text without a hostile code point. */
  predicate Clean(s: bytes, allowTabLfCr: bool) {
    s == [] || (RuneLen(s) > 0 && !HostileRune(RuneAt(s), allowTabLfCr) && Clean(s[RuneLen(s)..], allowTabLfCr))
  }

  method CheckHostile(s: bytes, allowTabLfCr: bool) returns (ok: bool)
    ensures ok <==> Clean(s, allowTabLfCr)
  {
    hide Clean, RuneLen, RuneAt, HostileRune;
    var i := 0;
    assert s[0..] == s;
    while i < |s|
      invariant i <= |s|
      invariant Clean(s, allowTabLfCr) <==> Clean(s[i..], allowTabLfCr)
    {
      var n := RuneLen(s[i..]);
      CleanStep(s, i, allowTabLfCr);
      if n == 0 { return false; }
      if HostileRune(RuneAt(s[i..]), allowTabLfCr) { return false; }
      i := i + n;
    }
    CleanStep(s, i, allowTabLfCr);
    ok := true;
  }

  lemma CleanStep(s: bytes, i: nat, allowTabLfCr: bool)
    requires i <= |s|
    ensures i == |s| ==> Clean(s[i..], allowTabLfCr)
    ensures i < |s| ==> (Clean(s[i..], allowTabLfCr) <==>
                           var n := RuneLen(s[i..]);
                           n > 0 && !HostileRune(RuneAt(s[i..]), allowTabLfCr) && Clean(s[i + n..], allowTabLfCr))
  {
    hide RuneLen, RuneAt, HostileRune;
    var n := RuneLen(s[i..]);
    if i < |s| && n > 0 { assert s[i..][n..] == s[i + n..]; }
  }

  lemma ValidStep(s: bytes, i: nat)
    requires i <= |s|
    ensures i == |s| ==> Valid(s[i..])
    ensures i < |s| ==> (Valid(s[i..]) <==> var n := RuneLen(s[i..]); n > 0 && Valid(s[i + n..]))
  {
    hide RuneLen;
    var n := RuneLen(s[i..]);
    if i < |s| && n > 0 { assert s[i..][n..] == s[i + n..]; }
  }

  // ----- concatenation -----

  lemma RuneLenPrefix(s: bytes, t: bytes)
    requires RuneLen(s) > 0
    ensures RuneLen(s + t) == RuneLen(s)
  {
    assert forall i :: 0 <= i < |s| ==> (s + t)[i] == s[i];
  }

  lemma {:induction false} ValidConcat(s: bytes, t: bytes)
    requires Valid(s) && Valid(t)
    ensures Valid(s + t)
    decreases |s|
  {
    if s == [] {
      assert s + t == t;
    } else {
      RuneLenPrefix(s, t);
      assert (s + t)[RuneLen(s)..] == s[RuneLen(s)..] + t;
      ValidConcat(s[RuneLen(s)..], t);
    }
  }

  lemma {:induction false} CleanIsValid(s: bytes, allowTabLfCr: bool)
    requires Clean(s, allowTabLfCr)
    ensures Valid(s)
    decreases |s|
  {
    if s != [] { CleanIsValid(s[RuneLen(s)..], allowTabLfCr); }
  }

  /** Bytes below 0x80 are themselves; all others of a rune are above. */
  lemma RuneTails(s: bytes)
    requires RuneLen(s) > 0
    ensures s[0] < 0x80 ==> RuneLen(s) == 1
    ensures s[0] >= 0x80 ==> forall i :: 0 <= i < RuneLen(s) ==> s[i] >= 0x80
  {
  }
}
