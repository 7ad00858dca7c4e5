/** The bounded readers and writers an archive passes through. */
module Streams {
  import opened Utf8
  import opened ArchiveCost

  /** What comes with a read or write. */
  datatype Status = Fine | Ended | Failed | OverLimit

  /** A source that hands out its bytes in pieces of its own choosing. */
  class Source {
    var pending: bytes
    var script: seq<(nat, Status)>

    constructor (data: bytes, plan: seq<(nat, Status)>)
      ensures pending == data && script == plan
    {
      pending, script := data, plan;
    }

    method Read(max: nat) returns (chunk: bytes, status: Status)
      modifies this
      ensures |chunk| <= max && old(pending) == chunk + pending
    {
      var n, s := max, Ended;
      if script != [] {
        if script[0].0 < n { n := script[0].0; }
        s, script := script[0].1, script[1..];
      }
      if |pending| < n { n := |pending|; }
      chunk, status := pending[..n], s;
      pending := pending[n..];
    }
  }

  /** Passes on at most `limit` bytes; one byte more is looked at, never passed on. */
  class StreamReader {
    const src: Source
    const limit: nat
    var n: nat
    var exceeded: bool
    var sourceErr: bool
    ghost var whole: bytes
    ghost var passed: bytes

    ghost predicate Valid()
      reads this, src
    {
      && n == |passed| <= limit && passed <= whole
      && (exceeded ==> n == limit < |whole|)
      && (!exceeded ==> passed + src.pending == whole)
    }

    constructor (s: Source, max: nat)
      ensures src == s && limit == max && Valid() && passed == [] && whole == s.pending && !exceeded && !sourceErr
    {
      src, limit, n, exceeded, sourceErr := s, max, 0, false, false;
      whole, passed := s.pending, [];
    }

    /** The bytes passed on stay the first bytes of the source, at most `limit` of them;
        the excess is reported exactly when the limit is reached and the source gives more. */
    method Read(max: nat) returns (chunk: bytes, status: Status)
      requires Valid()
      modifies this, src
      ensures Valid() && whole == old(whole) && |chunk| <= max && passed == old(passed) + chunk
      ensures !old(exceeded) ==> (exceeded <==> |old(src.pending)| - |src.pending| > |chunk|)
      ensures exceeded && !old(exceeded) ==> status.OverLimit? && chunk == [] && old(n) == limit && |old(src.pending)| - |src.pending| == 1
      ensures !exceeded ==> old(src.pending) == chunk + src.pending
      ensures old(n) == limit && old(src.pending) == [] ==> exceeded == old(exceeded)
      ensures old(exceeded) ==> exceeded && chunk == []
      ensures old(sourceErr) ==> sourceErr
    {
      if max == 0 { return [], Fine; }
      var remaining := limit - n;
      if remaining == 0 {
        var one, s := ReadSource(1);
        if |one| != 0 {
          exceeded := true;
          return [], Status.OverLimit;
        }
        return [], s;
      }
      chunk, status := ReadSource(if max > remaining then remaining else max);
      n := n + |chunk|;
      passed := passed + chunk;
    }

    /** The first failure of the source is remembered. */
    method ReadSource(max: nat) returns (chunk: bytes, status: Status)
      modifies this`sourceErr, src
      ensures |chunk| <= max && old(src.pending) == chunk + src.pending
      ensures sourceErr <==> old(sourceErr) || status.Failed?
    {
      chunk, status := src.Read(max);
      if status.Failed? { sourceErr := true; }
    }
  }

  const WINDOW: nat := 1024

  /** `w` ends with the last bytes of `seen`, as many as there are room for. */
  ghost predicate Holds(w: bytes, seen: bytes) {
    && |w| == WINDOW
    && forall i :: 0 <= i < WINDOW && |seen| - WINDOW + i >= 0 ==> w[i] == seen[|seen| - WINDOW + i]
  }

  /** The window of more is the window moved over by what came. */
  lemma Slides(was: bytes, seen: bytes, chunk: bytes, now: bytes)
    requires Holds(was, seen) && |now| == WINDOW
    requires if |chunk| >= WINDOW then now == chunk[|chunk| - WINDOW..] else now == was[|chunk|..] + chunk
    ensures Holds(now, seen + chunk)
  {
    var all := seen + chunk;
    forall i | 0 <= i < WINDOW && |all| - WINDOW + i >= 0 ensures now[i] == all[|all| - WINDOW + i] {
      if |chunk| < WINDOW && i + |chunk| < WINDOW {
        assert was[i + |chunk|] == seen[|seen| - WINDOW + (i + |chunk|)];
      }
    }
  }

  /** Counts what it reads and keeps the last 1,024 bytes in place. */
  class TailReader {
    const r: StreamReader
    const last: array<byte>
    var n: nat
    var fill: nat
    ghost var seen: bytes

    ghost predicate Window()
      reads this, last
    {
      && last.Length == WINDOW && n == |seen| && fill == (if |seen| < WINDOW then |seen| else WINDOW)
      && Holds(last[..], seen)
    }

    ghost predicate Valid()
      reads this, last, r, r.src
    {
      Window() && r.Valid() && seen == r.passed
    }

    constructor (reader: StreamReader)
      requires reader.Valid() && reader.passed == []
      ensures r == reader && Valid() && fresh(last)
    {
      r, last, n, fill, seen := reader, new byte[WINDOW], 0, 0, [];
    }

    /** What it has seen is what its reader passed on. */
    method Read(max: nat) returns (chunk: bytes, status: Status)
      requires Valid()
      modifies this, last, r, r.src
      ensures Valid() && r.whole == old(r.whole) && |chunk| <= max && seen == old(seen) + chunk
      ensures n <= r.limit && seen <= r.whole
    {
      chunk, status := r.Read(max);
      if |chunk| > 0 { Shift(chunk); }
      assert |chunk| == 0 ==> old(seen) + chunk == old(seen);
    }

    /** Slides the window over a chunk, in the array itself. */
    method Shift(chunk: bytes)
      requires Window()
      modifies this, last
      ensures Window() && seen == old(seen) + chunk
    {
      hide Holds;
      ghost var was := last[..];
      n := n + |chunk|;
      if |chunk| >= last.Length {
        CopyIn(0, chunk[|chunk| - last.Length..]);
        fill := last.Length;
      } else {
        var keep := last.Length - |chunk|;
        SlideLeft(|chunk|);
        CopyIn(keep, chunk);
        fill := if fill + |chunk| > last.Length then last.Length else fill + |chunk|;
      }
      Slides(was, seen, chunk, last[..]);
      seen := seen + chunk;
    }

    /** Everything from `shift` on moves to the front. */
    method SlideLeft(shift: nat)
      requires shift <= last.Length
      modifies last
      ensures last[..last.Length - shift] == old(last[shift..])
    {
      var i := 0;
      while i < last.Length - shift
        invariant i <= last.Length - shift
        invariant forall j :: 0 <= j < i ==> last[j] == old(last[j + shift])
        invariant forall j :: i <= j < last.Length ==> last[j] == old(last[j])
      {
        last[i] := last[i + shift];
        i := i + 1;
      }
    }

    /** `part` is copied to the positions from `start` on. */
    method CopyIn(start: nat, part: bytes)
      requires start + |part| == last.Length
      modifies last
      ensures last[..] == old(last[..start]) + part
    {
      var i := 0;
      while i < |part|
        invariant i <= |part|
        invariant forall j :: 0 <= j < start ==> last[j] == old(last[j])
        invariant forall j :: 0 <= j < i ==> last[start + j] == part[j]
      {
        last[start + i] := part[i];
        i := i + 1;
      }
      assert last[..start] == old(last[..start]);
      assert last[start..] == part;
    }

    /** Whether the last 1,024 bytes read are all zero, and there were that many. */
    method LastZero() returns (zero: bool)
      requires Window()
      ensures zero <==> |seen| >= WINDOW && seen[|seen| - WINDOW..] == Zeros(WINDOW)
    {
      if fill < last.Length { return false; }
      var i := 0;
      while i < last.Length
        invariant i <= last.Length && forall j :: 0 <= j < i ==> last[j] == 0
      {
        if last[i] != 0 {
          assert seen[|seen| - WINDOW..][i] == last[i];
          return false;
        }
        i := i + 1;
      }
      ghost var w := seen[|seen| - WINDOW..];
      assert |w| == WINDOW && forall j :: 0 <= j < WINDOW ==> w[j] == last[j] == 0;
      assert w == Zeros(WINDOW);
      return true;
    }

    /** The end marker stands right after the data: two zero blocks and nothing else. */
    method AtEnd(dataEnd: nat) returns (ok: bool)
      requires Window()
      ensures ok <==> dataEnd <= |seen| && seen == seen[..dataEnd] + Zeros(TRAILER)
    {
      var zero := LastZero();
      ok := n == dataEnd + TRAILER && zero;
      if ok { assert seen == seen[..dataEnd] + seen[dataEnd..]; }
      if dataEnd <= |seen| && seen == seen[..dataEnd] + Zeros(TRAILER) { assert seen[dataEnd..] == Zeros(TRAILER); }
    }
  }

  /** Read to the end in pieces of any size, the window holds the end of what was passed. */
  method Drain(t: TailReader, pieces: seq<nat>)
    requires t.Valid()
    modifies t, t.last, t.r, t.r.src
    ensures t.Valid() && t.r.whole == old(t.r.whole)
    ensures t.fill == (if |t.seen| < WINDOW then |t.seen| else WINDOW) && t.last[WINDOW - t.fill..] == t.seen[|t.seen| - t.fill..]
    ensures t.seen <= t.r.whole && |t.seen| <= t.r.limit
  {
    var i := 0;
    while i < |pieces|
      invariant i <= |pieces| && t.Valid() && t.r.whole == old(t.r.whole)
    {
      var chunk, status := t.Read(pieces[i]);
      i := i + 1;
    }
  }

  /** Refuses a write before it would pass the limit. */
  class StreamWriter {
    const limit: nat
    var n: nat
    var exceeded: bool
    var sink: bytes

    ghost predicate Valid()
      reads this
    {
      n == |sink| <= limit
    }

    constructor (max: nat)
      ensures limit == max && Valid() && sink == [] && !exceeded
    {
      limit, n, exceeded, sink := max, 0, false, [];
    }

    /** `takes` is how much the writer below takes. */
    method Write(p: bytes, takes: nat) returns (written: nat, status: Status)
      requires Valid()
      modifies this
      ensures Valid() && written <= |p| && sink == old(sink) + p[..written]
      ensures status.OverLimit? <==> |old(sink)| + |p| > limit
      ensures status.OverLimit? ==> written == 0 && exceeded
      ensures !status.OverLimit? ==> exceeded == old(exceeded) && written == (if takes < |p| then takes else |p|)
    {
      if |p| > limit - n {
        exceeded := true;
        return 0, Status.OverLimit;
      }
      written := if takes < |p| then takes else |p|;
      sink := sink + p[..written];
      n := n + written;
      status := if written < |p| then Failed else Fine;
    }
  }

  /** Cut short anywhere or followed by anything, the stream of an archive is not the
      stream: it alone ends in its marker where its entries end. */
  lemma OnlyWhole(h: Headers, es: seq<Entry>, seen: bytes)
    requires seen <= Tar(h, es) || Tar(h, es) <= seen
    ensures var dataEnd := |Entries(h, es)|;
      dataEnd <= |seen| && seen == seen[..dataEnd] + Zeros(TRAILER) <==> seen == Tar(h, es)
  {
    var d := |Entries(h, es)|;
    if d <= |seen| && seen == seen[..d] + Zeros(TRAILER) {
      assert |seen| == |Tar(h, es)|;
    }
    if seen == Tar(h, es) { assert seen[..d] == Entries(h, es); }
  }
}
