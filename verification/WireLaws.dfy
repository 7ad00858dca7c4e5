/** What callers of the codec rely on: files read back, and byte equality of encodings
    is equality of values up to the order of their members. */
module WireLaws {
  import opened Utf8
  import opened Wire
  import opened Codec
  import opened RoundTrip

  lemma OptionsAreTextual(o: Options)
    ensures Textual(BoundsOf(o))
  {
    forall t | BoundsOf(o).admits(t) ensures Valid(t) { CleanIsValid(t, true); }
  }

  /** Under the options of a profile, a document is accepted exactly when it is the file
      of the value returned, that value is canonical, its strings are admissible, and
      its nodes, nesting and arrays are within bounds. */
  lemma ParseWithExactly(data: bytes, o: Options, v: Value)
    ensures ParseWith(data, o) == Outcome.Ok(v) <==>
      && data == EncodeFile(v) && Canonical(v) && CleanTexts(BoundsOf(o), v)
      && Fits(BoundsOf(o), v, 0, false) && NodeCount(v) <= BoundsOf(o).nodes
  {
    OptionsAreTextual(o);
    ParsesExactly(data, BoundsOf(o), v);
  }

  /** Every value within the bounds is read back, in canonical order. */
  lemma FileReadsBack(o: Options, v: Value)
    requires Keyed(v) && CleanTexts(BoundsOf(o), v) && Fits(BoundsOf(o), v, 0, false) && NodeCount(v) <= BoundsOf(o).nodes
    ensures ParseWith(EncodeFile(v), o) == Outcome.Ok(Canon(v))
  {
    CanonIsCanonical(v);
    CanonicalIsCanon(Canon(v));
    CanonKeepsBounds(BoundsOf(o), v, 0, false);
    CanonKeepsNodes(v);
    ParseWithExactly(EncodeFile(v), o, Canon(v));
  }

  // ----- equality -----

  /** Equal up to the order of object members. */
  ghost predicate SameValue(a: Value, b: Value)
    decreases a
  {
    match a
    case Arr(es) => b.Arr? && |es| == |b.elems| && forall i :: 0 <= i < |es| ==> SameValue(es[i], b.elems[i])
    case Obj(ms) =>
      && b.Obj? && |ms| == |b.members|
      && forall i :: 0 <= i < |ms| ==> exists j :: 0 <= j < |b.members| && b.members[j].key == ms[i].key && SameValue(ms[i].value, b.members[j].value)
    case _ => a == b
  }

  /** Bounds wide enough for `v` and for `w`, with the admissibility of any document. */
  function Ample(v: Value, w: Value): Bounds {
    var n := NodeCount(v) + NodeCount(w);
    Bounds(n, n, n, [], n, t => Clean(t, true))
  }

  lemma {:induction false} CountsElems(es: seq<Value>)
    ensures |es| <= NodesOf(es)
  {
    if es != [] { CountsElems(es[1..]); }
  }

  lemma {:induction false} AmpleFits(b: Bounds, v: Value, depth: nat)
    requires b.wideKey == [] && depth + NodeCount(v) <= b.depth && NodeCount(v) <= b.elems
    ensures Fits(b, v, depth, false)
    decreases v
  {
    match v
    case Arr(es) =>
      CountsElems(es);
      forall e | e in es ensures Fits(b, e, depth + 1, false) {
        NodesWithin(es, e);
        var i :| 0 <= i < |es| && es[i] == e;
        AmpleFits(b, es[i], depth + 1);
      }
    case Obj(ms) =>
      forall m | m in ms ensures Fits(b, m.value, depth + 1, IsWide(b, depth + 1, m.key)) {
        MembersWithin(ms, m);
        var i :| 0 <= i < |ms| && ms[i] == m;
        AmpleFits(b, ms[i].value, depth + 1);
      }
    case _ =>
  }

  /** A value is recovered from its encoding, whatever its size. */
  lemma Recovered(v: Value, w: Value)
    requires Keyed(v) && CleanTexts(Ample(v, w), v)
    ensures ParseBounded(EncodeFile(v), Ample(v, w)) == Outcome.Ok(Canon(v))
  {
    var b := Ample(v, w);
    forall t | b.admits(t) ensures Valid(t) { CleanIsValid(t, true); }
    AmpleFits(b, v, 0);
    CanonIsCanonical(v);
    CanonicalIsCanon(Canon(v));
    CanonKeepsBounds(b, v, 0, false);
    CanonKeepsNodes(v);
    ParsesExactly(EncodeFile(v), b, Canon(v));
  }

  lemma EncodesOneCanon(v: Value, w: Value)
    requires Keyed(v) && Keyed(w) && CleanTexts(Ample(v, w), v) && CleanTexts(Ample(v, w), w)
    ensures Encode(v) == Encode(w) <==> Canon(v) == Canon(w)
  {
    if Encode(v) == Encode(w) {
      Recovered(v, w);
      assert Ample(v, w).nodes == Ample(w, v).nodes;
      RecoveredSecond(v, w);
    }
  }

  lemma RecoveredSecond(v: Value, w: Value)
    requires Keyed(w) && CleanTexts(Ample(v, w), w)
    ensures ParseBounded(EncodeFile(w), Ample(v, w)) == Outcome.Ok(Canon(w))
  {
    var b := Ample(v, w);
    forall t | b.admits(t) ensures Valid(t) { CleanIsValid(t, true); }
    AmpleFits(b, w, 0);
    CanonIsCanonical(w);
    CanonicalIsCanon(Canon(w));
    CanonKeepsBounds(b, w, 0, false);
    CanonKeepsNodes(w);
    ParsesExactly(EncodeFile(w), b, Canon(w));
  }

  // ----- canonical forms and equality up to order -----

  lemma {:induction false} NoMoreThan(a: seq<Member>, c: seq<Member>)
    requires Distinct(a) && forall x :: x in a ==> x in c
    ensures |a| <= |c|
  {
    if a != [] {
      assert a[0] in a;
      var k :| 0 <= k < |c| && c[k] == a[0];
      var rest := c[..k] + c[k + 1..];
      forall x | x in a[1..] ensures x in rest {
        var i :| 0 <= i < |a[1..]| && a[1..][i] == x;
        assert a[i + 1] == x && x.key != a[0].key && x in c;
        var j :| 0 <= j < |c| && c[j] == x;
        assert if j < k then rest[j] == x else rest[j - 1] == x;
      }
      NoMoreThan(a[1..], rest);
    }
  }

  lemma IncreasingDistinct(a: seq<Member>)
    requires Increasing(a)
    ensures Distinct(a)
  {
    forall i, j | 0 <= i < j < |a| ensures a[i].key != a[j].key { BelowTotal(a[i].key, a[j].key); }
  }

  /** Two sorted lists of one length, one within the other, are one list. */
  lemma {:induction false} SortedOnce(a: seq<Member>, b: seq<Member>)
    requires Increasing(a) && Increasing(b) && |a| == |b| && forall x :: x in a ==> x in b
    ensures a == b
  {
    if a != [] {
      IncreasingDistinct(a);
      assert a[0] in a;
      var k :| 0 <= k < |b| && b[k] == a[0];
      forall x | x in a ensures x in b[k..] {
        var i :| 0 <= i < |a| && a[i] == x;
        var j :| 0 <= j < |b| && b[j] == x;
        assert i > 0 ==> Below(a[0].key, a[i].key);
        assert j < k ==> Below(b[j].key, b[k].key);
        BelowTotal(b[j].key, b[k].key);
        assert j >= k;
        assert b[k..][j - k] == x;
      }
      NoMoreThan(a, b[k..]);
      assert k == 0;
      forall x | x in a[1..] ensures x in b[1..] {
        var i :| 0 <= i < |a[1..]| && a[1..][i] == x;
        assert a[i + 1] == x && x in a && x.key != a[0].key;
        var j :| 0 <= j < |b| && b[j] == x;
        assert b[1..][j - 1] == x;
      }
      SortedOnce(a[1..], b[1..]);
      assert a == [a[0]] + a[1..] && b == [b[0]] + b[1..];
    }
  }

  lemma {:induction false} SameIsOneCanon(a: Value, b: Value)
    requires Keyed(a) && Keyed(b) && SameValue(a, b)
    ensures Canon(a) == Canon(b)
    decreases a
  {
    match a
    case Arr(es) =>
      forall i | 0 <= i < |es| ensures Canon(es[i]) == Canon(b.elems[i]) {
        assert SameValue(es[i], b.elems[i]);
        SameIsOneCanon(es[i], b.elems[i]);
      }
      assert CanonAll(es) == CanonAll(b.elems);
    case Obj(ms) =>
      var x, y := CanonMembers(ms), CanonMembers(b.members);
      forall i | 0 <= i < |ms| ensures x[i] in y {
        var j :| 0 <= j < |b.members| && b.members[j].key == ms[i].key && SameValue(ms[i].value, b.members[j].value);
        SameIsOneCanon(ms[i].value, b.members[j].value);
        assert y[j] == x[i];
      }
      SortHolds(x);
      SortHolds(y);
      assert Distinct(x) && Distinct(y);
      SortedOnce(SortMembers(x), SortMembers(y));
    case _ =>
  }

  /** Members with one canonical list pair up. */
  lemma Paired(ms: seq<Member>, ns: seq<Member>, i: nat) returns (j: nat)
    requires SortMembers(CanonMembers(ms)) == SortMembers(CanonMembers(ns)) && i < |ms|
    ensures |ms| == |ns| && j < |ns| && ns[j].key == ms[i].key && Canon(ns[j].value) == Canon(ms[i].value)
  {
    var x, y := CanonMembers(ms), CanonMembers(ns);
    SortHolds(x);
    SortHolds(y);
    assert x[i] in x && x[i] in SortMembers(x) && x[i] in y;
    j :| 0 <= j < |y| && y[j] == x[i];
  }

  lemma {:induction false} OneCanonIsSame(a: Value, b: Value)
    requires Canon(a) == Canon(b)
    ensures SameValue(a, b)
    decreases a
  {
    match a
    case Arr(es) =>
      forall i | 0 <= i < |es| ensures SameValue(es[i], b.elems[i]) {
        assert CanonAll(es)[i] == CanonAll(b.elems)[i];
        OneCanonIsSame(es[i], b.elems[i]);
      }
    case Obj(ms) =>
      forall i | 0 <= i < |ms| ensures exists j :: 0 <= j < |b.members| && b.members[j].key == ms[i].key && SameValue(ms[i].value, b.members[j].value) {
        var j := Paired(ms, b.members, i);
        OneCanonIsSame(ms[i].value, b.members[j].value);
      }
      assert |SortMembers(CanonMembers(ms))| == |ms|;
    case _ =>
  }

  /** Byte equality of encodings is equality up to member order. */
  lemma EqualIsSame(a: Value, b: Value)
    requires Keyed(a) && Keyed(b) && CleanTexts(Ample(a, b), a) && CleanTexts(Ample(a, b), b)
    ensures Encode(a) == Encode(b) <==> SameValue(a, b)
  {
    EncodesOneCanon(a, b);
    if SameValue(a, b) { SameIsOneCanon(a, b); }
    if Canon(a) == Canon(b) { OneCanonIsSame(a, b); }
  }
}
