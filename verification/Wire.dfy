/** Canonical documents: a restricted JSON (strings as in section 7 of RFC 8259) with
    sorted keys, one spelling for every string, no numbers and no white space. */
module Wire {
  import opened Utf8

  datatype Value =
    | Null
    | Bool(b: bool)
    | Str(text: bytes)
    | Arr(elems: seq<Value>)
    | Obj(members: seq<Member>)

  /** Members keep the order in which they were set; keys are distinct. */
  datatype Member = Member(key: bytes, value: Value)

  datatype Failure = MALFORMED | LIMIT_EXCEEDED

  datatype Outcome<+T> = Ok(value: T) | Err(failure: Failure)

  const MAX_DEPTH: nat := 24
  const MAX_ELEMENTS: nat := 10000
  const MAX_NODES: nat := 250000

  const QUOTE: byte := 0x22
  const BACKSLASH: byte := 0x5C
  const LF: byte := 0x0A
  const TRUE_TEXT: bytes := [0x74, 0x72, 0x75, 0x65]
  const FALSE_TEXT: bytes := [0x66, 0x61, 0x6C, 0x73, 0x65]
  const NULL_TEXT: bytes := [0x6E, 0x75, 0x6C, 0x6C]

  // ----- byte order -----

  predicate Below(a: bytes, b: bytes) {
    if b == [] then false
    else if a == [] then true
    else a[0] < b[0] || (a[0] == b[0] && Below(a[1..], b[1..]))
  }

  lemma {:induction false} BelowTotal(a: bytes, b: bytes)
    ensures a != b ==> Below(a, b) || Below(b, a)
    ensures Below(a, b) ==> a != b && !Below(b, a)
  {
    if a != [] && b != [] && a[0] == b[0] {
      BelowTotal(a[1..], b[1..]);
      if a[1..] == b[1..] { assert a == [a[0]] + a[1..] && b == [b[0]] + b[1..]; }
    }
  }

  lemma {:induction false} BelowTransitive(a: bytes, b: bytes, c: bytes)
    requires Below(a, b) && Below(b, c)
    ensures Below(a, c)
  {
    if a != [] && a[0] == b[0] == c[0] { BelowTransitive(a[1..], b[1..], c[1..]); }
  }

  // ----- canonical member order -----

  function Insert(m: Member, ms: seq<Member>): (r: seq<Member>)
    ensures |r| == |ms| + 1
  {
    if ms == [] then [m]
    else if Below(ms[0].key, m.key) then [ms[0]] + Insert(m, ms[1..])
    else [m] + ms
  }

  function SortMembers(ms: seq<Member>): (r: seq<Member>)
    ensures |r| == |ms|
  {
    if ms == [] then [] else Insert(ms[0], SortMembers(ms[1..]))
  }

  predicate Increasing(ms: seq<Member>) {
    forall i, j :: 0 <= i < j < |ms| ==> Below(ms[i].key, ms[j].key)
  }

  predicate Distinct(ms: seq<Member>) {
    forall i, j :: 0 <= i < j < |ms| ==> ms[i].key != ms[j].key
  }

  lemma {:induction false} InsertHolds(m: Member, ms: seq<Member>)
    ensures multiset(Insert(m, ms)) == multiset(ms) + multiset{m}
    ensures forall x :: x in Insert(m, ms) <==> x == m || x in ms
    ensures Increasing(ms) && (forall x :: x in ms ==> x.key != m.key) ==> Increasing(Insert(m, ms))
  {
    if ms != [] {
      assert ms == [ms[0]] + ms[1..];
      if Below(ms[0].key, m.key) {
        InsertHolds(m, ms[1..]);
        if Increasing(ms) && (forall x :: x in ms ==> x.key != m.key) {
          InsertIncreasing(ms[0], m, ms[1..]);
        }
      } else if Increasing(ms) && (forall x :: x in ms ==> x.key != m.key) {
        assert ms[0] in ms;
        BelowTotal(ms[0].key, m.key);
        forall j | 0 <= j < |ms| ensures Below(m.key, ms[j].key) {
          if j > 0 { BelowTransitive(m.key, ms[0].key, ms[j].key); }
        }
      }
    }
  }

  lemma InsertIncreasing(first: Member, m: Member, rest: seq<Member>)
    requires Increasing(Insert(m, rest)) && Below(first.key, m.key)
    requires Increasing([first] + rest)
    requires forall x :: x in Insert(m, rest) <==> x == m || x in rest
    ensures Increasing([first] + Insert(m, rest))
  {
    var r := [first] + Insert(m, rest);
    forall j | 0 < j < |r| ensures Below(first.key, r[j].key) {
      assert r[j] in Insert(m, rest);
      if r[j] != m {
        var k :| 0 <= k < |rest| && rest[k] == r[j];
        assert Below(([first] + rest)[0].key, ([first] + rest)[k + 1].key);
      }
    }
    forall i, j | 0 < i < j < |r| ensures Below(r[i].key, r[j].key) {
      assert r[i] == Insert(m, rest)[i - 1] && r[j] == Insert(m, rest)[j - 1];
    }
  }

  lemma {:induction false} SortElements(ms: seq<Member>)
    ensures multiset(SortMembers(ms)) == multiset(ms)
    ensures forall x :: x in SortMembers(ms) <==> x in ms
  {
    if ms != [] {
      SortElements(ms[1..]);
      InsertHolds(ms[0], SortMembers(ms[1..]));
      assert ms == [ms[0]] + ms[1..];
      hide Insert, Increasing, Below;
    }
  }

  lemma {:induction false} SortIncreasing(ms: seq<Member>)
    requires Distinct(ms)
    ensures Increasing(SortMembers(ms))
  {
    if ms != [] {
      var rest := SortMembers(ms[1..]);
      SortIncreasing(ms[1..]);
      SortElements(ms[1..]);
      hide Insert, Increasing, Below;
      forall x | x in rest ensures x.key != ms[0].key {
        var k :| 0 <= k < |ms[1..]| && ms[1..][k] == x;
        assert ms[k + 1] == x;
      }
      InsertHolds(ms[0], rest);
    }
  }

  lemma SortHolds(ms: seq<Member>)
    ensures multiset(SortMembers(ms)) == multiset(ms)
    ensures forall x :: x in SortMembers(ms) <==> x in ms
    ensures Distinct(ms) ==> Increasing(SortMembers(ms))
  {
    hide SortMembers, Increasing, Distinct;
    SortElements(ms);
    if Distinct(ms) { SortIncreasing(ms); }
  }

  /** Sorting a sorted list changes nothing. */
  lemma {:induction false} SortSorted(ms: seq<Member>)
    requires Increasing(ms)
    ensures SortMembers(ms) == ms
  {
    if ms != [] {
      SortSorted(ms[1..]);
      if |ms| > 1 {
        assert Below(ms[0].key, ms[1].key);
        BelowTotal(ms[0].key, ms[1].key);
      }
      assert ms == [ms[0]] + ms[1..];
    }
  }

  // ----- canonical values -----

  function Canon(v: Value): Value {
    match v
    case Arr(es) => Arr(CanonAll(es))
    case Obj(ms) => Obj(SortMembers(CanonMembers(ms)))
    case _ => v
  }

  function CanonAll(es: seq<Value>): (r: seq<Value>)
    ensures |r| == |es| && forall i :: 0 <= i < |es| ==> r[i] == Canon(es[i])
  {
    if es == [] then [] else [Canon(es[0])] + CanonAll(es[1..])
  }

  function CanonMembers(ms: seq<Member>): (r: seq<Member>)
    ensures |r| == |ms| && forall i :: 0 <= i < |ms| ==> r[i] == Member(ms[i].key, Canon(ms[i].value))
  {
    if ms == [] then [] else [Member(ms[0].key, Canon(ms[0].value))] + CanonMembers(ms[1..])
  }

  /** Every object has distinct keys. */
  predicate Keyed(v: Value) {
    match v
    case Arr(es) => forall e :: e in es ==> Keyed(e)
    case Obj(ms) => Distinct(ms) && forall m :: m in ms ==> Keyed(m.value)
    case _ => true
  }

  /** Every object is in canonical order. */
  predicate Canonical(v: Value) {
    match v
    case Arr(es) => forall e :: e in es ==> Canonical(e)
    case Obj(ms) => Increasing(ms) && forall m :: m in ms ==> Canonical(m.value)
    case _ => true
  }

  lemma {:induction false} CanonIsCanonical(v: Value)
    requires Keyed(v)
    ensures Canonical(Canon(v))
  {
    match v
    case Arr(es) =>
      forall e | e in CanonAll(es) ensures Canonical(e) {
        var i :| 0 <= i < |es| && CanonAll(es)[i] == e;
        CanonIsCanonical(es[i]);
      }
    case Obj(ms) =>
      var cs := CanonMembers(ms);
      SortHolds(cs);
      assert Distinct(cs);
      forall m | m in SortMembers(cs) ensures Canonical(m.value) {
        var i :| 0 <= i < |ms| && cs[i] == m;
        CanonIsCanonical(ms[i].value);
      }
    case _ =>
  }

  lemma {:induction false} CanonicalIsCanon(v: Value)
    requires Canonical(v)
    ensures Canon(v) == v && Keyed(v)
  {
    match v
    case Arr(es) =>
      forall i | 0 <= i < |es| ensures Canon(es[i]) == es[i] && Keyed(es[i]) { CanonicalIsCanon(es[i]); }
      assert CanonAll(es) == es;
    case Obj(ms) =>
      forall i | 0 <= i < |ms| ensures Canon(ms[i].value) == ms[i].value && Keyed(ms[i].value) {
        assert ms[i] in ms;
        CanonicalIsCanon(ms[i].value);
      }
      assert CanonMembers(ms) == ms;
      SortSorted(ms);
      forall i, j | 0 <= i < j < |ms| ensures ms[i].key != ms[j].key { BelowTotal(ms[i].key, ms[j].key); }
    case _ =>
  }
}
