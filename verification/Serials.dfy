/** Picking the next free serial of a queue. */
module Serials {
  import opened Wrappers

  const MAX_LOCAL_TOKEN: nat := 64

  datatype Allocation =
    | Allocated(token: string, nextSerial: nat)
    | CountExceeded
    | BadToken
    | AllOccupied

  // ----- tokens -----

  function FoldChar(ch: char): char { if 'A' <= ch <= 'Z' then ch - 'A' + 'a' else ch }

  /** Case folding of a local token. */
  function Fold(s: string): (r: string)
    ensures |r| == |s| && forall i :: 0 <= i < |s| ==> r[i] == FoldChar(s[i])
  {
    seq(|s|, i requires 0 <= i < |s| => FoldChar(s[i]))
  }

  predicate Alphanumeric(ch: char) { 'a' <= ch <= 'z' || 'A' <= ch <= 'Z' || '0' <= ch <= '9' }

  predicate ValidToken(s: string) {
    && 0 < |s| <= MAX_LOCAL_TOKEN && Alphanumeric(s[0])
    && forall i :: 0 <= i < |s| ==> Alphanumeric(s[i]) || s[i] == '.' || s[i] == '_' || s[i] == '-'
  }

  // ----- decimal numerals of at least four digits -----

  function Digit(n: nat): (r: char)
    requires n < 10
    ensures '0' <= r <= '9'
  {
    '0' + n as char
  }

  function Decimal(n: nat): (r: string)
    ensures |r| > 0
  {
    if n < 10 then [Digit(n)] else Decimal(n / 10) + [Digit(n % 10)]
  }

  function Padded(s: string): string
    decreases 4 - |s|
  {
    if |s| >= 4 then s else Padded("0" + s)
  }

  function Serial(prefix: string, n: nat): string { prefix + "-" + Padded(Decimal(n)) }

  predicate Digits(s: string) { forall i :: 0 <= i < |s| ==> '0' <= s[i] <= '9' }

  function ValueOf(s: string): nat
    requires Digits(s)
  {
    if s == [] then 0 else ValueOf(s[..|s| - 1]) * 10 + (s[|s| - 1] - '0') as nat
  }

  lemma {:induction false} DecimalValue(n: nat)
    ensures Digits(Decimal(n)) && ValueOf(Decimal(n)) == n
  {
    var s := Decimal(n);
    if n < 10 {
      assert s[..0] == [];
    } else {
      DecimalValue(n / 10);
      assert s[..|s| - 1] == Decimal(n / 10);
    }
  }

  lemma {:induction false} LeadingZero(s: string)
    requires Digits(s)
    ensures Digits("0" + s) && ValueOf("0" + s) == ValueOf(s)
    decreases |s|
  {
    var t := "0" + s;
    if s == [] {
      assert t[..0] == [] && t[0] == '0';
    } else {
      LeadingZero(s[..|s| - 1]);
      assert t[..|t| - 1] == "0" + s[..|s| - 1];
    }
  }

  lemma {:induction false} PaddedValue(s: string)
    requires Digits(s)
    ensures Digits(Padded(s)) && ValueOf(Padded(s)) == ValueOf(s)
    decreases 4 - |s|
  {
    if |s| < 4 {
      LeadingZero(s);
      PaddedValue("0" + s);
    }
  }

  /** Different serials stay different when folded. */
  lemma SerialsDiffer(prefix: string, m: nat, n: nat)
    requires Fold(Serial(prefix, m)) == Fold(Serial(prefix, n))
    ensures m == n
  {
    DecimalValue(m);
    DecimalValue(n);
    PaddedValue(Decimal(m));
    PaddedValue(Decimal(n));
    var x, y, k := Padded(Decimal(m)), Padded(Decimal(n)), |prefix| + 1;
    assert |Serial(prefix, m)| == k + |x| && |Serial(prefix, n)| == k + |y|;
    forall i | 0 <= i < |x| ensures x[i] == y[i] {
      assert Serial(prefix, m)[k + i] == x[i] && Serial(prefix, n)[k + i] == y[i];
      assert Fold(Serial(prefix, m))[k + i] == x[i];
    }
    assert x == y;
  }

  // ----- allocation -----

  /** Some ticket, live or tombstoned, holds the token up to case. */
  predicate Occupied(locals: seq<string>, token: string) {
    exists i :: 0 <= i < |locals| && Fold(locals[i]) == Fold(token)
  }

  /** The first free serial from `next` whose successor is a count. */
  predicate FirstFree(locals: seq<string>, prefix: string, next: nat, n: nat) {
    && next <= n < MAX_COUNT && !Occupied(locals, Serial(prefix, n))
    && forall m :: next <= m < n ==> Occupied(locals, Serial(prefix, m))
  }

  /** The allocated token is free, its serial the first free one, and the next serial lies
      past it; a refusal means the range is used up or the token is not one. The scan is
      never exhausted: it tries one serial more than there are tickets. */
  method AllocateSerial(locals: seq<string>, prefix: string, next: nat) returns (r: Allocation)
    ensures r != AllOccupied
    ensures r.Allocated? ==> r.nextSerial > next && FirstFree(locals, prefix, next, r.nextSerial - 1)
                             && r.token == Serial(prefix, r.nextSerial - 1) && ValidToken(r.token)
    ensures r.CountExceeded? <==> forall m :: next <= m < MAX_COUNT ==> Occupied(locals, Serial(prefix, m))
    ensures r.BadToken? ==> exists n: nat :: FirstFree(locals, prefix, next, n) && !ValidToken(Serial(prefix, n))
  {
    hide Serial, Fold, ValidToken;
    var occupied: set<string> := {};
    var i := 0;
    while i < |locals|
      invariant i <= |locals| && |occupied| <= i
      invariant forall f :: f in occupied <==> exists j :: 0 <= j < i && Fold(locals[j]) == f
    {
      occupied := occupied + {Fold(locals[i])};
      i := i + 1;
    }
    var n, tries := next, 0;
    ghost var tried: set<string> := {};
    while tries <= |locals|
      invariant tries <= |locals| + 1 && n == next + tries
      invariant forall m :: next <= m < n ==> Occupied(locals, Serial(prefix, m))
      invariant tried <= occupied && |tried| == tries
      invariant forall f :: f in tried ==> exists m: nat :: next <= m < n && f == Fold(Serial(prefix, m))
      invariant tries > 0 ==> n <= MAX_COUNT
    {
      if n + 1 > MAX_COUNT { return CountExceeded; }
      var cand := Serial(prefix, n);
      if Fold(cand) !in occupied {
        assert FirstFree(locals, prefix, next, n);
        return if ValidToken(cand) then Allocated(cand, n + 1) else BadToken;
      }
      if Fold(cand) in tried {
        var m: nat :| next <= m < n && Fold(cand) == Fold(Serial(prefix, m));
        SerialsDiffer(prefix, m, n);
      }
      tried := tried + {Fold(cand)};
      n, tries := n + 1, tries + 1;
    }
    Fits(tried, occupied);
    return AllOccupied;
  }

  lemma Fits<T>(a: set<T>, b: set<T>)
    requires a <= b
    ensures |a| <= |b|
  {
    assert |b - a| + |a| == |b| by { assert b == (b - a) + a; }
  }

  // ----- the token of a new ticket -----

  const MAX_TICKETS: nat := 10000

  datatype Choice =
    | Chosen(token: string, nextSerial: nat)
    | QueueFull
    | TokenTaken
    | NoToken(why: Allocation)

  /** The token a CREATE gives its ticket: the one asked for, or the next free serial. It
      never collides, up to case, with a live or tombstoned ticket. */
  method ChooseToken(locals: seq<string>, prefix: string, next: nat, asked: Option<string>) returns (r: Choice)
    ensures r.QueueFull? <==> |locals| >= MAX_TICKETS
    ensures r.TokenTaken? <==> |locals| < MAX_TICKETS && asked.Some? && Occupied(locals, asked.value)
    ensures r.Chosen? ==> |locals| < MAX_TICKETS && ValidToken(r.token) && !Occupied(locals, r.token)
    ensures r.Chosen? && asked.Some? ==> r.token == asked.value && r.nextSerial == next
    ensures r.Chosen? && asked.None? ==> r.nextSerial > next && FirstFree(locals, prefix, next, r.nextSerial - 1) && r.token == Serial(prefix, r.nextSerial - 1)
    ensures r.NoToken? && asked.Some? ==> !ValidToken(asked.value)
    ensures r.NoToken? && asked.None? ==>
      || (forall m :: next <= m < MAX_COUNT ==> Occupied(locals, Serial(prefix, m)))
      || (exists n: nat :: FirstFree(locals, prefix, next, n) && !ValidToken(Serial(prefix, n)))
  {
    hide Serial, Fold, ValidToken;
    if |locals| >= MAX_TICKETS { return QueueFull; }
    match asked {
      case Some(token) =>
        var taken := TakenToken(locals, token);
        return if taken then TokenTaken else if ValidToken(token) then Chosen(token, next) else NoToken(BadToken);
      case None =>
        var a := AllocateSerial(locals, prefix, next);
        return if a.Allocated? then Chosen(a.token, a.nextSerial) else NoToken(a);
    }
  }

  method TakenToken(locals: seq<string>, token: string) returns (taken: bool)
    ensures taken <==> Occupied(locals, token)
  {
    var i := 0;
    while i < |locals|
      invariant i <= |locals| && forall j :: 0 <= j < i ==> Fold(locals[j]) != Fold(token)
    {
      if Fold(locals[i]) == Fold(token) { return true; }
      i := i + 1;
    }
    taken := false;
  }
}
