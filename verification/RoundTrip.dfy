/** The codec's laws: a document parses exactly when it encodes a value that fits. */
module RoundTrip {
  import opened Utf8
  import opened Wire
  import opened Codec

  // ----- what is written is read back -----

  function FirstByte(v: Value): byte {
    match v
    case Null => 0x6E
    case Bool(b) => if b then 0x74 else 0x66
    case Str(_) => QUOTE
    case Arr(_) => 0x5B
    case Obj(_) => 0x7B
  }

  /** The byte a rendered value starts with chooses its parser. */
  lemma RenderStarts(data: bytes, pos: nat, v: Value)
    requires At(data, pos, Render(v))
    ensures Here(data, pos, FirstByte(v))
  {
    assert Render(v) != [] && Render(v)[0] == FirstByte(v);
    AtIndex(data, pos, Render(v), 0);
  }

  ghost predicate Readable(b: Bounds, v: Value, depth: nat, wide: bool) {
    Keyed(v) && CleanTexts(b, v) && Fits(b, v, depth, wide)
  }

  lemma {:induction false} ReadsBack(b: Bounds, data: bytes, pos: nat, v: Value, depth: nat, nodes: nat, wide: bool)
    requires Readable(b, v, depth, wide) && At(data, pos, Render(v)) && nodes + NodeCount(v) <= b.nodes
    ensures ParseValue(b, data, pos, depth, nodes, wide) == Good(v, pos + |Render(v)|, nodes + NodeCount(v))
    decreases NodeCount(v), 1, 0
  {
    RenderStarts(data, pos, v);
    AtSlice(data, pos, Render(v));
    match v
    case Null =>
    case Bool(_) =>
    case Str(t) => ParseEncodedText(b, data, pos, t);
    case Arr(es) => ReadsArr(b, data, pos, es, depth, nodes + 1, wide);
    case Obj(ms) => ReadsObj(b, data, pos, ms, depth, nodes + 1, wide);
  }

  /** An open bracket, `s` and a close bracket. */
  lemma AtEnclosed(data: bytes, pos: nat, open: byte, s: bytes, close: byte)
    requires At(data, pos, [open] + s + [close])
    ensures Here(data, pos, open) && At(data, pos + 1, s) && Here(data, pos + 1 + |s|, close)
  {
    hide At;
    AtSplit(data, pos, [open] + s, [close]);
    AtSplit(data, pos, [open], s);
    AtByte(data, pos, open);
    AtByte(data, pos + 1 + |s|, close);
  }

  /** `s`, the byte `c`, and `t`. */
  lemma AtJoined(data: bytes, pos: nat, s: bytes, c: byte, t: bytes)
    requires At(data, pos, s + [c] + t)
    ensures At(data, pos, s) && Here(data, pos + |s|, c) && At(data, pos + |s| + 1, t)
  {
    hide At;
    AtSplit(data, pos, s + [c], t);
    AtSplit(data, pos, s, [c]);
    AtByte(data, pos + |s|, c);
  }

  lemma {:induction false} ReadsArr(b: Bounds, data: bytes, pos: nat, es: seq<Value>, depth: nat, nodes: nat, wide: bool)
    requires Readable(b, Arr(es), depth, wide) && At(data, pos, Render(Arr(es))) && nodes + NodesOf(es) <= b.nodes
    ensures pos < |data| && ParseArray(b, data, pos, depth, nodes, wide) == Good(Arr(es), pos + |Render(Arr(es))|, nodes + NodesOf(es))
    decreases NodesOf(es) + 1, 0, 0
  {
    AtEnclosed(data, pos, 0x5B, RenderElems(es), 0x5D);
    if es != [] {
      NotClosing(data, pos + 1, es);
      ReadsElems(b, data, pos + 1, es, depth + 1, nodes, ElemBound(b, depth + 1, wide));
    }
  }

  lemma NotClosing(data: bytes, pos: nat, es: seq<Value>)
    requires es != [] && At(data, pos, RenderElems(es))
    ensures !Here(data, pos, 0x5D)
  {
    if |es| > 1 { AtJoined(data, pos, Render(es[0]), 0x2C, RenderElems(es[1..])); }
    RenderStarts(data, pos, es[0]);
  }

  /** One turn of the element loop. */
  lemma ElemsTurn(b: Bounds, data: bytes, pos: nat, depth: nat, nodes: nat, bound: nat, got: seq<Value>, v: Value, next: nat, n: nat)
    requires ParseValue(b, data, pos, depth, nodes, false) == Good(v, next, n) && |got| + 1 <= bound
    ensures Here(data, next, 0x2C) ==> ParseElems(b, data, pos, depth, nodes, bound, got) == ParseElems(b, data, next + 1, depth, n, bound, got + [v])
    ensures Here(data, next, 0x5D) ==> ParseElems(b, data, pos, depth, nodes, bound, got) == Good(Arr(got + [v]), next + 1, n)
  {
  }

  type ElemLoop = (nat, nat, seq<Value>) -> Step<Value>

  /** The loop reads `e` at `p`, and goes on after a comma or ends at a bracket. */
  ghost predicate ReadsElem(loop: ElemLoop, data: bytes, e: Value, p: nat, n: nat, g: seq<Value>) {
    var next := p + |Render(e)|;
    && (Here(data, next, 0x2C) ==> loop(p, n, g) == loop(next + 1, n + NodeCount(e), g + [e]))
    && (Here(data, next, 0x5D) ==> loop(p, n, g) == Good(Arr(g + [e]), next + 1, n + NodeCount(e)))
  }

  ghost predicate LoopsOver(loop: ElemLoop, data: bytes, es: seq<Value>, nodes: nat, size: nat) {
    forall e, p: nat, n: nat, g ::
      (e in es && At(data, p, Render(e)) && n + NodeCount(e) <= nodes && |g| < size ==> ReadsElem(loop, data, e, p, n, g))
  }

  lemma ElemsShape(es: seq<Value>)
    requires es != []
    ensures RenderElems(es) == if |es| == 1 then Render(es[0]) else Render(es[0]) + [0x2C] + RenderElems(es[1..])
    ensures NodesOf(es) == NodeCount(es[0]) + NodesOf(es[1..]) && (|es| == 1 ==> es[1..] == [] && NodesOf(es[1..]) == 0)
  {
    hide Render, NodeCount;
  }

  lemma LoopsOn(loop: ElemLoop, data: bytes, es: seq<Value>, nodes: nat, size: nat)
    requires es != [] && LoopsOver(loop, data, es, nodes, size)
    ensures LoopsOver(loop, data, es[1..], nodes, size)
  {
    hide At, Render, NodeCount, ReadsElem;
    assert forall e :: e in es[1..] ==> e in es;
  }

  lemma NextElem(loop: ElemLoop, data: bytes, e: Value, p: nat, n: nat, g: seq<Value>)
    requires ReadsElem(loop, data, e, p, n, g) && Here(data, p + |Render(e)|, 0x2C)
    ensures loop(p, n, g) == loop(p + |Render(e)| + 1, n + NodeCount(e), g + [e])
  {
    hide Render, NodeCount;
  }

  lemma LastElem(loop: ElemLoop, data: bytes, e: Value, p: nat, n: nat, g: seq<Value>)
    requires ReadsElem(loop, data, e, p, n, g) && Here(data, p + |Render(e)|, 0x5D)
    ensures loop(p, n, g) == Good(Arr(g + [e]), p + |Render(e)| + 1, n + NodeCount(e))
  {
    hide Render, NodeCount;
  }

  lemma HeadThenTail<T>(got: seq<T>, es: seq<T>)
    requires es != []
    ensures got + [es[0]] + es[1..] == got + es && (|es| == 1 ==> got + es == got + [es[0]])
  {
  }

  lemma OneOf(loop: ElemLoop, data: bytes, es: seq<Value>, nodes: nat, size: nat, p: nat, n: nat, g: seq<Value>)
    requires es != [] && LoopsOver(loop, data, es, nodes, size) && At(data, p, Render(es[0])) && n + NodeCount(es[0]) <= nodes && |g| < size
    ensures ReadsElem(loop, data, es[0], p, n, g)
  {
    hide At, Render, NodeCount, ReadsElem;
    assert es[0] in es;
  }

  lemma {:induction false} ElemTurns(loop: ElemLoop, data: bytes, pos: nat, es: seq<Value>, nodes: nat, got: seq<Value>)
    requires es != [] && At(data, pos, RenderElems(es)) && Here(data, pos + |RenderElems(es)|, 0x5D)
    requires LoopsOver(loop, data, es, nodes + NodesOf(es), |got| + |es|)
    ensures loop(pos, nodes, got) == Good(Arr(got + es), pos + |RenderElems(es)| + 1, nodes + NodesOf(es))
    decreases |es|
  {
    hide RenderElems, Render, NodesOf, NodeCount, At, LoopsOver, ReadsElem;
    var e, rest, size, all := es[0], es[1..], |got| + |es|, nodes + NodesOf(es);
    ElemsShape(es);
    HeadThenTail(got, es);
    if |es| == 1 {
      OneOf(loop, data, es, all, size, pos, nodes, got);
      LastElem(loop, data, e, pos, nodes, got);
    } else {
      AtJoined(data, pos, Render(e), 0x2C, RenderElems(rest));
      OneOf(loop, data, es, all, size, pos, nodes, got);
      NextElem(loop, data, e, pos, nodes, got);
      LoopsOn(loop, data, es, all, size);
      assert nodes + NodeCount(e) + NodesOf(rest) == all && |got + [e]| + |rest| == size;
      ElemTurns(loop, data, pos + |Render(e)| + 1, rest, nodes + NodeCount(e), got + [e]);
    }
  }

  lemma {:induction false} NodesWithin(es: seq<Value>, e: Value)
    requires e in es
    ensures NodeCount(e) <= NodesOf(es)
  {
    if e != es[0] { NodesWithin(es[1..], e); }
  }

  lemma {:induction false} ReadsElems(b: Bounds, data: bytes, pos: nat, es: seq<Value>, depth: nat, nodes: nat, bound: nat)
    requires es != [] && (forall e :: e in es ==> Readable(b, e, depth, false))
    requires At(data, pos, RenderElems(es)) && Here(data, pos + |RenderElems(es)|, 0x5D)
    requires nodes + NodesOf(es) <= b.nodes && |es| <= bound
    ensures ParseElems(b, data, pos, depth, nodes, bound, []) == Good(Arr(es), pos + |RenderElems(es)| + 1, nodes + NodesOf(es))
    decreases NodesOf(es), 2, 0
  {
    hide Render, ParseElems, ParseValue;
    var loop := (p: nat, n: nat, g: seq<Value>) => ParseElems(b, data, p, depth, n, bound, g);
    forall e, p: nat, n: nat, g: seq<Value> | e in es && At(data, p, Render(e)) && n + NodeCount(e) <= nodes + NodesOf(es) && |g| < |es|
      ensures ReadsElem(loop, data, e, p, n, g)
    {
      NodesWithin(es, e);
      ReadsBack(b, data, p, e, depth, n, false);
      ElemsTurn(b, data, p, depth, n, bound, g, e, p + |Render(e)|, n + NodeCount(e));
    }
    ElemTurns(loop, data, pos, es, nodes, []);
    assert [] + es == es;
  }

  lemma {:induction false} ReadsObj(b: Bounds, data: bytes, pos: nat, ms: seq<Member>, depth: nat, nodes: nat, wide: bool)
    requires Readable(b, Obj(ms), depth, wide) && At(data, pos, Render(Obj(ms))) && nodes + NodesIn(ms) <= b.nodes
    ensures pos < |data| && ParseObject(b, data, pos, depth, nodes) == Good(Obj(ms), pos + |Render(Obj(ms))|, nodes + NodesIn(ms))
    decreases NodesIn(ms) + 1, 0, 0
  {
    AtEnclosed(data, pos, 0x7B, RenderMembers(ms), 0x7D);
    if ms != [] {
      MembersQuote(data, pos + 1, ms);
      ReadsMembers(b, data, pos + 1, ms, depth + 1, nodes);
    }
  }

  lemma MembersQuote(data: bytes, pos: nat, ms: seq<Member>)
    requires ms != [] && At(data, pos, RenderMembers(ms))
    ensures Here(data, pos, QUOTE)
  {
    if |ms| > 1 { AtJoined(data, pos, RenderMember(ms[0]), 0x2C, RenderMembers(ms[1..])); }
    assert At(data, pos, RenderMember(ms[0]));
    AtJoined(data, pos, EncodeText(ms[0].key), 0x3A, Render(ms[0].value));
    AtIndex(data, pos, EncodeText(ms[0].key), 0);
  }

  ghost predicate ReadableMember(b: Bounds, m: Member, depth: nat) {
    b.admits(m.key) && Readable(b, m.value, depth, IsWide(b, depth, m.key))
  }

  type MemberLoop = (nat, nat, seq<Member>) -> Step<Value>

  /** The loop reads `m`, `size` bytes and `count` nodes, at `p`. */
  ghost predicate ReadsOne(loop: MemberLoop, data: bytes, m: Member, size: nat, count: nat, p: nat, n: nat, g: seq<Member>) {
    && (Here(data, p + size, 0x2C) ==> loop(p, n, g) == loop(p + size + 1, n + count, g + [m]))
    && (Here(data, p + size, 0x7D) ==> loop(p, n, g) == Good(Obj(g + [m]), p + size + 1, n + count))
  }

  function LoopOf(b: Bounds, data: bytes, depth: nat): MemberLoop {
    (p: nat, n: nat, g: seq<Member>) => ParseMembers(b, data, p, depth, n, g)
  }

  ghost predicate LoopsIn(loop: MemberLoop, data: bytes, ms: seq<Member>, nodes: nat) {
    forall m, p: nat, n: nat, g ::
      (m in ms && At(data, p, RenderMember(m)) && n + NodeCount(m.value) <= nodes && !HasKey(g, m.key)
       ==> ReadsOne(loop, data, m, |RenderMember(m)|, NodeCount(m.value), p, n, g))
  }

  predicate Fresh(got: seq<Member>, ms: seq<Member>) {
    forall i, j :: 0 <= i < |got| && 0 <= j < |ms| ==> got[i].key != ms[j].key
  }

  lemma FreshTail(got: seq<Member>, ms: seq<Member>)
    requires ms != [] && Distinct(ms) && Fresh(got, ms)
    ensures !HasKey(got, ms[0].key) && Distinct(ms[1..]) && Fresh(got + [ms[0]], ms[1..])
    ensures got + [ms[0]] + ms[1..] == got + ms
  {
    assert ms == [ms[0]] + ms[1..];
    forall i, j | 0 <= i < |got + [ms[0]]| && 0 <= j < |ms[1..]| ensures (got + [ms[0]])[i].key != ms[1..][j].key {
      assert ms[1..][j] == ms[j + 1];
    }
  }

  lemma MembersShape(ms: seq<Member>)
    requires ms != []
    ensures NodesIn(ms) == NodeCount(ms[0].value) + NodesIn(ms[1..])
    ensures ms[1..] == [] ==> RenderMembers(ms) == RenderMember(ms[0])
    ensures ms[1..] != [] ==> RenderMembers(ms) == RenderMember(ms[0]) + [0x2C] + RenderMembers(ms[1..])
  {
  }

  lemma LoopsTail(loop: MemberLoop, data: bytes, ms: seq<Member>, nodes: nat)
    requires ms != [] && LoopsIn(loop, data, ms, nodes)
    ensures LoopsIn(loop, data, ms[1..], nodes)
  {
    assert forall m :: m in ms[1..] ==> m in ms;
  }

  lemma {:induction false} MemberTurns(loop: MemberLoop, data: bytes, pos: nat, ms: seq<Member>, nodes: nat, got: seq<Member>)
    requires ms != [] && Distinct(ms) && Fresh(got, ms)
    requires At(data, pos, RenderMembers(ms)) && Here(data, pos + |RenderMembers(ms)|, 0x7D)
    requires LoopsIn(loop, data, ms, nodes + NodesIn(ms))
    ensures loop(pos, nodes, got) == Good(Obj(got + ms), pos + |RenderMembers(ms)| + 1, nodes + NodesIn(ms))
    decreases |ms|
  {
    hide At, RenderMember, NodeCount, RenderMembers;
    var m, rest := ms[0], ms[1..];
    assert m in ms;
    MembersShape(ms);
    FreshTail(got, ms);
    var size, count := |RenderMember(m)|, NodeCount(m.value);
    if rest == [] {
      assert got + [m] == got + ms;
      assert ReadsOne(loop, data, m, size, count, pos, nodes, got);
    } else {
      AtJoined(data, pos, RenderMember(m), 0x2C, RenderMembers(rest));
      assert ReadsOne(loop, data, m, size, count, pos, nodes, got);
      LoopsTail(loop, data, ms, nodes + NodesIn(ms));
      MemberTurns(loop, data, pos + size + 1, rest, nodes + count, got + [m]);
    }
  }

  lemma {:induction false} MembersWithin(ms: seq<Member>, m: Member)
    requires m in ms
    ensures NodeCount(m.value) <= NodesIn(ms)
  {
    if m != ms[0] { MembersWithin(ms[1..], m); }
  }

  /** One turn of the member loop. */
  lemma MembersTurn(b: Bounds, data: bytes, pos: nat, depth: nat, nodes: nat, got: seq<Member>, m: Member, start: nat, size: nat, count: nat)
    requires ParseKey(b, data, pos, got) == Text(m.key, start)
    requires ParseValue(b, data, start, depth, nodes, IsWide(b, depth, m.key)) == Good(m.value, pos + size, nodes + count)
    ensures ReadsOne(LoopOf(b, data, depth), data, m, size, count, pos, nodes, got)
  {
    assert Member(m.key, m.value) == m;
  }

  lemma {:induction false} ReadsMembers(b: Bounds, data: bytes, pos: nat, ms: seq<Member>, depth: nat, nodes: nat)
    requires ms != [] && Distinct(ms) && (forall m :: m in ms ==> ReadableMember(b, m, depth))
    requires At(data, pos, RenderMembers(ms)) && Here(data, pos + |RenderMembers(ms)|, 0x7D)
    requires nodes + NodesIn(ms) <= b.nodes
    ensures ParseMembers(b, data, pos, depth, nodes, []) == Good(Obj(ms), pos + |RenderMembers(ms)| + 1, nodes + NodesIn(ms))
    decreases NodesIn(ms), 4, 0
  {
    hide RenderMember, ReadableMember, ParseMembers, Distinct, HasKey;
    var loop := LoopOf(b, data, depth);
    forall m, p: nat, n: nat, g | m in ms && At(data, p, RenderMember(m)) && n + NodeCount(m.value) <= nodes + NodesIn(ms) && !HasKey(g, m.key)
      ensures ReadsOne(loop, data, m, |RenderMember(m)|, NodeCount(m.value), p, n, g)
    {
      MembersWithin(ms, m);
      MemberTurn(b, data, p, m, depth, n, g);
    }
    MemberTurns(loop, data, pos, ms, nodes, []);
    assert [] + ms == ms;
  }

  lemma {:induction false} MemberTurn(b: Bounds, data: bytes, pos: nat, m: Member, depth: nat, nodes: nat, got: seq<Member>)
    requires ReadableMember(b, m, depth) && At(data, pos, RenderMember(m)) && nodes + NodeCount(m.value) <= b.nodes && !HasKey(got, m.key)
    ensures ReadsOne(LoopOf(b, data, depth), data, m, |RenderMember(m)|, NodeCount(m.value), pos, nodes, got)
    decreases NodeCount(m.value), 3, 0
  {
    var start := ReadsMember(b, data, pos, m, depth, nodes, got);
    MembersTurn(b, data, pos, depth, nodes, got, m, start, |RenderMember(m)|, NodeCount(m.value));
  }

  lemma {:induction false} ReadsMember(b: Bounds, data: bytes, pos: nat, m: Member, depth: nat, nodes: nat, got: seq<Member>) returns (start: nat)
    requires ReadableMember(b, m, depth) && At(data, pos, RenderMember(m)) && nodes + NodeCount(m.value) <= b.nodes && !HasKey(got, m.key)
    ensures ParseKey(b, data, pos, got) == Text(m.key, start)
    ensures ParseValue(b, data, start, depth, nodes, IsWide(b, depth, m.key))
      == Good(m.value, pos + |RenderMember(m)|, nodes + NodeCount(m.value))
    decreases NodeCount(m.value), 2, 0
  {
    AtJoined(data, pos, EncodeText(m.key), 0x3A, Render(m.value));
    start := pos + |EncodeText(m.key)| + 1;
    ParseEncodedText(b, data, pos, m.key);
    ReadsBack(b, data, start, m.value, depth, nodes, IsWide(b, depth, m.key));
  }

  // ----- what is read fits -----

  lemma {:induction false} ReadFits(b: Bounds, data: bytes, pos: nat, depth: nat, nodes: nat, wide: bool)
    requires ParseValue(b, data, pos, depth, nodes, wide).Good?
    ensures var r := ParseValue(b, data, pos, depth, nodes, wide); Readable(b, r.value, depth, wide) && r.nodes == nodes + NodeCount(r.value) <= b.nodes
    decreases |data| - pos, 3
  {
    if data[pos] == 0x7B {
      if !Here(data, pos + 1, 0x7D) { MembersFit(b, data, pos + 1, depth + 1, nodes + 1, []); }
    } else if data[pos] == 0x5B {
      if !Here(data, pos + 1, 0x5D) { ElemsFit(b, data, pos + 1, depth + 1, nodes + 1, ElemBound(b, depth + 1, wide), []); }
    }
  }

  lemma {:induction false} NodesAppend(es: seq<Value>, e: Value)
    ensures NodesOf(es + [e]) == NodesOf(es) + NodeCount(e)
  {
    if es == [] {
      assert es + [e] == [e];
    } else {
      NodesAppend(es[1..], e);
      assert (es + [e])[0] == es[0] && (es + [e])[1..] == es[1..] + [e];
    }
  }

  lemma {:induction false} MemberNodesAppend(ms: seq<Member>, m: Member)
    ensures NodesIn(ms + [m]) == NodesIn(ms) + NodeCount(m.value)
  {
    if ms == [] {
      assert ms + [m] == [m];
    } else {
      MemberNodesAppend(ms[1..], m);
      assert (ms + [m])[0] == ms[0] && (ms + [m])[1..] == ms[1..] + [m];
    }
  }

  lemma {:induction false} ElemsFit(b: Bounds, data: bytes, pos: nat, depth: nat, nodes: nat, bound: nat, got: seq<Value>)
    requires ParseElems(b, data, pos, depth, nodes, bound, got).Good?
    requires (forall e :: e in got ==> Readable(b, e, depth, false)) && |got| <= bound
    ensures var r := ParseElems(b, data, pos, depth, nodes, bound, got);
      && r.value.Arr? && |r.value.elems| <= bound && (forall e :: e in r.value.elems ==> Readable(b, e, depth, false))
      && r.nodes == nodes + NodesOf(r.value.elems) - NodesOf(got) && r.nodes <= b.nodes
    decreases |data| - pos, 4
  {
    ReadFits(b, data, pos, depth, nodes, false);
    var p := ParseValue(b, data, pos, depth, nodes, false);
    NodesAppend(got, p.value);
    if Here(data, p.pos, 0x2C) { ElemsFit(b, data, p.pos + 1, depth, p.nodes, bound, got + [p.value]); }
  }

  lemma {:induction false} MembersFit(b: Bounds, data: bytes, pos: nat, depth: nat, nodes: nat, got: seq<Member>)
    requires ParseMembers(b, data, pos, depth, nodes, got).Good?
    requires Distinct(got) && forall m :: m in got ==> ReadableMember(b, m, depth)
    ensures var r := ParseMembers(b, data, pos, depth, nodes, got);
      && r.value.Obj? && Distinct(r.value.members) && (forall m :: m in r.value.members ==> ReadableMember(b, m, depth))
      && r.nodes == nodes + NodesIn(r.value.members) - NodesIn(got) && r.nodes <= b.nodes
    decreases |data| - pos, 1
  {
    hide ParseValue, ParseKey, NodeCount;
    var t := ParseKey(b, data, pos, got);
    var p := ParseValue(b, data, t.pos, depth, nodes, IsWide(b, depth, t.text));
    ReadFits(b, data, t.pos, depth, nodes, IsWide(b, depth, t.text));
    var m := Member(t.text, p.value);
    MemberNodesAppend(got, m);
    assert ReadableMember(b, m, depth);
    if Here(data, p.pos, 0x2C) { MembersFit(b, data, p.pos + 1, depth, p.nodes, got + [m]); }
  }

  // ----- encodings are well-formed UTF-8 -----

  lemma {:induction false} EscapedIsValid(t: bytes)
    requires Valid(t)
    ensures Valid(EscapeAll(t))
    decreases |t|
  {
    if t != [] {
      var n := RuneLen(t);
      EscapedIsValid(t[n..]);
      RuneTails(t);
      EscapedPrefix(t, n);
      if t[0] < 0x80 {
        AsciiIsValid(Escape(t[0]));
        assert t[..1] == [t[0]] && EscapeAll([t[0]]) == Escape(t[0]) + EscapeAll([t[0]][1..]);
        ValidConcat(Escape(t[0]), EscapeAll(t[n..]));
      } else {
        RawEscapes(t[..n]);
        OneRune(t);
        ValidConcat(t[..n], EscapeAll(t[n..]));
      }
    }
  }

  lemma Reassociate(a: bytes, b: bytes, c: bytes)
    ensures a + (b + c) == a + b + c
  {
  }

  lemma {:induction false} EscapedPrefix(t: bytes, n: nat)
    requires n <= |t|
    ensures EscapeAll(t) == EscapeAll(t[..n]) + EscapeAll(t[n..])
  {
    hide Escape;
    if n == 0 {
      assert t[n..] == t && t[..n] == [];
      assert [] + EscapeAll(t) == EscapeAll(t);
    } else {
      EscapedPrefix(t[1..], n - 1);
      assert t[..n][1..] == t[1..][..n - 1] && t[n..] == t[1..][n - 1..];
      Reassociate(Escape(t[0]), EscapeAll(t[1..][..n - 1]), EscapeAll(t[n..]));
    }
  }

  lemma {:induction false} RawEscapes(t: bytes)
    requires forall i :: 0 <= i < |t| ==> t[i] >= 0x80
    ensures EscapeAll(t) == t
  {
    if t != [] {
      RawEscapes(t[1..]);
      assert t == [t[0]] + t[1..];
    }
  }

  lemma OneRune(t: bytes)
    requires RuneLen(t) > 0
    ensures Valid(t[..RuneLen(t)])
  {
    var s := t[..RuneLen(t)];
    assert forall i :: 0 <= i < |s| ==> s[i] == t[i];
    assert RuneLen(s) == |s| && s[|s|..] == [];
  }

  lemma {:induction false} AsciiIsValid(s: bytes)
    requires forall i :: 0 <= i < |s| ==> s[i] < 0x80
    ensures Valid(s)
  {
    if s != [] { AsciiIsValid(s[1..]); }
  }

  /** What is admitted is at least well-formed UTF-8. */
  ghost predicate Textual(b: Bounds) {
    forall t :: b.admits(t) ==> Valid(t)
  }

  lemma TextIsValid(t: bytes)
    requires Valid(t)
    ensures Valid(EncodeText(t))
  {
    EscapedIsValid(t);
    AsciiIsValid([QUOTE]);
    ValidConcat([QUOTE], EscapeAll(t));
    ValidConcat([QUOTE] + EscapeAll(t), [QUOTE]);
  }

  lemma {:induction false} RenderIsValid(b: Bounds, v: Value)
    requires CleanTexts(b, v) && Textual(b)
    ensures Valid(Render(v))
    decreases NodeCount(v), 0
  {
    match v
    case Null => AsciiIsValid(NULL_TEXT);
    case Bool(x) => AsciiIsValid(Render(v));
    case Str(t) => TextIsValid(t);
    case Arr(es) => ElemsValid(b, es); Enclosed(0x5B, RenderElems(es), 0x5D);
    case Obj(ms) => MembersValid(b, ms); Enclosed(0x7B, RenderMembers(ms), 0x7D);
  }

  lemma Enclosed(open: byte, s: bytes, close: byte)
    requires open < 0x80 && close < 0x80 && Valid(s)
    ensures Valid([open] + s + [close])
  {
    AsciiIsValid([open]);
    AsciiIsValid([close]);
    ValidConcat([open], s);
    ValidConcat([open] + s, [close]);
  }

  lemma Joined(s: bytes, c: byte, t: bytes)
    requires c < 0x80 && Valid(s) && Valid(t)
    ensures Valid(s + [c] + t)
  {
    AsciiIsValid([c]);
    ValidConcat(s, [c]);
    ValidConcat(s + [c], t);
  }

  lemma {:induction false} ElemsValid(b: Bounds, es: seq<Value>)
    requires Textual(b) && forall e :: e in es ==> CleanTexts(b, e)
    ensures Valid(RenderElems(es))
    decreases NodesOf(es), 1
  {
    if es != [] {
      assert es[0] in es;
      RenderIsValid(b, es[0]);
      ElemsValid(b, es[1..]);
      if |es| > 1 { Joined(Render(es[0]), 0x2C, RenderElems(es[1..])); }
    }
  }

  lemma {:induction false} MembersValid(b: Bounds, ms: seq<Member>)
    requires Textual(b) && forall m :: m in ms ==> b.admits(m.key) && CleanTexts(b, m.value)
    ensures Valid(RenderMembers(ms))
    decreases NodesIn(ms), 1
  {
    if ms != [] {
      assert ms[0] in ms;
      TextIsValid(ms[0].key);
      RenderIsValid(b, ms[0].value);
      Joined(EncodeText(ms[0].key), 0x3A, Render(ms[0].value));
      MembersValid(b, ms[1..]);
      if |ms| > 1 { Joined(RenderMember(ms[0]), 0x2C, RenderMembers(ms[1..])); }
    }
  }

  // ----- the parse law -----

  ghost predicate Admitted(b: Bounds, v: Value) {
    Canonical(v) && CleanTexts(b, v) && Fits(b, v, 0, false) && NodeCount(v) <= b.nodes
  }

  /** A document is accepted exactly when it is the encoding of the value returned, and
      that value is canonical, admissible and within every bound. */
  lemma ParsesExactly(data: bytes, b: Bounds, v: Value)
    requires Textual(b)
    ensures ParseBounded(data, b) == Outcome.Ok(v) <==> data == EncodeFile(v) && Admitted(b, v)
  {
    if data == EncodeFile(v) && Admitted(b, v) { Accepted(b, v); }
    if ParseBounded(data, b) == Outcome.Ok(v) {
      var body := data[..|data| - 1];
      ReadFits(b, body, 0, 0, 0, false);
      Reparsed(b, v, body);
      assert data == body + [LF];
    }
  }

  lemma WholeAt(s: bytes)
    ensures At(s, 0, s)
  {
    AtSlice(s, 0, s);
    assert s[0..|s|] == s;
  }

  lemma Accepted(b: Bounds, v: Value)
    requires Textual(b) && Admitted(b, v)
    ensures ParseBounded(EncodeFile(v), b) == Outcome.Ok(v)
  {
    hide Valid, RuneLen, CleanTexts, Fits, Canonical, Textual, Keyed;
    hide At, Render, ParseValue, NodeCount, Canon;
    CanonicalIsCanon(v);
    var body := Render(v);
    WholeAt(body);
    ReadsBack(b, body, 0, v, 0, 0, false);
    RenderIsValid(b, v);
    AsciiIsValid([LF]);
    ValidConcat(body, [LF]);
    RenderStarts(body, 0, v);
    assert EncodeFile(v) == body + [LF] && EncodeFile(v)[..|EncodeFile(v)| - 1] == body;
  }

  /** A value read from its own encoding is canonical. */
  lemma Reparsed(b: Bounds, v: Value, body: bytes)
    requires ParseValue(b, body, 0, 0, 0, false) == Good(v, |body|, NodeCount(v)) && Encode(v) == body
    requires Readable(b, v, 0, false) && NodeCount(v) <= b.nodes
    ensures Canonical(v)
  {
    CanonKeepsBounds(b, v, 0, false);
    CanonKeepsNodes(v);
    CanonIsCanonical(v);
    CanonicalIsCanon(Canon(v));
    WholeAt(body);
    ReadsBack(b, body, 0, Canon(v), 0, 0, false);
  }

  // ----- sorting changes no bound -----

  lemma {:induction false} NodesInsert(m: Member, ms: seq<Member>)
    ensures NodesIn(Insert(m, ms)) == NodeCount(m.value) + NodesIn(ms)
  {
    if ms != [] && Below(ms[0].key, m.key) {
      NodesInsert(m, ms[1..]);
      assert Insert(m, ms)[1..] == Insert(m, ms[1..]);
    } else {
      assert Insert(m, ms)[1..] == ms;
    }
  }

  lemma {:induction false} NodesSorted(ms: seq<Member>)
    ensures NodesIn(SortMembers(ms)) == NodesIn(ms)
  {
    if ms != [] {
      NodesSorted(ms[1..]);
      NodesInsert(ms[0], SortMembers(ms[1..]));
    }
  }

  lemma {:induction false} CanonKeepsNodes(v: Value)
    ensures NodeCount(Canon(v)) == NodeCount(v)
    decreases NodeCount(v), 0
  {
    match v
    case Arr(es) => ElemsKeep(es);
    case Obj(ms) => MembersKeep(ms); NodesSorted(CanonMembers(ms));
    case _ =>
  }

  lemma {:induction false} ElemsKeep(es: seq<Value>)
    ensures NodesOf(CanonAll(es)) == NodesOf(es)
    decreases NodesOf(es), 1
  {
    if es != [] {
      ElemsKeep(es[1..]);
      CanonKeepsNodes(es[0]);
      assert CanonAll(es)[1..] == CanonAll(es[1..]);
    }
  }

  lemma {:induction false} MembersKeep(ms: seq<Member>)
    ensures NodesIn(CanonMembers(ms)) == NodesIn(ms)
    decreases NodesIn(ms), 1
  {
    if ms != [] {
      MembersKeep(ms[1..]);
      CanonKeepsNodes(ms[0].value);
      assert CanonMembers(ms)[1..] == CanonMembers(ms[1..]);
    }
  }

  lemma {:induction false} CanonKeepsBounds(b: Bounds, v: Value, depth: nat, wide: bool)
    requires CleanTexts(b, v) && Fits(b, v, depth, wide)
    ensures CleanTexts(b, Canon(v)) && Fits(b, Canon(v), depth, wide)
    decreases v
  {
    match v
    case Arr(es) =>
      forall e | e in CanonAll(es) ensures CleanTexts(b, e) && Fits(b, e, depth + 1, false) {
        var i :| 0 <= i < |es| && CanonAll(es)[i] == e;
        assert es[i] in es;
        CanonKeepsBounds(b, es[i], depth + 1, false);
      }
    case Obj(ms) =>
      var cs := CanonMembers(ms);
      SortHolds(cs);
      forall m | m in SortMembers(cs) ensures b.admits(m.key) && CleanTexts(b, m.value) && Fits(b, m.value, depth + 1, IsWide(b, depth + 1, m.key)) {
        var i :| 0 <= i < |ms| && cs[i] == m;
        assert ms[i] in ms;
        CanonKeepsBounds(b, ms[i].value, depth + 1, IsWide(b, depth + 1, m.key));
      }
    case _ =>
  }
}
