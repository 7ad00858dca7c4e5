/** The parser and the encoder as they run: a cursor with budgets, and a growing buffer.
    Each method is tied to the function of Codec.dfy that the laws are about. */
module WireCoders {
  import opened Utf8
  import opened Wire
  import opened Codec
  import opened RoundTrip

  class Parser {
    const data: bytes
    const b: Bounds
    var pos: nat
    var depth: nat
    var nodes: nat
    var wide: bool

    constructor (data: bytes, b: Bounds)
      requires forall t :: b.admits(t) <==> Clean(t, true)
      ensures this.data == data && this.b == b && Ready() && pos == 0 && depth == 0 && nodes == 0 && !wide
    {
      this.data, this.b, this.pos, this.depth, this.nodes, this.wide := data, b, 0, 0, 0, false;
    }

    ghost predicate Ready()
      reads this
    {
      pos <= |data| && forall t :: b.admits(t) <==> Clean(t, true)
    }

    /** The fields hold what the step says, back at `level`. */
    ghost predicate Took(r: Outcome<Value>, s: Step<Value>, level: nat)
      reads this
    {
      match s
      case Good(v, p, n) => r == Outcome.Ok(v) && pos == p && nodes == n && depth == level
      case Bad(f) => r == Outcome.Err(f)
    }

    method Node() returns (ok: bool)
      modifies this`nodes
      ensures nodes == old(nodes) + 1 && (ok <==> nodes <= b.nodes)
    {
      nodes := nodes + 1;
      ok := nodes <= b.nodes;
    }

    method Enter() returns (ok: bool)
      modifies this`depth
      ensures depth == old(depth) + 1 && (ok <==> depth <= b.depth)
    {
      depth := depth + 1;
      ok := depth <= b.depth;
    }

    method TakeLiteral(lit: bytes, v: Value) returns (r: Outcome<Value>)
      requires Ready() && lit != []
      modifies this`pos
      ensures Ready() && Took(r, Literal(data, old(pos), lit, v, nodes), depth)
    {
      if |data| - pos < |lit| || data[pos..pos + |lit|] != lit { return Outcome.Err(MALFORMED); }
      pos := pos + |lit|;
      r := Outcome.Ok(v);
    }

    /** Four hexadecimal digits, folded four bits at a time. */
    method TakeHex4() returns (r: int)
      requires Ready()
      modifies this`pos
      ensures Ready() && r == Hex4(data, old(pos)) && pos == (if r < 0 then old(pos) else old(pos) + 4)
    {
      if |data| - pos < 4 { return -1; }
      ghost var d0, d1, d2, d3 := HexVal(data[pos]), HexVal(data[pos + 1]), HexVal(data[pos + 2]), HexVal(data[pos + 3]);
      r := 0;
      var i := 0;
      while i < 4
        invariant 0 <= i <= 4
        invariant i > 0 ==> d0 >= 0
        invariant i > 1 ==> d1 >= 0
        invariant i > 2 ==> d2 >= 0
        invariant i > 3 ==> d3 >= 0
        invariant r == (if i == 0 then 0 else if i == 1 then d0 else if i == 2 then d0 * 16 + d1
                        else if i == 3 then d0 * 256 + d1 * 16 + d2 else d0 * 4096 + d1 * 256 + d2 * 16 + d3)
      {
        var h := HexVal(data[pos + i]);
        if h < 0 { return -1; }
        r := r * 16 + h;
        i := i + 1;
      }
      pos := pos + 4;
    }

    /** The escape after the backslash just passed. */
    method TakeEscape() returns (t: Scan)
      requires Ready()
      modifies this`pos
      ensures Ready() && t == ScanEscape(data, old(pos)) && (t.Text? ==> pos == t.pos)
    {
      if pos >= |data| { return Broken; }
      var e := data[pos];
      pos := pos + 1;
      if ShortEscape(e) != [] { return Text(ShortEscape(e), pos); }
      if e != 0x75 { return Broken; }
      var r := TakeHex4();
      if r < 0 { return Broken; }
      if 0xD800 <= r <= 0xDBFF {
        if |data| - pos < 6 || data[pos] != BACKSLASH || data[pos + 1] != 0x75 { return Broken; }
        pos := pos + 2;
        var lo := TakeHex4();
        if lo < 0xDC00 || lo > 0xDFFF { return Broken; }
        return Text(RuneBytes(0x10000 + (r - 0xD800) * 1024 + (lo - 0xDC00)), pos);
      }
      if 0xDC00 <= r <= 0xDFFF { return Broken; }
      t := Text(RuneBytes(r), pos);
    }

    method TakeText() returns (t: Scan)
      requires Ready() && pos < |data|
      modifies this`pos
      ensures Ready() && t == ParseText(b, data, old(pos)) && (t.Text? ==> pos == t.pos)
    {
      ghost var start := pos;
      pos := pos + 1;
      var out := [];
      while true
        invariant start < pos <= |data|
        invariant ScanText(data, pos, out) == ScanText(data, start + 1, [])
        decreases |data| - pos
      {
        if pos >= |data| { return Broken; }
        var c := data[pos];
        if c == QUOTE {
          pos := pos + 1;
          var clean := CheckHostile(out, true);
          return if clean then Text(out, pos) else Broken;
        } else if c == BACKSLASH {
          pos := pos + 1;
          var e := TakeEscape();
          if e.Broken? { return Broken; }
          out := out + e.text;
        } else if c < 0x20 {
          return Broken;
        } else {
          out := out + [c];
          pos := pos + 1;
        }
      }
    }

    method TakeValue() returns (r: Outcome<Value>)
      requires Ready()
      modifies this
      ensures Ready() && Took(r, ParseValue(b, data, old(pos), old(depth), old(nodes), old(wide)), old(depth))
      ensures !old(wide) ==> !wide
      decreases |data| - pos, 3
    {
      var ok := Node();
      if !ok { return Outcome.Err(LIMIT_EXCEEDED); }
      if pos >= |data| { return Outcome.Err(MALFORMED); }
      var c := data[pos];
      if c == 0x7B {
        r := TakeObject();
      } else if c == 0x5B {
        r := TakeArray();
      } else if c == QUOTE {
        var t := TakeText();
        return if t.Broken? then Outcome.Err(MALFORMED) else Outcome.Ok(Str(t.text));
      } else if c == 0x74 {
        r := TakeLiteral(TRUE_TEXT, Bool(true));
      } else if c == 0x66 {
        r := TakeLiteral(FALSE_TEXT, Bool(false));
      } else if c == 0x6E {
        r := TakeLiteral(NULL_TEXT, Null);
      } else {
        r := Outcome.Err(MALFORMED);
      }
    }

    method TakeObject() returns (r: Outcome<Value>)
      requires Ready() && pos < |data|
      modifies this
      ensures Ready() && Took(r, ParseObject(b, data, old(pos), old(depth), old(nodes)), old(depth))
      ensures !old(wide) ==> !wide
      decreases |data| - pos, 2
    {
      var ok := Enter();
      if !ok { return Outcome.Err(LIMIT_EXCEEDED); }
      pos := pos + 1;
      if pos < |data| && data[pos] == 0x7D {
        pos := pos + 1;
        depth := depth - 1;
        return Outcome.Ok(Obj([]));
      }
      r := TakeMembers();
    }

    /** The members of an object, up to and past its closing brace. */
    method TakeMembers() returns (r: Outcome<Value>)
      requires Ready() && depth > 0
      modifies this
      ensures Ready() && Took(r, ParseMembers(b, data, old(pos), old(depth), old(nodes), []), old(depth) - 1)
      ensures !old(wide) ==> !wide
      decreases |data| - pos, 4
    {
      var members: seq<Member> := [];
      ghost var whole := ParseMembers(b, data, pos, depth, nodes, []);
      while true
        invariant Ready() && old(pos) <= pos && depth == old(depth) && (!old(wide) ==> !wide)
        invariant ParseMembers(b, data, pos, depth, nodes, members) == whole
        decreases |data| - pos
      {
        var m, ended := TakeMember(members);
        if m.Err? { return Outcome.Err(m.failure); }
        members := members + [m.value];
        if ended {
          depth := depth - 1;
          return Outcome.Ok(Obj(members));
        }
      }
    }

    method TakeKey(got: seq<Member>) returns (key: Scan)
      requires Ready()
      modifies this`pos
      ensures Ready() && key == ParseKey(b, data, old(pos), got) && (key.Text? ==> pos == key.pos)
    {
      if pos >= |data| || data[pos] != QUOTE { return Broken; }
      key := TakeText();
      if key.Broken? || HasKey(got, key.text) { return Broken; }
      if pos >= |data| || data[pos] != 0x3A { return Broken; }
      pos := pos + 1;
      key := Text(key.text, pos);
    }

    /** One turn of the member loop: key, colon, value, and a comma or the end. */
    method TakeMember(got: seq<Member>) returns (m: Outcome<Member>, ended: bool)
      requires Ready()
      modifies this
      ensures Ready() && (m.Ok? ==> old(pos) < pos && depth == old(depth)) && (!old(wide) ==> !wide)
      ensures m.Err? ==> ParseMembers(b, data, old(pos), old(depth), old(nodes), got) == Bad(m.failure)
      ensures m.Ok? && ended ==> ParseMembers(b, data, old(pos), old(depth), old(nodes), got) == Good(Obj(got + [m.value]), pos, nodes)
      ensures m.Ok? && !ended ==>
        ParseMembers(b, data, old(pos), old(depth), old(nodes), got) == ParseMembers(b, data, pos, depth, nodes, got + [m.value])
      decreases |data| - pos, 1
    {
      hide HasKey, ScanText, ParseText;
      ended := false;
      var key := TakeKey(got);
      if key.Broken? { return Outcome.Err(MALFORMED), ended; }
      wide := depth == 1 && b.wideKey != [] && key.text == b.wideKey;
      var v := TakeValue();
      wide := false;
      if v.Err? { return Outcome.Err(v.failure), ended; }
      if pos >= |data| || (data[pos] != 0x2C && data[pos] != 0x7D) { return Outcome.Err(MALFORMED), ended; }
      ended := data[pos] == 0x7D;
      pos := pos + 1;
      m := Outcome.Ok(Member(key.text, v.value));
    }

    method TakeArray() returns (r: Outcome<Value>)
      requires Ready() && pos < |data|
      modifies this
      ensures Ready() && Took(r, ParseArray(b, data, old(pos), old(depth), old(nodes), old(wide)), old(depth))
      ensures !old(wide) ==> !wide
      decreases |data| - pos, 2
    {
      hide ParseValue, ParseMembers, ScanText;
      ghost var level := depth;
      var ok := Enter();
      if !ok { return Outcome.Err(LIMIT_EXCEEDED); }
      pos := pos + 1;
      var bound := b.elems;
      if wide && depth == 2 { bound := b.wideMax; }
      wide := false;
      if pos < |data| && data[pos] == 0x5D {
        pos := pos + 1;
        depth := depth - 1;
        return Outcome.Ok(Arr([]));
      }
      var elems: seq<Value> := [];
      ghost var whole := ParseElems(b, data, pos, depth, nodes, bound, []);
      while true
        invariant Ready() && old(pos) < pos && depth == level + 1 && !wide
        invariant ParseElems(b, data, pos, depth, nodes, bound, elems) == whole
        decreases |data| - pos
      {
        var v := TakeValue();
        if v.Err? { return v; }
        elems := elems + [v.value];
        if |elems| > bound { return Outcome.Err(LIMIT_EXCEEDED); }
        if pos >= |data| { return Outcome.Err(MALFORMED); }
        if data[pos] == 0x2C {
          pos := pos + 1;
        } else if data[pos] == 0x5D {
          pos := pos + 1;
          depth := depth - 1;
          return Outcome.Ok(Arr(elems));
        } else {
          return Outcome.Err(MALFORMED);
        }
      }
    }
  }

  /** The document parser: framing checks, one value, and a re-encoding compared with
      the bytes that were read. */
  method Parse(data: bytes, o: Options) returns (r: Outcome<Value>)
    ensures r == ParseWith(data, o)
  {
    if data == [] { return Outcome.Err(MALFORMED); }
    var valid := CheckUtf8(data);
    if !valid || (|data| >= 3 && data[..3] == [0xEF, 0xBB, 0xBF]) || data[|data| - 1] != LF { return Outcome.Err(MALFORMED); }
    var body := data[..|data| - 1];
    var p := new Parser(body, BoundsOf(o));
    var v := p.TakeValue();
    if v.Err? { return v; }
    if p.pos != |body| { return Outcome.Err(MALFORMED); }
    var enc := AppendValue([], v.value);
    assert [] + Encode(v.value) == Encode(v.value);
    if enc != body { return Outcome.Err(MALFORMED); }
    r := v;
  }

  method CheckUtf8(s: bytes) returns (ok: bool)
    ensures ok <==> Valid(s)
  {
    hide Valid, RuneLen;
    var i := 0;
    assert s[0..] == s;
    while i < |s|
      invariant i <= |s| && (Valid(s) <==> Valid(s[i..]))
    {
      var n := RuneLen(s[i..]);
      ValidStep(s, i);
      if n == 0 { return false; }
      i := i + n;
    }
    ValidStep(s, i);
    ok := true;
  }

  // ----- encoding -----

  /** How far one step of the string encoder goes: a byte, or a whole rune. */
  function Stride(s: bytes, i: nat): (n: nat)
    requires i < |s|
    ensures 1 <= n && i + n <= |s|
  {
    if s[i] < 0x80 || RuneLen(s[i..]) == 0 then 1 else RuneLen(s[i..])
  }

  /** What that step appends is the escape of the bytes it passes. */
  lemma StrideEscapes(s: bytes, i: nat)
    requires i < |s|
    ensures EscapeAll(s[i..i + Stride(s, i)]) == if s[i] < 0x80 then Escape(s[i]) else s[i..i + Stride(s, i)]
  {
    var n, t := Stride(s, i), s[i..];
    if s[i] < 0x80 {
      assert s[i..i + 1] == [s[i]] && [s[i]][1..] == [];
    } else {
      if RuneLen(t) > 0 { RuneTails(t); }
      assert s[i..i + n] == t[..n];
      RawEscapes(t[..n]);
    }
  }

  /** Quote one string, a rune at a time. */
  lemma StringStep(buffer: bytes, s: bytes, i: nat)
    requires i < |s|
    ensures var next := if s[i] < 0x80 then Escape(s[i]) else s[i..i + Stride(s, i)];
      buffer + ([QUOTE] + EscapeAll(s[..i])) + next == buffer + ([QUOTE] + EscapeAll(s[..i + Stride(s, i)]))
  {
    hide EscapeAll, Stride, Escape;
    var n := Stride(s, i);
    StrideEscapes(s, i);
    EscapedPrefix(s[..i + n], i);
    assert s[..i + n][..i] == s[..i] && s[..i + n][i..] == s[i..i + n];
    Reassociate([QUOTE], EscapeAll(s[..i]), EscapeAll(s[i..i + n]));
    Reassociate(buffer, [QUOTE] + EscapeAll(s[..i]), EscapeAll(s[i..i + n]));
  }

  method AppendString(buffer: bytes, s: bytes) returns (out: bytes)
    ensures out == buffer + EncodeText(s)
  {
    out := buffer + [QUOTE];
    var i := 0;
    assert EscapeAll(s[..0]) == [];
    hide EscapeAll, Stride, Escape;
    while i < |s|
      invariant i <= |s| && out == buffer + ([QUOTE] + EscapeAll(s[..i]))
    {
      var n := Stride(s, i);
      StringStep(buffer, s, i);
      out := out + (if s[i] < 0x80 then Escape(s[i]) else s[i..i + n]);
      i := i + n;
    }
    assert s[..i] == s;
    out := out + [QUOTE];
  }

  /** Canonical members, rendered with a comma before each but the first. */
  function Listed(ms: seq<Member>): bytes {
    if ms == [] then []
    else Listed(ms[..|ms| - 1]) + (if |ms| > 1 then [0x2C] else []) + RenderMember(ms[|ms| - 1])
  }

  function ListedElems(es: seq<Value>): bytes {
    if es == [] then []
    else ListedElems(es[..|es| - 1]) + (if |es| > 1 then [0x2C] else []) + Render(es[|es| - 1])
  }

  lemma {:induction false} ElemsListed(es: seq<Value>)
    ensures ListedElems(es) == RenderElems(es)
  {
    if |es| > 1 {
      var last := es[|es| - 1];
      ElemsListed(es[..|es| - 1]);
      ElemsAppend(es[..|es| - 1], last);
      assert es[..|es| - 1] + [last] == es;
    } else if |es| == 1 {
      assert es[..0] == [];
    }
  }

  lemma {:induction false} ElemsAppend(es: seq<Value>, e: Value)
    requires es != []
    ensures RenderElems(es + [e]) == RenderElems(es) + [0x2C] + Render(e)
  {
    assert (es + [e])[0] == es[0] && (es + [e])[1..] == es[1..] + [e];
    if |es| > 1 {
      ElemsAppend(es[1..], e);
      Associate(Render(es[0]), [0x2C], RenderElems(es[1..]), [0x2C] + Render(e));
    }
  }

  lemma Associate(a: bytes, b: bytes, c: bytes, d: bytes)
    ensures a + b + c + d == a + b + (c + d)
  {
  }

  lemma {:induction false} MembersListed(ms: seq<Member>)
    ensures Listed(ms) == RenderMembers(ms)
  {
    if |ms| > 1 {
      var last := ms[|ms| - 1];
      MembersListed(ms[..|ms| - 1]);
      MembersAppend(ms[..|ms| - 1], last);
      assert ms[..|ms| - 1] + [last] == ms;
    } else if |ms| == 1 {
      assert ms[..0] == [];
    }
  }

  lemma {:induction false} MembersAppend(ms: seq<Member>, m: Member)
    requires ms != []
    ensures RenderMembers(ms + [m]) == RenderMembers(ms) + [0x2C] + RenderMember(m)
  {
    assert (ms + [m])[0] == ms[0] && (ms + [m])[1..] == ms[1..] + [m];
    if |ms| > 1 {
      MembersAppend(ms[1..], m);
      Associate(RenderMember(ms[0]), [0x2C], RenderMembers(ms[1..]), [0x2C] + RenderMember(m));
    }
  }

  lemma {:induction false} CanonInsert(m: Member, ms: seq<Member>)
    ensures CanonMembers(Insert(m, ms)) == Insert(Member(m.key, Canon(m.value)), CanonMembers(ms))
  {
    if ms != [] && Below(ms[0].key, m.key) {
      CanonInsert(m, ms[1..]);
      assert CanonMembers(ms)[1..] == CanonMembers(ms[1..]);
      assert Insert(m, ms)[1..] == Insert(m, ms[1..]);
    }
  }

  /** Sorting first and encoding each member, or the other way round. */
  lemma {:induction false} CanonSorted(ms: seq<Member>)
    ensures CanonMembers(SortMembers(ms)) == SortMembers(CanonMembers(ms))
  {
    if ms != [] {
      CanonSorted(ms[1..]);
      CanonInsert(ms[0], SortMembers(ms[1..]));
      assert CanonMembers(ms)[1..] == CanonMembers(ms[1..]);
    }
  }

  /** Append the canonical encoding of `v`. */
  method AppendValue(buffer: bytes, v: Value) returns (out: bytes)
    ensures out == buffer + Encode(v)
    decreases NodeCount(v), 1
  {
    hide EncodeText, SortMembers, CanonMembers;
    match v
    case Null => out := buffer + NULL_TEXT;
    case Bool(x) => out := buffer + (if x then TRUE_TEXT else FALSE_TEXT);
    case Str(t) => out := AppendString(buffer, t);
    case Arr(es) =>
      out := AppendElems(buffer + [0x5B], es);
      out := out + [0x5D];
      assert out == buffer + Encode(v);
    case Obj(ms) =>
      NodesSorted(ms);
      out := AppendMembers(buffer + [0x7B], SortMembers(ms));
      CanonSorted(ms);
      out := out + [0x7D];
      assert out == buffer + Encode(v);
  }

  lemma Regroup(a: bytes, b: bytes, c: bytes, d: bytes)
    ensures a + b + c + d == a + (b + c + d)
  {
  }

  lemma ListedElemsMore(es: seq<Value>, i: nat)
    requires i < |es|
    ensures ListedElems(es[..i + 1]) == ListedElems(es[..i]) + (if i > 0 then [0x2C] else []) + Render(es[i])
  {
    hide Render;
    assert es[..i + 1][..i] == es[..i];
  }

  method AppendElems(buffer: bytes, es: seq<Value>) returns (out: bytes)
    ensures out == buffer + RenderElems(CanonAll(es))
    decreases NodesOf(es), 2
  {
    out := buffer;
    var i := 0;
    ghost var cs := CanonAll(es);
    assert ListedElems(cs[..0]) == [];
    assert forall k :: 0 <= k < |es| ==> Render(cs[k]) == Encode(es[k]);
    hide ListedElems, RenderElems, CanonAll, Canon, NodesOf, NodeCount, Encode, Render;
    while i < |es|
      invariant i <= |es| && out == buffer + ListedElems(cs[..i])
    {
      ListedElemsMore(cs, i);
      NodesWithin(es, es[i]);
      var comma: bytes := if i > 0 then [0x2C] else [];
      Regroup(buffer, ListedElems(cs[..i]), comma, Encode(es[i]));
      out := out + comma;
      out := AppendValue(out, es[i]);
      i := i + 1;
    }
    assert cs[..i] == cs;
    ElemsListed(cs);
  }

  method AppendMembers(buffer: bytes, ms: seq<Member>) returns (out: bytes)
    ensures out == buffer + RenderMembers(CanonMembers(ms))
    decreases NodesIn(ms), 4
  {
    ghost var cs := CanonMembers(ms);
    out := buffer;
    var i := 0;
    while i < |ms|
      invariant i <= |ms| && out == buffer + Listed(cs[..i])
    {
      MembersWithin(ms, ms[i]);
      out := AppendNext(buffer, out, ms[i], cs, i);
      i := i + 1;
    }
    assert cs[..i] == cs;
    MembersListed(cs);
  }

  lemma ListedMore(ms: seq<Member>, i: nat)
    requires i < |ms|
    ensures Listed(ms[..i + 1]) == Listed(ms[..i]) + (if i > 0 then [0x2C] else []) + RenderMember(ms[i])
  {
    assert ms[..i + 1][..i] == ms[..i];
  }

  /** One more member of the sorted list, after a comma unless it is the first. */
  method AppendNext(buffer: bytes, before: bytes, m: Member, ghost cs: seq<Member>, i: nat) returns (out: bytes)
    requires i < |cs| && cs[i] == Member(m.key, Canon(m.value)) && before == buffer + Listed(cs[..i])
    ensures out == buffer + Listed(cs[..i + 1])
    decreases NodeCount(m.value), 3
  {
    hide Listed, RenderMember, Canon, NodeCount;
    ListedMore(cs, i);
    out := AppendMember(if i > 0 then before + [0x2C] else before, m);
  }

  method AppendMember(buffer: bytes, m: Member) returns (out: bytes)
    ensures out == buffer + RenderMember(Member(m.key, Canon(m.value)))
    decreases NodeCount(m.value), 2
  {
    out := AppendString(buffer, m.key);
    out := out + [0x3A];
    out := AppendValue(out, m.value);
  }
}
