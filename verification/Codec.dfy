/** What the encoder writes and what the parser accepts, as functions, and the proof
    that they are inverse: a document parses exactly when it is the encoding of a
    value within the bounds. */
module Codec {
  import opened Utf8
  import opened Wire

  // ----- encoding -----

  function HexDigit(n: nat): byte
    requires n < 16
  {
    if n < 10 then 0x30 + n else 0x61 + (n - 10)
  }

  function Escape(c: byte): bytes {
    if c == QUOTE || c == BACKSLASH then [BACKSLASH, c]
    else if c == 0x09 then [BACKSLASH, 0x74]
    else if c == 0x0A then [BACKSLASH, 0x6E]
    else if c == 0x0D then [BACKSLASH, 0x72]
    else if c < 0x20 then [BACKSLASH, 0x75, 0x30, 0x30, HexDigit(c / 16), HexDigit(c % 16)]
    else [c]
  }

  function EscapeAll(s: bytes): bytes {
    if s == [] then [] else Escape(s[0]) + EscapeAll(s[1..])
  }

  function EncodeText(s: bytes): bytes { [QUOTE] + EscapeAll(s) + [QUOTE] }

  /** A value written as it stands, without sorting. */
  function Render(v: Value): bytes {
    match v
    case Null => NULL_TEXT
    case Bool(b) => if b then TRUE_TEXT else FALSE_TEXT
    case Str(t) => EncodeText(t)
    case Arr(es) => [0x5B] + RenderElems(es) + [0x5D]
    case Obj(ms) => [0x7B] + RenderMembers(ms) + [0x7D]
  }

  function RenderElems(es: seq<Value>): bytes {
    if es == [] then []
    else if |es| == 1 then Render(es[0])
    else Render(es[0]) + [0x2C] + RenderElems(es[1..])
  }

  function RenderMember(m: Member): bytes { EncodeText(m.key) + [0x3A] + Render(m.value) }

  function RenderMembers(ms: seq<Member>): bytes {
    if ms == [] then []
    else if |ms| == 1 then RenderMember(ms[0])
    else RenderMember(ms[0]) + [0x2C] + RenderMembers(ms[1..])
  }

  function Encode(v: Value): bytes { Render(Canon(v)) }

  function EncodeFile(v: Value): bytes { Encode(v) + [LF] }

  // ----- parsing -----

  /** The decode bounds, and which decoded strings are admitted; `wideMax` applies to
      the array that is directly the value of the top-level key `wideKey`. */
  datatype Bounds = Bounds(depth: nat, elems: nat, nodes: nat, wideKey: bytes, wideMax: nat, admits: bytes -> bool)

  datatype Scan = Text(text: bytes, pos: nat) | Broken

  datatype Step<+T> = Good(value: T, pos: nat, nodes: nat) | Bad(failure: Failure)

  function HexVal(c: byte): int {
    if 0x30 <= c <= 0x39 then c as int - 0x30
    else if 0x61 <= c <= 0x66 then c as int - 0x61 + 10
    else if 0x41 <= c <= 0x46 then c as int - 0x41 + 10
    else -1
  }

  /** Four hexadecimal digits, or -1. */
  function Hex4(data: bytes, pos: nat): (r: int)
    ensures -1 <= r < 0x10000 && (r >= 0 ==> pos + 4 <= |data|)
  {
    if |data| < pos + 4 then -1
    else
      var a, b, c, d := HexVal(data[pos]), HexVal(data[pos + 1]), HexVal(data[pos + 2]), HexVal(data[pos + 3]);
      if a < 0 || b < 0 || c < 0 || d < 0 then -1 else a * 4096 + b * 256 + c * 16 + d
  }

  predicate Here(data: bytes, pos: nat, c: byte) { pos < |data| && data[pos] == c }

  /** The scalar after `\u` at `pos`, from one escape or a surrogate pair. */
  function ScanUnicode(data: bytes, pos: nat): (r: Scan)
    ensures r.Text? ==> pos < r.pos <= |data|
  {
    var hi := Hex4(data, pos);
    if hi < 0 then Broken
    else if 0xD800 <= hi <= 0xDBFF then
      if |data| < pos + 10 || data[pos + 4] != BACKSLASH || data[pos + 5] != 0x75 then Broken
      else
        var lo := Hex4(data, pos + 6);
        if lo < 0xDC00 || lo > 0xDFFF then Broken
        else Text(RuneBytes(0x10000 + (hi - 0xD800) * 1024 + (lo - 0xDC00)), pos + 10)
    else if 0xDC00 <= hi <= 0xDFFF then Broken
    else Text(RuneBytes(hi), pos + 4)
  }

  function ShortEscape(c: byte): (r: bytes)
    ensures |r| <= 1
  {
    if c == QUOTE || c == BACKSLASH || c == 0x2F then [c]
    else if c == 0x62 then [0x08]
    else if c == 0x66 then [0x0C]
    else if c == 0x6E then [0x0A]
    else if c == 0x72 then [0x0D]
    else if c == 0x74 then [0x09]
    else []
  }

  /** The escape whose backslash is just before `pos`. */
  function ScanEscape(data: bytes, pos: nat): (r: Scan)
    ensures r.Text? ==> pos < r.pos <= |data|
  {
    if pos >= |data| then Broken
    else if ShortEscape(data[pos]) != [] then Text(ShortEscape(data[pos]), pos + 1)
    else if data[pos] == 0x75 then ScanUnicode(data, pos + 1)
    else Broken
  }

  /** A string from inside its quotes to after the closing one. */
  function ScanText(data: bytes, pos: nat, out: bytes): (r: Scan)
    ensures r.Text? ==> pos < r.pos <= |data|
    decreases |data| - pos
  {
    if pos >= |data| then Broken
    else if data[pos] == QUOTE then Text(out, pos + 1)
    else if data[pos] == BACKSLASH then
      (match ScanEscape(data, pos + 1)
       case Broken => Broken
       case Text(t, next) => ScanText(data, next, out + t))
    else if data[pos] < 0x20 then Broken
    else ScanText(data, pos + 1, out + [data[pos]])
  }

  function ParseText(b: Bounds, data: bytes, pos: nat): (r: Scan)
    ensures r.Text? ==> pos + 1 < r.pos <= |data| && b.admits(r.text)
  {
    match ScanText(data, pos + 1, [])
    case Broken => Broken
    case Text(t, next) => if b.admits(t) then Text(t, next) else Broken
  }

  predicate IsWide(b: Bounds, depth: nat, key: bytes) {
    depth == 1 && b.wideKey != [] && key == b.wideKey
  }

  function ElemBound(b: Bounds, depth: nat, wide: bool): nat {
    if wide && depth == 2 then b.wideMax else b.elems
  }

  function Literal(data: bytes, pos: nat, lit: bytes, v: Value, nodes: nat): (r: Step<Value>)
    requires lit != []
    ensures r.Good? ==> pos < r.pos <= |data|
  {
    if pos + |lit| <= |data| && data[pos..pos + |lit|] == lit then Good(v, pos + |lit|, nodes) else Bad(MALFORMED)
  }

  function ParseValue(b: Bounds, data: bytes, pos: nat, depth: nat, nodes: nat, wide: bool): (r: Step<Value>)
    ensures r.Good? ==> pos < r.pos <= |data|
    decreases |data| - pos, 3
  {
    if nodes + 1 > b.nodes then Bad(LIMIT_EXCEEDED)
    else if pos >= |data| then Bad(MALFORMED)
    else if data[pos] == 0x7B then ParseObject(b, data, pos, depth, nodes + 1)
    else if data[pos] == 0x5B then ParseArray(b, data, pos, depth, nodes + 1, wide)
    else if data[pos] == QUOTE then
      (match ParseText(b, data, pos) case Broken => Bad(MALFORMED) case Text(t, next) => Good(Str(t), next, nodes + 1))
    else if data[pos] == 0x74 then Literal(data, pos, TRUE_TEXT, Bool(true), nodes + 1)
    else if data[pos] == 0x66 then Literal(data, pos, FALSE_TEXT, Bool(false), nodes + 1)
    else if data[pos] == 0x6E then Literal(data, pos, NULL_TEXT, Null, nodes + 1)
    else Bad(MALFORMED)
  }

  function ParseObject(b: Bounds, data: bytes, pos: nat, depth: nat, nodes: nat): (r: Step<Value>)
    requires pos < |data|
    ensures r.Good? ==> pos < r.pos <= |data|
    decreases |data| - pos, 2
  {
    if depth + 1 > b.depth then Bad(LIMIT_EXCEEDED)
    else if Here(data, pos + 1, 0x7D) then Good(Obj([]), pos + 2, nodes)
    else ParseMembers(b, data, pos + 1, depth + 1, nodes, [])
  }

  predicate HasKey(ms: seq<Member>, key: bytes) { exists i :: 0 <= i < |ms| && ms[i].key == key }

  /** A new key and its colon. */
  function ParseKey(b: Bounds, data: bytes, pos: nat, got: seq<Member>): (r: Scan)
    ensures r.Text? ==> pos < r.pos <= |data| && b.admits(r.text) && !HasKey(got, r.text)
  {
    if !Here(data, pos, QUOTE) then Broken
    else match ParseText(b, data, pos)
      case Broken => Broken
      case Text(key, after) => if HasKey(got, key) || !Here(data, after, 0x3A) then Broken else Text(key, after + 1)
  }

  /** Key, colon, value, then a comma and another member, or the end. */
  function ParseMembers(b: Bounds, data: bytes, pos: nat, depth: nat, nodes: nat, got: seq<Member>): (r: Step<Value>)
    ensures r.Good? ==> pos < r.pos <= |data|
    decreases |data| - pos, 1
  {
    match ParseKey(b, data, pos, got)
    case Broken => Bad(MALFORMED)
    case Text(key, start) =>
      match ParseValue(b, data, start, depth, nodes, IsWide(b, depth, key))
      case Bad(f) => Bad(f)
      case Good(v, next, n) =>
        if Here(data, next, 0x2C) then ParseMembers(b, data, next + 1, depth, n, got + [Member(key, v)])
        else if Here(data, next, 0x7D) then Good(Obj(got + [Member(key, v)]), next + 1, n)
        else Bad(MALFORMED)
  }

  function ParseArray(b: Bounds, data: bytes, pos: nat, depth: nat, nodes: nat, wide: bool): (r: Step<Value>)
    requires pos < |data|
    ensures r.Good? ==> pos < r.pos <= |data|
    decreases |data| - pos, 2
  {
    if depth + 1 > b.depth then Bad(LIMIT_EXCEEDED)
    else if Here(data, pos + 1, 0x5D) then Good(Arr([]), pos + 2, nodes)
    else ParseElems(b, data, pos + 1, depth + 1, nodes, ElemBound(b, depth + 1, wide), [])
  }

  function ParseElems(b: Bounds, data: bytes, pos: nat, depth: nat, nodes: nat, bound: nat, got: seq<Value>): (r: Step<Value>)
    ensures r.Good? ==> pos < r.pos <= |data|
    decreases |data| - pos, 4
  {
    match ParseValue(b, data, pos, depth, nodes, false)
    case Bad(f) => Bad(f)
    case Good(v, next, n) =>
      if |got| + 1 > bound then Bad(LIMIT_EXCEEDED)
      else if Here(data, next, 0x2C) then ParseElems(b, data, next + 1, depth, n, bound, got + [v])
      else if Here(data, next, 0x5D) then Good(Arr(got + [v]), next + 1, n)
      else Bad(MALFORMED)
  }

  // ----- the options of a parse -----

  datatype Options = Options(wideArrayKey: bytes, wideArrayMax: int, maxNodes: int)

  function BoundsOf(o: Options): Bounds {
    Bounds(MAX_DEPTH, MAX_ELEMENTS, if o.maxNodes <= 0 then MAX_NODES else o.maxNodes,
           if o.wideArrayMax <= 0 then [] else o.wideArrayKey, if o.wideArrayMax <= 0 then MAX_ELEMENTS else o.wideArrayMax,
           t => Clean(t, true))
  }

  /** A whole document under explicit bounds. */
  function ParseBounded(data: bytes, b: Bounds): Outcome<Value> {
    if data == [] || !Valid(data) then Err(MALFORMED)
    else if |data| >= 3 && data[..3] == [0xEF, 0xBB, 0xBF] then Err(MALFORMED)
    else if data[|data| - 1] != LF then Err(MALFORMED)
    else
      var body := data[..|data| - 1];
      match ParseValue(b, body, 0, 0, 0, false)
      case Bad(f) => Err(f)
      case Good(v, end, _) =>
        if end != |body| || Encode(v) != body then Err(MALFORMED) else Ok(v)
  }

  function ParseWith(data: bytes, o: Options): Outcome<Value> { ParseBounded(data, BoundsOf(o)) }

  // ----- what fits -----

  /** Every string and key is admissible. */
  predicate CleanTexts(b: Bounds, v: Value) {
    match v
    case Str(t) => b.admits(t)
    case Arr(es) => forall e :: e in es ==> CleanTexts(b, e)
    case Obj(ms) => forall m :: m in ms ==> b.admits(m.key) && CleanTexts(b, m.value)
    case _ => true
  }

  /** Nesting and array lengths, for a value at `depth`. */
  predicate Fits(b: Bounds, v: Value, depth: nat, wide: bool) {
    match v
    case Arr(es) =>
      depth + 1 <= b.depth && |es| <= ElemBound(b, depth + 1, wide) && forall e :: e in es ==> Fits(b, e, depth + 1, false)
    case Obj(ms) =>
      depth + 1 <= b.depth && forall m :: m in ms ==> Fits(b, m.value, depth + 1, IsWide(b, depth + 1, m.key))
    case _ => true
  }

  function NodeCount(v: Value): (n: nat)
    ensures n >= 1
  {
    match v
    case Arr(es) => 1 + NodesOf(es)
    case Obj(ms) => 1 + NodesIn(ms)
    case _ => 1
  }

  function NodesOf(es: seq<Value>): nat {
    if es == [] then 0 else NodeCount(es[0]) + NodesOf(es[1..])
  }

  function NodesIn(ms: seq<Member>): nat {
    if ms == [] then 0 else NodeCount(ms[0].value) + NodesIn(ms[1..])
  }

  // ----- strings -----

  /** `s` stands at `pos`. */
  predicate At(data: bytes, pos: nat, s: bytes)
    decreases |s|
  {
    s == [] || (Here(data, pos, s[0]) && At(data, pos + 1, s[1..]))
  }

  lemma {:induction false} AtSlice(data: bytes, pos: nat, s: bytes)
    requires pos <= |data|
    ensures At(data, pos, s) <==> pos + |s| <= |data| && data[pos..pos + |s|] == s
    decreases |s|
  {
    if s != [] && pos < |data| {
      AtSlice(data, pos + 1, s[1..]);
      if pos + |s| <= |data| {
        assert data[pos..pos + |s|] == [data[pos]] + data[pos + 1..pos + |s|];
        assert s == [s[0]] + s[1..];
      }
    }
  }

  lemma {:induction false} AtSplit(data: bytes, pos: nat, s: bytes, t: bytes)
    ensures At(data, pos, s + t) <==> At(data, pos, s) && At(data, pos + |s|, t)
    decreases |s|
  {
    if s == [] {
      assert s + t == t;
    } else {
      assert (s + t)[0] == s[0] && (s + t)[1..] == s[1..] + t;
      AtSplit(data, pos + 1, s[1..], t);
    }
  }

  lemma AtByte(data: bytes, pos: nat, c: byte)
    ensures At(data, pos, [c]) <==> Here(data, pos, c)
  {
    assert [c][1..] == [];
  }

  lemma {:induction false} AtIndex(data: bytes, pos: nat, s: bytes, i: nat)
    requires At(data, pos, s) && i < |s|
    ensures Here(data, pos + i, s[i])
    decreases i
  {
    if i > 0 { AtIndex(data, pos + 1, s[1..], i - 1); }
  }

  lemma ScanOneEscape(data: bytes, pos: nat, c: byte)
    requires At(data, pos, Escape(c)) && Escape(c)[0] == BACKSLASH
    ensures ScanEscape(data, pos + 1) == Text([c], pos + |Escape(c)|)
  {
    AtIndex(data, pos, Escape(c), 1);
    if !(c == QUOTE || c == BACKSLASH || c == 0x09 || c == 0x0A || c == 0x0D) {
      AtIndex(data, pos, Escape(c), 2);
      AtIndex(data, pos, Escape(c), 3);
      AtIndex(data, pos, Escape(c), 4);
      AtIndex(data, pos, Escape(c), 5);
      assert Hex4(data, pos + 2) == c;
    }
  }

  /** One turn of the string loop. */
  lemma ScanTurn(data: bytes, pos: nat, c: byte, out: bytes)
    requires At(data, pos, Escape(c))
    ensures ScanText(data, pos, out) == ScanText(data, pos + |Escape(c)|, out + [c])
  {
    AtIndex(data, pos, Escape(c), 0);
    if Escape(c)[0] == BACKSLASH { ScanOneEscape(data, pos, c); }
  }

  /** Turns add up: any loop that reads one escape at a time reads them all. */
  lemma {:induction false} ScanTurns(loop: (nat, bytes) -> Scan, data: bytes, pos: nat, t: bytes, out: bytes)
    requires At(data, pos, EscapeAll(t))
    requires forall p: nat, c: byte, o: bytes :: At(data, p, Escape(c)) ==> loop(p, o) == loop(p + |Escape(c)|, o + [c])
    ensures loop(pos, out) == loop(pos + |EscapeAll(t)|, out + t)
    decreases |t|
  {
    if t == [] {
      assert out + t == out;
    } else {
      AtSplit(data, pos, Escape(t[0]), EscapeAll(t[1..]));
      ScanTurns(loop, data, pos + |Escape(t[0])|, t[1..], out + [t[0]]);
      assert out + [t[0]] + t[1..] == out + t;
    }
  }

  lemma ScanEscaped(data: bytes, pos: nat, t: bytes)
    requires At(data, pos, EscapeAll(t)) && Here(data, pos + |EscapeAll(t)|, QUOTE)
    ensures ScanText(data, pos, []) == Text(t, pos + |EscapeAll(t)| + 1)
  {
    hide EscapeAll, Escape, At;
    var loop := (p: nat, o: bytes) => ScanText(data, p, o);
    forall p: nat, c: byte, o: bytes | At(data, p, Escape(c)) ensures loop(p, o) == loop(p + |Escape(c)|, o + [c]) { ScanTurn(data, p, c, o); }
    ScanTurns(loop, data, pos, t, []);
    assert loop(pos, []) == loop(pos + |EscapeAll(t)|, [] + t);
    assert [] + t == t;
  }

  lemma ParseEncodedText(b: Bounds, data: bytes, pos: nat, t: bytes)
    requires b.admits(t) && At(data, pos, EncodeText(t))
    ensures Here(data, pos, QUOTE) && ParseText(b, data, pos) == Text(t, pos + |EncodeText(t)|)
  {
    AtSplit(data, pos, [QUOTE] + EscapeAll(t), [QUOTE]);
    AtSplit(data, pos, [QUOTE], EscapeAll(t));
    AtByte(data, pos, QUOTE);
    AtByte(data, pos + 1 + |EscapeAll(t)|, QUOTE);
    ScanEscaped(data, pos + 1, t);
  }
}
