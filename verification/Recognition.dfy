/**
 The strict tokenizer recognises exactly the texts of `Syntax`, and its tokens
 are the nodes of the syntax tree in preorder.
 */
module Recognition {
  import opened Base
  import opened Syntax
  import opened JsmnSpec

  // ---- The tokens of a tree --------------------------------------------------------------------

  /** The tokens of a value printed at byte `pos`: its own, then those of its children in order. */
  function Preorder(v: Value, pos: nat): seq<Token>
    requires pos + Len(v) < UNSET
    decreases v, 2
  {
    match v
    case Str(body) => [Token(String, pos + 1, pos + 1 + |body|)]
    case Prim(text) => [Token(Primitive, pos, pos + |text|)]
    case Arr(_, elems) =>
      [Token(Array, pos, pos + Len(v))] + (if elems == [] then [] else ElemTokens(elems, pos + 1))
    case Obj(_, members) =>
      [Token(Object, pos, pos + Len(v))] + (if members == [] then [] else MemberTokens(members, pos + 1))
  }

  function ElemTokens(es: seq<Elem>, pos: nat): seq<Token>
    requires es != [] && pos + LenElems(es) < UNSET
    decreases es, 1
  {
    var at := pos + |es[0].lead|;
    Preorder(es[0].value, at) + MoreElemTokens(es, at + Len(es[0].value) + |es[0].trail| + 1)
  }

  /** The tokens of the elements after the first, which start at `pos`. */
  function MoreElemTokens(es: seq<Elem>, pos: nat): seq<Token>
    requires es != [] && pos + LenMoreElems(es) < UNSET
    decreases es, 0
  {
    if |es| == 1 then [] else ElemTokens(es[1..], pos)
  }

  function KeyToken(m: Member, pos: nat): Token
    requires pos + LenToValue(m) < UNSET
  {
    Token(String, pos + |m.lead| + 1, pos + |m.lead| + 1 + |m.key|)
  }

  function MemberTokens(ms: seq<Member>, pos: nat): seq<Token>
    requires ms != [] && pos + LenMembers(ms) < UNSET
    decreases ms, 1
  {
    var at := pos + LenToValue(ms[0]);
    [KeyToken(ms[0], pos)] + Preorder(ms[0].value, at) +
    MoreMemberTokens(ms, at + Len(ms[0].value) + |ms[0].trail| + 1)
  }

  function MoreMemberTokens(ms: seq<Member>, pos: nat): seq<Token>
    requires ms != [] && pos + LenMoreMembers(ms) < UNSET
    decreases ms, 0
  {
    if |ms| == 1 then [] else MemberTokens(ms[1..], pos)
  }

  /** The number of tokens: one a value and one a key. */
  function Size(v: Value): (n: nat)
    ensures n >= 1
    decreases v, 1
  {
    match v
    case Str(_) => 1
    case Prim(_) => 1
    case Arr(_, elems) => 1 + ElemsSize(elems)
    case Obj(_, members) => 1 + MembersSize(members)
  }

  function ElemsSize(es: seq<Elem>): nat
    decreases es, 0
  {
    if es == [] then 0 else Size(es[0].value) + ElemsSize(es[1..])
  }

  function MembersSize(ms: seq<Member>): nat
    decreases ms, 0
  {
    if ms == [] then 0 else 1 + Size(ms[0].value) + MembersSize(ms[1..])
  }

  predicate AllClosed(toks: seq<Token>) { forall t | t in toks :: !IsOpen(t) }

  lemma {:induction false} PreorderShape(v: Value, pos: nat)
    requires pos + Len(v) < UNSET
    ensures |Preorder(v, pos)| == Size(v) && AllClosed(Preorder(v, pos))
    decreases v, 1
  {
    match v
    case Str(_) =>
    case Prim(_) =>
    case Arr(_, elems) => if elems != [] { ElemTokensShape(elems, pos + 1); }
    case Obj(_, members) => if members != [] { MemberTokensShape(members, pos + 1); }
  }

  lemma {:induction false} ElemTokensShape(es: seq<Elem>, pos: nat)
    requires es != [] && pos + LenElems(es) < UNSET
    ensures |ElemTokens(es, pos)| == ElemsSize(es) && AllClosed(ElemTokens(es, pos))
    decreases es, 0
  {
    var at := pos + |es[0].lead|;
    PreorderShape(es[0].value, at);
    if |es| > 1 { ElemTokensShape(es[1..], at + Len(es[0].value) + |es[0].trail| + 1); }
  }

  lemma {:induction false} MemberTokensShape(ms: seq<Member>, pos: nat)
    requires ms != [] && pos + LenMembers(ms) < UNSET
    ensures |MemberTokens(ms, pos)| == MembersSize(ms) && AllClosed(MemberTokens(ms, pos))
    decreases ms, 0
  {
    var at := pos + LenToValue(ms[0]);
    PreorderShape(ms[0].value, at);
    if |ms| > 1 { MemberTokensShape(ms[1..], at + Len(ms[0].value) + |ms[0].trail| + 1); }
  }

  lemma {:induction false} LastOpenAppend(a: seq<Token>, b: seq<Token>)
    requires AllClosed(b)
    ensures LastOpen(a + b) == LastOpen(a)
  {
    if b == [] {
      assert a + b == a;
    } else {
      assert (a + b)[..|a + b| - 1] == a + b[..|b| - 1];
      LastOpenAppend(a, b[..|b| - 1]);
    }
  }

  // ---- Completeness: the tokenizer hops over a printed value -----------------------------------

  /** The text of `js` from `pos` on is `text`. */
  ghost predicate At(js: Bytes, pos: nat, text: Bytes) { pos <= |js| && js[pos..] == text }

  /** Where a value may start: inside a container, or an object at the top level. */
  predicate AtValue(s: Scan, v: Value) {
    WellFormed(s) &&
    (((s.want == AnyValue || s.want == ValueOrClose) && LastOpen(s.toks) >= 0) || (s.want == Root && v.Obj?))
  }

  function AfterContainer(toks: seq<Token>): Scan {
    Scan(toks, LastOpen(toks), if LastOpen(toks) >= 0 then CommaOrClose else Done)
  }

  /** The tokenizer's state after the value `v` at `pos`. */
  function AfterValue(s: Scan, v: Value, pos: nat): Scan
    requires pos + Len(v) < UNSET
  {
    var toks := s.toks + Preorder(v, pos);
    if v.Str? || v.Prim? then Scan(toks, s.sup, CommaOrClose) else AfterContainer(toks)
  }

  function Opened(s: Scan, pos: nat, brace: bool): Scan {
    Scan(s.toks + [Token(if brace then Object else Array, pos, UNSET)], |s.toks|,
         if brace then KeyOrClose else ValueOrClose)
  }

  function AfterKey(s: Scan, m: Member, pos: nat): Scan
    requires pos + LenToValue(m) < UNSET
  {
    Scan(s.toks + [KeyToken(m, pos)], |s.toks|, AnyValue)
  }

  /** After the contents `inner` of container `a` and its closing bracket, which ends at `end`. */
  function AfterClose(s: Scan, inner: seq<Token>, a: nat, end: nat): Scan
    requires a < |s.toks|
  {
    var toks := s.toks + inner;
    AfterContainer(toks[a := toks[a].(end := end)])
  }

  /** Inside the open container `a`, before its first or next element or member. */
  predicate Inside(s: Scan, a: nat, k: Kind) {
    WellFormed(s) && s.sup == a == LastOpen(s.toks) && s.toks[a].kind == k && IsContainer(k)
  }

  /** Inside container `a`, after a value: `toksuper` is `a`, or the value's key. */
  predicate AfterItem(s: Scan, a: nat, k: Kind) {
    WellFormed(s) && a == LastOpen(s.toks) && s.toks[a].kind == k && IsContainer(k) && s.want == CommaOrClose &&
    (s.sup == a || (s.sup >= 0 && s.toks[s.sup].kind == String))
  }

  predicate FollowsPrim(rest: Bytes) { rest != [] && IsDelimiter(rest[0]) }

  /**
   From state `s` at `pos`, a run stores `n` tokens and goes on from state `next`
   at `p`, before the bytes `rest`; or it fails for lack of token slots.
   */
  ghost predicate Hops(js: Bytes, cap: nat, pos: nat, s: Scan, n: nat, p: nat, next: Scan, rest: Bytes)
    requires pos <= |js| && WellFormed(s)
  {
    if |s.toks| + n <= cap
    then At(js, p, rest) && WellFormed(next) && |next.toks| == |s.toks| + n &&
         Run(js, pos, s, cap, true) == Run(js, p, next, cap, true)
    else Run(js, pos, s, cap, true) == Err(NoMem)
  }

  /** Where a hop that fits ends. */
  lemma {:induction false} Landed(js: Bytes, cap: nat, pos: nat, s: Scan, n: nat, p: nat, next: Scan, rest: Bytes)
    requires pos <= |js| && WellFormed(s) && Hops(js, cap, pos, s, n, p, next, rest) && |s.toks| + n <= cap
    ensures p <= |js| && At(js, p, rest) && WellFormed(next) && |next.toks| == |s.toks| + n
  {
  }

  /** Two hops in a row. */
  lemma {:induction false} Chain(js: Bytes, cap: nat, pos: nat, s: Scan, n1: nat, p1: nat, s1: Scan, rest1: Bytes,
                                 n2: nat, p2: nat, s2: Scan, rest2: Bytes)
    requires pos <= |js| && WellFormed(s) && Hops(js, cap, pos, s, n1, p1, s1, rest1)
    requires |s.toks| + n1 <= cap ==> p1 <= |js| && WellFormed(s1) && Hops(js, cap, p1, s1, n2, p2, s2, rest2)
    ensures Hops(js, cap, pos, s, n1 + n2, p2, s2, rest2)
  {
  }

  /** `b` follows `a`. */
  lemma {:induction false} Advance(js: Bytes, pos: nat, a: Bytes, b: Bytes)
    requires At(js, pos, Cat(a, b))
    ensures At(js, pos + |a|, b)
    ensures a != [] ==> js[pos] == a[0]
  {
    assert js[pos + |a|..] == js[pos..][|a|..];
    if a != [] { ByteAt(js, pos, a, b, 0); }
  }

  lemma {:induction false} ByteAt(js: Bytes, pos: nat, a: Bytes, b: Bytes, i: nat)
    requires At(js, pos, Cat(a, b)) && i < |a|
    ensures pos + i < |js| && js[pos + i] == a[i]
  {
    assert js[pos..][i] == a[i];
  }

  lemma {:induction false} AdvancePart(js: Bytes, pos: nat, a: Bytes, b: Bytes, n: nat)
    requires At(js, pos, Cat(a, b)) && n <= |a|
    ensures At(js, pos + n, Cat(a[n..], b))
  {
    assert a == a[..n] + a[n..];
    assert Cat(a, b) == Cat(a[..n], Cat(a[n..], b));
    Advance(js, pos, a[..n], Cat(a[n..], b));
  }

  // ---- Blanks, strings, primitives, punctuation ------------------------------------------------

  lemma {:induction false} RunStep(js: Bytes, cap: nat, pos: nat, s: Scan, p: nat, next: Scan)
    requires pos < |js| && js[pos] != '\0' && WellFormed(s) && Step(js, pos, s, cap, true) == Ok((next, p))
    ensures Run(js, pos, s, cap, true) == Run(js, p, next, cap, true)
  {
  }

  lemma {:induction false} RunStops(js: Bytes, cap: nat, pos: nat, s: Scan, e: JsmnError)
    requires pos < |js| && js[pos] != '\0' && WellFormed(s) && Step(js, pos, s, cap, true) == Err(e)
    ensures Run(js, pos, s, cap, true) == Err(e)
  {
  }

  lemma {:induction false} HopBlank(js: Bytes, cap: nat, pos: nat, s: Scan, pad: Bytes, rest: Bytes)
    requires At(js, pos, Cat(pad, rest)) && Blank(pad) && WellFormed(s) && |s.toks| <= cap
    ensures Hops(js, cap, pos, s, 0, pos + |pad|, s, rest)
    decreases |pad|
  {
    if pad != [] {
      ByteAt(js, pos, pad, rest, 0);
      AdvancePart(js, pos, pad, rest, 1);
      HopBlank(js, cap, pos + 1, s, pad[1..], rest);
    }
  }

  lemma {:induction false} HexRun(js: Bytes, i: nat, n: nat)
    requires i + n <= |js| && forall k | i <= k < i + n :: IsHex(js[k])
    ensures HexEnd(js, i, n) == Some(i + n)
    decreases n
  {
    if n > 0 { HexRun(js, i + 1, n - 1); }
  }

  lemma {:induction false} BodyComplete(js: Bytes, i: nat, body: Bytes, rest: Bytes)
    requires At(js, i, Cat(body, Cat("\"", rest))) && ValidBody(body)
    ensures StringEnd(js, i, true) == Ok(i + |body|)
    decreases |body|
  {
    var quoted := Cat("\"", rest);
    if body == [] {
      Advance(js, i, body, quoted);
      Advance(js, i, "\"", rest);
    } else {
      var n := UnitLen(body);
      ByteAt(js, i, body, quoted, 0);
      AdvancePart(js, i, body, quoted, n);
      if n > 1 { ByteAt(js, i, body, quoted, 1); }
      if n == 6 {
        forall k | i + 2 <= k < i + 6 ensures k < |js| && IsHex(js[k]) { ByteAt(js, i, body, quoted, k - i); }
        HexRun(js, i + 2, 4);
      }
      BodyComplete(js, i + n, body[n..], rest);
    }
  }

  lemma {:induction false} PrimComplete(js: Bytes, i: nat, text: Bytes, rest: Bytes)
    requires At(js, i, Cat(text, rest)) && forall k | 0 <= k < |text| :: IsPrimByte(text[k])
    requires FollowsPrim(rest)
    ensures PrimEnd(js, i) == Ok(i + |text|)
    decreases |text|
  {
    if text == [] {
      assert js[i] == js[i..][0] == rest[0];
    } else {
      ByteAt(js, i, text, rest, 0);
      AdvancePart(js, i, text, rest, 1);
      PrimComplete(js, i + 1, text[1..], rest);
    }
  }

  lemma {:induction false} StepString(js: Bytes, cap: nat, pos: nat, s: Scan, end: nat)
    requires pos < end < |js| < UNSET && WellFormed(s) && |s.toks| <= cap
    requires js[pos] == '"' && StringEnd(js, pos + 1, true) == Ok(end) && AfterString(s.want).Some?
    ensures var next := Scan(s.toks + [Token(String, pos + 1, end)], s.sup, AfterString(s.want).value);
            Run(js, pos, s, cap, true) == if |s.toks| < cap then Run(js, end + 1, next, cap, true) else Err(NoMem)
  {
    hide Run, StringEnd;
    if |s.toks| < cap {
      RunStep(js, cap, pos, s, end + 1, Scan(s.toks + [Token(String, pos + 1, end)], s.sup, AfterString(s.want).value));
    } else {
      RunStops(js, cap, pos, s, NoMem);
    }
  }

  lemma {:induction false} HopString(js: Bytes, cap: nat, pos: nat, s: Scan, body: Bytes, rest: Bytes)
    requires At(js, pos, Quoted(body, rest)) && |js| < UNSET && WellFormed(s) && |s.toks| <= cap
    requires ValidBody(body) && AfterString(s.want).Some?
    ensures Hops(js, cap, pos, s, 1, pos + |body| + 2,
                 Scan(s.toks + [Token(String, pos + 1, pos + 1 + |body|)], s.sup, AfterString(s.want).value), rest)
  {
    hide Run, Step, At, StringEnd, ValidBody;
    Advance(js, pos, "\"", Cat(body, Cat("\"", rest)));
    BodyComplete(js, pos + 1, body, rest);
    Advance(js, pos + 1, body, Cat("\"", rest));
    Advance(js, pos + 1 + |body|, "\"", rest);
    StepString(js, cap, pos, s, pos + 1 + |body|);
  }

  lemma {:induction false} StepPrim(js: Bytes, cap: nat, pos: nat, s: Scan, end: nat)
    requires pos < end <= |js| < UNSET && WellFormed(s) && |s.toks| <= cap
    requires js[pos] !in {'{', '[', '"'} && IsPrimByte(js[pos]) && PrimEnd(js, pos) == Ok(end) &&
             AfterPrimitive(s.want).Some?
    ensures var next := Scan(s.toks + [Token(Primitive, pos, end)], s.sup, CommaOrClose);
            Run(js, pos, s, cap, true) == if |s.toks| < cap then Run(js, end, next, cap, true) else Err(NoMem)
  {
    hide Run, PrimEnd;
    if |s.toks| < cap {
      RunStep(js, cap, pos, s, end, Scan(s.toks + [Token(Primitive, pos, end)], s.sup, CommaOrClose));
    } else {
      RunStops(js, cap, pos, s, NoMem);
    }
  }

  lemma {:induction false} HopPrim(js: Bytes, cap: nat, pos: nat, s: Scan, text: Bytes, rest: Bytes)
    requires At(js, pos, Cat(text, rest)) && |js| < UNSET && WellFormed(s) && |s.toks| <= cap
    requires ValidPrim(text) && FollowsPrim(rest) && AfterPrimitive(s.want).Some?
    ensures Hops(js, cap, pos, s, 1, pos + |text|,
                 Scan(s.toks + [Token(Primitive, pos, pos + |text|)], s.sup, CommaOrClose), rest)
  {
    hide Run, Step, PrimEnd;
    Advance(js, pos, text, rest);
    PrimComplete(js, pos, text, rest);
    assert IsPrimByte(text[0]);
    StepPrim(js, cap, pos, s, pos + |text|);
  }

  lemma {:induction false} HopColon(js: Bytes, cap: nat, pos: nat, s: Scan, rest: Bytes)
    requires At(js, pos, Cat(":", rest)) && WellFormed(s) && |s.toks| <= cap && s.want == Colon
    ensures Hops(js, cap, pos, s, 0, pos + 1, s.(sup := |s.toks| - 1, want := AnyValue), rest)
  {
    Advance(js, pos, ":", rest);
  }

  lemma {:induction false} HopOpen(js: Bytes, cap: nat, pos: nat, s: Scan, brace: bool, rest: Bytes)
    requires At(js, pos, Cat(if brace then "{" else "[", rest)) && |js| < UNSET && WellFormed(s) && |s.toks| <= cap
    requires AfterOpen(s.want, brace).Some?
    ensures Hops(js, cap, pos, s, 1, pos + 1, Opened(s, pos, brace), rest)
  {
    Advance(js, pos, if brace then "{" else "[", rest);
  }

  /** The closing bracket of the innermost open container. */
  lemma {:induction false} HopClose(js: Bytes, cap: nat, pos: nat, s: Scan, a: nat, brace: bool, rest: Bytes)
    requires At(js, pos, Cat(if brace then "}" else "]", rest)) && |js| < UNSET && WellFormed(s) && |s.toks| <= cap
    requires a == LastOpen(s.toks) && s.toks[a].kind == (if brace then Object else Array) && MayClose(s.want, brace)
    ensures Hops(js, cap, pos, s, 0, pos + 1, AfterClose(s, [], a, pos + 1), rest)
  {
    hide Run;
    Advance(js, pos, if brace then "}" else "]", rest);
    assert s.toks + [] == s.toks;
    RunStep(js, cap, pos, s, pos + 1, AfterClose(s, [], a, pos + 1));
  }

  /** A comma after a value. */
  lemma {:induction false} HopComma(js: Bytes, cap: nat, pos: nat, s: Scan, a: nat, k: Kind, rest: Bytes)
    requires At(js, pos, Cat(",", rest)) && AfterItem(s, a, k) && |s.toks| <= cap
    ensures var s1 := Scan(s.toks, a, if k == Object then Key else AnyValue);
            Hops(js, cap, pos, s, 0, pos + 1, s1, rest) && Inside(s1, a, k)
  {
    Advance(js, pos, ",", rest);
    assert LastOpenContainer(s.toks) == a;
  }

  /** A key and its colon. */
  lemma {:induction false} HopKey(js: Bytes, cap: nat, pos: nat, s: Scan, m: Member, rest: Bytes)
    requires At(js, pos, PrintKey(m, rest)) && |js| < UNSET && WellFormed(s) && |s.toks| <= cap
    requires Blank(m.lead) && ValidBody(m.key) && Blank(m.afterKey) && Blank(m.beforeValue)
    requires (s.want == Key || s.want == KeyOrClose) && pos + LenToValue(m) < UNSET
    ensures Hops(js, cap, pos, s, 1, pos + LenToValue(m), AfterKey(s, m, pos), rest)
  {
    hide Run, Step, Hops, Blank, ValidBody, At, Cat, Quoted;
    var value := Cat(m.beforeValue, rest);
    var tail := Cat(m.afterKey, Cat(":", value));
    var q := pos + |m.lead|;
    var e := q + |m.key| + 2;
    var c := e + |m.afterKey|;
    var s1 := s.(toks := s.toks + [KeyToken(m, pos)], want := Colon);
    var s2 := AfterKey(s, m, pos);
    AtInRange(js, pos, PrintKey(m, rest));
    HopBlank(js, cap, pos, s, m.lead, Quoted(m.key, tail));
    Landed(js, cap, pos, s, 0, q, s, Quoted(m.key, tail));
    HopString(js, cap, q, s, m.key, tail);
    Chain(js, cap, pos, s, 0, q, s, Quoted(m.key, tail), 1, e, s1, tail);
    if |s.toks| < cap {
      Landed(js, cap, pos, s, 1, e, s1, tail);
      HopBlank(js, cap, e, s1, m.afterKey, Cat(":", value));
      Landed(js, cap, e, s1, 0, c, s1, Cat(":", value));
      HopColon(js, cap, c, s1, value);
      Landed(js, cap, c, s1, 0, c + 1, s2, value);
      HopBlank(js, cap, c + 1, s2, m.beforeValue, rest);
      Chain(js, cap, c, s1, 0, c + 1, s2, value, 0, pos + LenToValue(m), s2, rest);
      Chain(js, cap, e, s1, 0, c, s1, Cat(":", value), 0, pos + LenToValue(m), s2, rest);
    }
    Chain(js, cap, pos, s, 1, e, s1, tail, 0, pos + LenToValue(m), s2, rest);
  }

  lemma {:induction false} AtInRange(js: Bytes, pos: nat, text: Bytes)
    requires At(js, pos, text)
    ensures pos <= |js| && |text| == |js| - pos
  {
  }

  // ---- How the states fit together -------------------------------------------------------------

  lemma {:induction false} AtValueWellFormed(s: Scan, v: Value)
    requires AtValue(s, v)
    ensures WellFormed(s)
    ensures v.Arr? || v.Obj? ==> AfterOpen(s.want, v.Obj?).Some?
  {
  }

  lemma {:induction false} InsideAllowsValue(s: Scan, a: nat, k: Kind, v: Value)
    requires Inside(s, a, k)
    ensures WellFormed(s) && a < |s.toks|
    ensures s.want == AnyValue || s.want == ValueOrClose ==> AtValue(s, v)
  {
  }

  /** A value inside container `a` leaves `a` innermost. */
  lemma {:induction false} ValueInside(s: Scan, v: Value, pos: nat, a: nat, k: Kind)
    requires pos + Len(v) < UNSET && WellFormed(s) && a == LastOpen(s.toks) && s.toks[a].kind == k && IsContainer(k)
    requires s.sup == a || (s.sup >= 0 && s.toks[s.sup].kind == String)
    ensures AfterItem(AfterValue(s, v, pos), a, k)
  {
    PreorderShape(v, pos);
    LastOpenAppend(s.toks, Preorder(v, pos));
  }

  lemma {:induction false} ElemInside(s: Scan, v: Value, pos: nat, a: nat)
    requires pos + Len(v) < UNSET && Inside(s, a, Array)
    ensures AfterItem(AfterValue(s, v, pos), a, Array)
  {
    ValueInside(s, v, pos, a, Array);
  }

  lemma {:induction false} MemberInside(s: Scan, m: Member, pos: nat, a: nat)
    requires pos + LenToValue(m) + Len(m.value) < UNSET && Inside(s, a, Object)
    ensures AtValue(AfterKey(s, m, pos), m.value) && |AfterKey(s, m, pos).toks| == |s.toks| + 1
    ensures AfterItem(AfterValue(AfterKey(s, m, pos), m.value, pos + LenToValue(m)), a, Object)
  {
    LastOpenAppend(s.toks, [KeyToken(m, pos)]);
    ValueInside(AfterKey(s, m, pos), m.value, pos + LenToValue(m), a, Object);
  }

  lemma {:induction false} OpenedInside(s: Scan, pos: nat, brace: bool)
    requires pos < UNSET
    ensures var s1 := Opened(s, pos, brace);
            && Inside(s1, |s.toks|, if brace then Object else Array) && WellFormed(s1)
            && s1.want == (if brace then KeyOrClose else ValueOrClose) && MayClose(s1.want, brace)
            && LastOpen(s1.toks) == |s.toks| && |s1.toks| == |s.toks| + 1
            && s1.toks[|s.toks|].kind == if brace then Object else Array
  {
  }

  /** Closing a container puts its own token before its contents. */
  lemma {:induction false} CloseOpened(s: Scan, v: Value, pos: nat, inner: seq<Token>)
    requires pos + Len(v) < UNSET && (v.Arr? || v.Obj?)
    requires Preorder(v, pos) == [Token(if v.Obj? then Object else Array, pos, pos + Len(v))] + inner
    ensures AfterClose(Opened(s, pos, v.Obj?), inner, |s.toks|, pos + Len(v)) == AfterValue(s, v, pos)
  {
    var open := Opened(s, pos, v.Obj?).toks;
    assert (open + inner)[|s.toks| := Token(if v.Obj? then Object else Array, pos, pos + Len(v))] ==
           s.toks + Preorder(v, pos);
  }

  lemma {:induction false} CloseAfterElem(s: Scan, es: seq<Elem>, pos: nat, a: nat, end: nat)
    requires es != [] && pos + LenElems(es) < UNSET && a < |s.toks|
    ensures AfterClose(AfterValue(s, es[0].value, pos + |es[0].lead|),
                       MoreElemTokens(es, pos + |es[0].lead| + Len(es[0].value) + |es[0].trail| + 1), a, end) ==
            AfterClose(s, ElemTokens(es, pos), a, end)
  {
    var at := pos + |es[0].lead|;
    var more := MoreElemTokens(es, at + Len(es[0].value) + |es[0].trail| + 1);
    assert (s.toks + Preorder(es[0].value, at)) + more == s.toks + ElemTokens(es, pos);
  }

  lemma {:induction false} CloseAfterMember(s: Scan, ms: seq<Member>, pos: nat, a: nat, end: nat)
    requires ms != [] && pos + LenMembers(ms) < UNSET && a < |s.toks|
    ensures var at := pos + LenToValue(ms[0]);
            AfterClose(AfterValue(AfterKey(s, ms[0], pos), ms[0].value, at),
                       MoreMemberTokens(ms, at + Len(ms[0].value) + |ms[0].trail| + 1), a, end) ==
            AfterClose(s, MemberTokens(ms, pos), a, end)
  {
    var at := pos + LenToValue(ms[0]);
    var more := MoreMemberTokens(ms, at + Len(ms[0].value) + |ms[0].trail| + 1);
    assert ((s.toks + [KeyToken(ms[0], pos)]) + Preorder(ms[0].value, at)) + more == s.toks + MemberTokens(ms, pos);
  }

  lemma {:induction false} FollowedBySeparator(trail: Bytes, next: Bytes)
    requires Blank(trail) && FollowsPrim(next)
    ensures FollowsPrim(Cat(trail, next))
  {
  }

  // ---- Unfolding one element or member ---------------------------------------------------------

  lemma {:induction false} UnfoldElems(es: seq<Elem>, rest: Bytes)
    requires es != [] && ValidElems(es)
    ensures Blank(es[0].lead) && Blank(es[0].trail) && Valid(es[0].value) && ValidElems(es[1..])
    ensures PrintElems(es, rest) == Cat(es[0].lead, Print(es[0].value, Cat(es[0].trail, PrintMoreElems(es, rest))))
    ensures FollowsPrim(PrintMoreElems(es, rest))
    ensures LenElems(es) == |es[0].lead| + Len(es[0].value) + |es[0].trail| + 1 + LenMoreElems(es)
    ensures ElemsSize(es) == Size(es[0].value) + ElemsSize(es[1..])
  {
  }

  lemma {:induction false} UnfoldMembers(ms: seq<Member>, rest: Bytes)
    requires ms != [] && ValidMembers(ms)
    ensures var m := ms[0];
            Blank(m.lead) && ValidBody(m.key) && Blank(m.afterKey) && Blank(m.beforeValue) && Blank(m.trail) &&
            Valid(m.value) && ValidMembers(ms[1..])
    ensures PrintMembers(ms, rest) == PrintKey(ms[0], Print(ms[0].value, Cat(ms[0].trail, PrintMoreMembers(ms, rest))))
    ensures FollowsPrim(PrintMoreMembers(ms, rest))
    ensures LenMembers(ms) == LenToValue(ms[0]) + Len(ms[0].value) + |ms[0].trail| + 1 + LenMoreMembers(ms)
    ensures MembersSize(ms) == 1 + Size(ms[0].value) + MembersSize(ms[1..])
  {
  }

  // ---- Hopping over values ---------------------------------------------------------------------

  lemma {:induction false} HopValue(js: Bytes, cap: nat, pos: nat, s: Scan, v: Value, rest: Bytes)
    requires At(js, pos, Print(v, rest)) && |js| < UNSET && Valid(v) && AtValue(s, v) && |s.toks| <= cap
    requires v.Prim? ==> FollowsPrim(rest)
    ensures pos + Len(v) < UNSET
    ensures Hops(js, cap, pos, s, Size(v), pos + Len(v), AfterValue(s, v, pos), rest)
    decreases v, 2
  {
    hide Run, Step, At, LastOpen, Cat, Quoted, ValidBody, Preorder, Size, Blank;
    PrintLength(v, rest);
    AtInRange(js, pos, Print(v, rest));
    match v
    case Str(body) => HopStringValue(js, cap, pos, s, body, rest);
    case Prim(text) => HopPrimValue(js, cap, pos, s, text, rest);
    case Arr(_, _) => HopArray(js, cap, pos, s, v, rest);
    case Obj(_, _) => HopObject(js, cap, pos, s, v, rest);
  }

  lemma {:induction false} HopStringValue(js: Bytes, cap: nat, pos: nat, s: Scan, body: Bytes, rest: Bytes)
    requires At(js, pos, Quoted(body, rest)) && |js| < UNSET && WellFormed(s) && |s.toks| <= cap && ValidBody(body)
    requires s.want == AnyValue || s.want == ValueOrClose
    ensures pos + Len(Str(body)) < UNSET
    ensures Hops(js, cap, pos, s, Size(Str(body)), pos + Len(Str(body)), AfterValue(s, Str(body), pos), rest)
  {
    hide Run, Step, At, LastOpen, ValidBody;
    AtInRange(js, pos, Quoted(body, rest));
    HopString(js, cap, pos, s, body, rest);
  }

  lemma {:induction false} HopPrimValue(js: Bytes, cap: nat, pos: nat, s: Scan, text: Bytes, rest: Bytes)
    requires At(js, pos, Cat(text, rest)) && |js| < UNSET && WellFormed(s) && |s.toks| <= cap
    requires ValidPrim(text) && FollowsPrim(rest) && (s.want == AnyValue || s.want == ValueOrClose)
    ensures pos + Len(Prim(text)) < UNSET
    ensures Hops(js, cap, pos, s, Size(Prim(text)), pos + Len(Prim(text)), AfterValue(s, Prim(text), pos), rest)
  {
    hide Run, Step, At, LastOpen;
    AtInRange(js, pos, Cat(text, rest));
    HopPrim(js, cap, pos, s, text, rest);
  }

  lemma {:induction false} HopArray(js: Bytes, cap: nat, pos: nat, s: Scan, v: Value, rest: Bytes)
    requires v.Arr?
    requires At(js, pos, Print(v, rest)) && |js| < UNSET && Valid(v) && AtValue(s, v) && |s.toks| <= cap
    ensures pos + Len(v) < UNSET
    ensures Hops(js, cap, pos, s, Size(v), pos + Len(v), AfterValue(s, v, pos), rest)
    decreases v, 1
  {
    hide Run, Step, Hops, At, Cat, Print, Len, Size, Valid, Blank, Preorder, LastOpen, AfterValue, AfterClose;
    PrintLength(v, rest);
    AtInRange(js, pos, Print(v, rest));
    UnfoldArray(v, pos, rest);
    AtValueWellFormed(s, v);
    OpenedInside(s, pos, false);
    var a := |s.toks|;
    var s1 := Opened(s, pos, false);
    var inner := if v.elems == [] then Cat(v.pad, Cat("]", rest)) else PrintElems(v.elems, rest);
    HopOpen(js, cap, pos, s, false, inner);
    if a < cap {
      Landed(js, cap, pos, s, 1, pos + 1, s1, inner);
      if v.elems == [] {
        HopEmpty(js, cap, pos + 1, s1, v.pad, a, false, rest);
        CloseOpened(s, v, pos, []);
      } else {
        HopElems(js, cap, pos + 1, s1, v.elems, a, rest);
        CloseOpened(s, v, pos, ElemTokens(v.elems, pos + 1));
      }
    }
    Chain(js, cap, pos, s, 1, pos + 1, s1, inner, Size(v) - 1, pos + Len(v), AfterValue(s, v, pos), rest);
  }

  lemma {:induction false} UnfoldArray(v: Value, pos: nat, rest: Bytes)
    requires v.Arr? && Valid(v) && pos + Len(v) < UNSET
    ensures Print(v, rest) == Cat("[", if v.elems == [] then Cat(v.pad, Cat("]", rest)) else PrintElems(v.elems, rest))
    ensures if v.elems == []
            then Blank(v.pad) && Len(v) == 2 + |v.pad| && Size(v) == 1 &&
              Preorder(v, pos) == [Token(Array, pos, pos + Len(v))] + []
            else ValidElems(v.elems) && Len(v) == 1 + LenElems(v.elems) && Size(v) == 1 + ElemsSize(v.elems) &&
                 Preorder(v, pos) == [Token(Array, pos, pos + Len(v))] + ElemTokens(v.elems, pos + 1)
  {
  }

  lemma {:induction false} HopObject(js: Bytes, cap: nat, pos: nat, s: Scan, v: Value, rest: Bytes)
    requires v.Obj?
    requires At(js, pos, Print(v, rest)) && |js| < UNSET && Valid(v) && AtValue(s, v) && |s.toks| <= cap
    ensures pos + Len(v) < UNSET
    ensures Hops(js, cap, pos, s, Size(v), pos + Len(v), AfterValue(s, v, pos), rest)
    decreases v, 1
  {
    hide Run, Step, Hops, At, Cat, Print, Len, Size, Valid, Blank, Preorder, LastOpen, AfterValue, AfterClose;
    PrintLength(v, rest);
    AtInRange(js, pos, Print(v, rest));
    UnfoldObject(v, pos, rest);
    AtValueWellFormed(s, v);
    OpenedInside(s, pos, true);
    var a := |s.toks|;
    var s1 := Opened(s, pos, true);
    var inner := if v.members == [] then Cat(v.pad, Cat("}", rest)) else PrintMembers(v.members, rest);
    HopOpen(js, cap, pos, s, true, inner);
    if a < cap {
      Landed(js, cap, pos, s, 1, pos + 1, s1, inner);
      if v.members == [] {
        HopEmpty(js, cap, pos + 1, s1, v.pad, a, true, rest);
        CloseOpened(s, v, pos, []);
      } else {
        HopMembers(js, cap, pos + 1, s1, v.members, a, rest);
        CloseOpened(s, v, pos, MemberTokens(v.members, pos + 1));
      }
    }
    Chain(js, cap, pos, s, 1, pos + 1, s1, inner, Size(v) - 1, pos + Len(v), AfterValue(s, v, pos), rest);
  }

  lemma {:induction false} UnfoldObject(v: Value, pos: nat, rest: Bytes)
    requires v.Obj? && Valid(v) && pos + Len(v) < UNSET
    ensures Print(v, rest) ==
            Cat("{", if v.members == [] then Cat(v.pad, Cat("}", rest)) else PrintMembers(v.members, rest))
    ensures if v.members == []
            then Blank(v.pad) && Len(v) == 2 + |v.pad| && Size(v) == 1 &&
                 Preorder(v, pos) == [Token(Object, pos, pos + Len(v))] + []
            else ValidMembers(v.members) && Len(v) == 1 + LenMembers(v.members) &&
                 Size(v) == 1 + MembersSize(v.members) &&
                 Preorder(v, pos) == [Token(Object, pos, pos + Len(v))] + MemberTokens(v.members, pos + 1)
  {
  }

  /** The blanks of an empty container and its closing bracket. */
  lemma {:induction false} HopEmpty(js: Bytes, cap: nat, pos: nat, s: Scan, pad: Bytes, a: nat, brace: bool,
      rest: Bytes)
    requires At(js, pos, Cat(pad, Cat(if brace then "}" else "]", rest))) && |js| < UNSET && Blank(pad)
    requires WellFormed(s) && |s.toks| <= cap
    requires a == LastOpen(s.toks) && s.toks[a].kind == (if brace then Object else Array) && MayClose(s.want, brace)
    ensures Hops(js, cap, pos, s, 0, pos + |pad| + 1, AfterClose(s, [], a, pos + |pad| + 1), rest)
  {
    hide Run, Step, Hops, At, Cat, Print, Len, Size, Valid, Blank, Preorder, LastOpen, AfterValue, AfterClose;
    var close := Cat(if brace then "}" else "]", rest);
    var p := pos + |pad|;
    AtInRange(js, pos, Cat(pad, close));
    HopBlank(js, cap, pos, s, pad, close);
    Landed(js, cap, pos, s, 0, p, s, close);
    HopClose(js, cap, p, s, a, brace, rest);
    Chain(js, cap, pos, s, 0, p, s, close, 0, p + 1, AfterClose(s, [], a, p + 1), rest);
  }

  /** A value, and the blanks before the separator `next`. */
  lemma {:induction false} HopItem(js: Bytes, cap: nat, pos: nat, s: Scan, v: Value, trail: Bytes, next: Bytes)
    requires At(js, pos, Print(v, Cat(trail, next))) && |js| < UNSET && Valid(v) && AtValue(s, v) && |s.toks| <= cap
    requires Blank(trail) && FollowsPrim(next)
    ensures pos + Len(v) < UNSET
    ensures Hops(js, cap, pos, s, Size(v), pos + Len(v) + |trail|, AfterValue(s, v, pos), next)
    decreases v, 3
  {
    hide Run, Step, Hops, At, Cat, Print, Len, Size, Valid, Blank, Preorder, LastOpen, AfterValue, AfterClose;
    hide FollowsPrim;
    PrintLength(v, Cat(trail, next));
    AtInRange(js, pos, Print(v, Cat(trail, next)));
    var p := pos + Len(v);
    var s1 := AfterValue(s, v, pos);
    FollowedBySeparator(trail, next);
    AtValueWellFormed(s, v);
    HopValue(js, cap, pos, s, v, Cat(trail, next));
    if |s.toks| + Size(v) <= cap {
      Landed(js, cap, pos, s, Size(v), p, s1, Cat(trail, next));
      HopBlank(js, cap, p, s1, trail, next);
    }
    Chain(js, cap, pos, s, Size(v), p, s1, Cat(trail, next), 0, p + |trail|, s1, next);
  }

  /** The first element, up to the separator after it. */
  lemma {:induction false} HopElem(js: Bytes, cap: nat, pos: nat, s: Scan, e: Elem, a: nat, next: Bytes)
    requires At(js, pos, Cat(e.lead, Print(e.value, Cat(e.trail, next)))) && |js| < UNSET && |s.toks| <= cap
    requires Blank(e.lead) && Blank(e.trail) && Valid(e.value) && FollowsPrim(next)
    requires Inside(s, a, Array) && (s.want == AnyValue || s.want == ValueOrClose)
    ensures pos + |e.lead| + Len(e.value) < UNSET
    ensures Hops(js, cap, pos, s, Size(e.value), pos + |e.lead| + Len(e.value) + |e.trail|,
                 AfterValue(s, e.value, pos + |e.lead|), next)
    decreases e, 4
  {
    hide Run, Step, Hops, At, Cat, Print, Len, Size, Valid, Blank, Preorder, LastOpen, AfterValue, AfterClose;
    hide FollowsPrim;
    var item := Print(e.value, Cat(e.trail, next));
    var at := pos + |e.lead|;
    InsideAllowsValue(s, a, Array, e.value);
    AtInRange(js, pos, Cat(e.lead, item));
    HopBlank(js, cap, pos, s, e.lead, item);
    Landed(js, cap, pos, s, 0, at, s, item);
    HopItem(js, cap, at, s, e.value, e.trail, next);
    Chain(js, cap, pos, s, 0, at, s, item, Size(e.value), at + Len(e.value) + |e.trail|, AfterValue(s, e.value, at),
      next);
  }

  lemma {:induction false} HopElems(js: Bytes, cap: nat, pos: nat, s: Scan, es: seq<Elem>, a: nat, rest: Bytes)
    requires es != [] && At(js, pos, PrintElems(es, rest)) && |js| < UNSET && ValidElems(es)
    requires Inside(s, a, Array) && (s.want == AnyValue || s.want == ValueOrClose) && |s.toks| <= cap
    ensures pos + LenElems(es) < UNSET
    ensures Hops(js, cap, pos, s, ElemsSize(es), pos + LenElems(es),
                 AfterClose(s, ElemTokens(es, pos), a, pos + LenElems(es)), rest)
    decreases es, 1
  {
    hide Run, Step, Hops, At, Cat, Print, Len, Size, Valid, Blank, Preorder, LastOpen, AfterValue, AfterClose;
    hide ElemTokens, PrintMoreElems, LenMoreElems, FollowsPrim, AfterItem;
    PrintElemsLength(es, rest);
    UnfoldElems(es, rest);
    AtInRange(js, pos, PrintElems(es, rest));
    var n := Size(es[0].value);
    var at := pos + |es[0].lead|;
    var end := at + Len(es[0].value) + |es[0].trail|;
    var s1 := AfterValue(s, es[0].value, at);
    HopElem(js, cap, pos, s, es[0], a, PrintMoreElems(es, rest));
    if |s.toks| + n <= cap {
      Landed(js, cap, pos, s, n, end, s1, PrintMoreElems(es, rest));
      ElemInside(s, es[0].value, at, a);
      HopMoreElems(js, cap, end, s1, es, a, rest);
      CloseAfterElem(s, es, pos, a, pos + LenElems(es));
    }
    Chain(js, cap, pos, s, n, end, s1, PrintMoreElems(es, rest), ElemsSize(es[1..]), pos + LenElems(es),
          AfterClose(s, ElemTokens(es, pos), a, pos + LenElems(es)), rest);
  }

  /** From the separator after the first element. */
  lemma {:induction false} HopMoreElems(js: Bytes, cap: nat, pos: nat, s: Scan, es: seq<Elem>, a: nat, rest: Bytes)
    requires es != [] && At(js, pos, PrintMoreElems(es, rest)) && |js| < UNSET && ValidElems(es[1..])
    requires AfterItem(s, a, Array) && |s.toks| <= cap
    ensures pos + 1 + LenMoreElems(es) < UNSET
    ensures Hops(js, cap, pos, s, ElemsSize(es[1..]), pos + 1 + LenMoreElems(es),
                 AfterClose(s, MoreElemTokens(es, pos + 1), a, pos + 1 + LenMoreElems(es)), rest)
    decreases es, 0
  {
    if |es| == 1 {
      HopClose(js, cap, pos, s, a, false, rest);
    } else {
      PrintElemsLength(es[1..], rest);
      assert PrintMoreElems(es, rest) == Cat(",", PrintElems(es[1..], rest));
      assert LenMoreElems(es) == LenElems(es[1..]) && MoreElemTokens(es, pos + 1) == ElemTokens(es[1..], pos + 1);
      HopNextElems(js, cap, pos, s, es[1..], a, rest);
    }
  }

  /** A comma, and at least one more. */
  lemma {:induction false} HopNextElems(js: Bytes, cap: nat, pos: nat, s: Scan, es: seq<Elem>, a: nat, rest: Bytes)
    requires es != [] && At(js, pos, Cat(",", PrintElems(es, rest))) && |js| < UNSET && ValidElems(es)
    requires AfterItem(s, a, Array) && |s.toks| <= cap
    ensures pos + 1 + LenElems(es) < UNSET
    ensures Hops(js, cap, pos, s, ElemsSize(es), pos + 1 + LenElems(es),
                 AfterClose(s, ElemTokens(es, pos + 1), a, pos + 1 + LenElems(es)), rest)
    decreases es, 2
  {
    hide Run, Step, Hops, At, Cat, Print, Len, Size, Valid, Blank, Preorder, LastOpen, AfterValue;
    hide ElemTokens, PrintElems, LenElems;
    var s1 := Scan(s.toks, a, AnyValue);
    AtInRange(js, pos, Cat(",", PrintElems(es, rest)));
    HopComma(js, cap, pos, s, a, Array, PrintElems(es, rest));
    Landed(js, cap, pos, s, 0, pos + 1, s1, PrintElems(es, rest));
    HopElems(js, cap, pos + 1, s1, es, a, rest);
    Chain(js, cap, pos, s, 0, pos + 1, s1, PrintElems(es, rest), ElemsSize(es), pos + 1 + LenElems(es),
          AfterClose(s, ElemTokens(es, pos + 1), a, pos + 1 + LenElems(es)), rest);
  }

  /** The first member, up to the separator after it. */
  lemma {:induction false} HopMember(js: Bytes, cap: nat, pos: nat, s: Scan, m: Member, a: nat, next: Bytes)
    requires At(js, pos, PrintKey(m, Print(m.value, Cat(m.trail, next)))) && |js| < UNSET && |s.toks| <= cap
    requires Blank(m.lead) && ValidBody(m.key) && Blank(m.afterKey) && Blank(m.beforeValue) && Blank(m.trail)
    requires Valid(m.value) && FollowsPrim(next) && pos + LenToValue(m) + Len(m.value) < UNSET
    requires Inside(s, a, Object) && (s.want == Key || s.want == KeyOrClose)
    ensures Hops(js, cap, pos, s, 1 + Size(m.value), pos + LenToValue(m) + Len(m.value) + |m.trail|,
                 AfterValue(AfterKey(s, m, pos), m.value, pos + LenToValue(m)), next)
    decreases m, 4
  {
    hide Run, Step, Hops, At, Cat, Print, Len, Size, Valid, Blank, Preorder, LastOpen, AfterValue, AfterClose;
    hide FollowsPrim, PrintKey, ValidBody;
    var item := Print(m.value, Cat(m.trail, next));
    var at := pos + LenToValue(m);
    var s1 := AfterKey(s, m, pos);
    MemberInside(s, m, pos, a);
    AtInRange(js, pos, PrintKey(m, item));
    HopKey(js, cap, pos, s, m, item);
    if |s.toks| < cap {
      Landed(js, cap, pos, s, 1, at, s1, item);
      HopItem(js, cap, at, s1, m.value, m.trail, next);
    }
    Chain(js, cap, pos, s, 1, at, s1, item, Size(m.value), at + Len(m.value) + |m.trail|, AfterValue(s1, m.value, at),
      next);
  }

  lemma {:induction false} HopMembers(js: Bytes, cap: nat, pos: nat, s: Scan, ms: seq<Member>, a: nat, rest: Bytes)
    requires ms != [] && At(js, pos, PrintMembers(ms, rest)) && |js| < UNSET && ValidMembers(ms)
    requires Inside(s, a, Object) && (s.want == Key || s.want == KeyOrClose) && |s.toks| <= cap
    ensures pos + LenMembers(ms) < UNSET
    ensures Hops(js, cap, pos, s, MembersSize(ms), pos + LenMembers(ms),
                 AfterClose(s, MemberTokens(ms, pos), a, pos + LenMembers(ms)), rest)
    decreases ms, 1
  {
    hide Run, Step, Hops, At, Cat, Print, Len, Size, Valid, Blank, Preorder, LastOpen, AfterValue, AfterClose;
    hide MemberTokens, PrintMoreMembers, LenMoreMembers, FollowsPrim, AfterItem, PrintKey, ValidBody, AfterKey;
    PrintMembersLength(ms, rest);
    UnfoldMembers(ms, rest);
    AtInRange(js, pos, PrintMembers(ms, rest));
    var n := 1 + Size(ms[0].value);
    var at := pos + LenToValue(ms[0]);
    var end := at + Len(ms[0].value) + |ms[0].trail|;
    var s2 := AfterValue(AfterKey(s, ms[0], pos), ms[0].value, at);
    HopMember(js, cap, pos, s, ms[0], a, PrintMoreMembers(ms, rest));
    if |s.toks| + n <= cap {
      Landed(js, cap, pos, s, n, end, s2, PrintMoreMembers(ms, rest));
      MemberInside(s, ms[0], pos, a);
      HopMoreMembers(js, cap, end, s2, ms, a, rest);
      CloseAfterMember(s, ms, pos, a, pos + LenMembers(ms));
    }
    Chain(js, cap, pos, s, n, end, s2, PrintMoreMembers(ms, rest), MembersSize(ms[1..]), pos + LenMembers(ms),
          AfterClose(s, MemberTokens(ms, pos), a, pos + LenMembers(ms)), rest);
  }

  /** From the separator after the first member. */
  lemma {:induction false} HopMoreMembers(js: Bytes, cap: nat, pos: nat, s: Scan, ms: seq<Member>, a: nat, rest: Bytes)
    requires ms != [] && At(js, pos, PrintMoreMembers(ms, rest)) && |js| < UNSET && ValidMembers(ms[1..])
    requires AfterItem(s, a, Object) && |s.toks| <= cap
    ensures pos + 1 + LenMoreMembers(ms) < UNSET
    ensures Hops(js, cap, pos, s, MembersSize(ms[1..]), pos + 1 + LenMoreMembers(ms),
                 AfterClose(s, MoreMemberTokens(ms, pos + 1), a, pos + 1 + LenMoreMembers(ms)), rest)
    decreases ms, 0
  {
    hide Run, Step, Hops, At, Print, Len, Size, Valid, Preorder, LastOpen;
    AtInRange(js, pos, PrintMoreMembers(ms, rest));
    if |ms| == 1 {
      HopClose(js, cap, pos, s, a, true, rest);
    } else {
      PrintMembersLength(ms[1..], rest);
      assert PrintMoreMembers(ms, rest) == Cat(",", PrintMembers(ms[1..], rest));
      assert LenMoreMembers(ms) == LenMembers(ms[1..]) &&
             MoreMemberTokens(ms, pos + 1) == MemberTokens(ms[1..], pos + 1);
      HopNextMembers(js, cap, pos, s, ms[1..], a, rest);
    }
  }

  /** A comma, and at least one more. */
  lemma {:induction false} HopNextMembers(js: Bytes, cap: nat, pos: nat, s: Scan, ms: seq<Member>, a: nat, rest: Bytes)
    requires ms != [] && At(js, pos, Cat(",", PrintMembers(ms, rest))) && |js| < UNSET && ValidMembers(ms)
    requires AfterItem(s, a, Object) && |s.toks| <= cap
    ensures pos + 1 + LenMembers(ms) < UNSET
    ensures Hops(js, cap, pos, s, MembersSize(ms), pos + 1 + LenMembers(ms),
                 AfterClose(s, MemberTokens(ms, pos + 1), a, pos + 1 + LenMembers(ms)), rest)
    decreases ms, 2
  {
    hide Run, Step, Hops, At, Cat, Print, Len, Size, Valid, Blank, Preorder, LastOpen, AfterValue;
    hide MemberTokens, PrintMembers, LenMembers;
    var s1 := Scan(s.toks, a, Key);
    AtInRange(js, pos, Cat(",", PrintMembers(ms, rest)));
    HopComma(js, cap, pos, s, a, Object, PrintMembers(ms, rest));
    Landed(js, cap, pos, s, 0, pos + 1, s1, PrintMembers(ms, rest));
    HopMembers(js, cap, pos + 1, s1, ms, a, rest);
    Chain(js, cap, pos, s, 0, pos + 1, s1, PrintMembers(ms, rest), MembersSize(ms), pos + 1 + LenMembers(ms),
          AfterClose(s, MemberTokens(ms, pos + 1), a, pos + 1 + LenMembers(ms)), rest);
  }

  // ---- Soundness: what an accepting run reads is a printed value -------------------------------

  predicate NulFree(js: Bytes) { forall i | 0 <= i < |js| :: js[i] != '\0' }

  /** An accepting run of the strict tokenizer goes through state `s` at `pos`. */
  predicate Accepting(js: Bytes, cap: nat, pos: nat, s: Scan) {
    pos <= |js| < UNSET && NulFree(js) && WellFormed(s) && |s.toks| <= cap && Run(js, pos, s, cap, true).Ok?
  }

  lemma {:induction false} AcceptHop(js: Bytes, cap: nat, pos: nat, s: Scan, n: nat, p: nat, next: Scan, rest: Bytes)
    requires Accepting(js, cap, pos, s) && Hops(js, cap, pos, s, n, p, next, rest)
    ensures Accepting(js, cap, p, next) && At(js, p, rest) && |s.toks| + n <= cap
    ensures Run(js, pos, s, cap, true) == Run(js, p, next, cap, true)
  {
  }

  /** The bytes from `pos` to `mid`, then what follows them. */
  lemma {:induction false} Glue(js: Bytes, pos: nat, mid: nat, rest: Bytes)
    requires pos <= mid && At(js, mid, rest)
    ensures At(js, pos, Cat(js[pos..mid], rest))
  {
    assert js[pos..] == js[pos..mid] + js[mid..];
  }

  lemma {:induction false} GlueByte(js: Bytes, pos: nat, b: Bytes, rest: Bytes)
    requires pos < |js| && |b| == 1 && js[pos] == b[0] && At(js, pos + 1, rest)
    ensures At(js, pos, Cat(b, rest))
  {
    assert js[pos..pos + 1] == b;
    Glue(js, pos, pos + 1, rest);
  }

  lemma {:induction false} BlankStep(js: Bytes, cap: nat, pos: nat, s: Scan)
    requires pos < |js| && WellFormed(s) && IsBlank(js[pos])
    ensures Run(js, pos, s, cap, true) == Run(js, pos + 1, s, cap, true)
  {
  }

  lemma {:induction false} RunEnds(js: Bytes, cap: nat, pos: nat, s: Scan)
    requires pos == |js| && WellFormed(s)
    ensures Run(js, pos, s, cap, true) == if LastOpen(s.toks) >= 0 then Err(Part) else Ok(s.toks)
  {
  }

  /** A run inside a container goes on to a byte that is not blank. */
  lemma {:induction false} SkipBlank(js: Bytes, cap: nat, pos: nat, s: Scan) returns (p: nat)
    requires Accepting(js, cap, pos, s) && LastOpen(s.toks) >= 0
    ensures pos <= p < |js| && Blank(js[pos..p]) && !IsBlank(js[p])
    ensures Accepting(js, cap, p, s) && Run(js, pos, s, cap, true) == Run(js, p, s, cap, true)
    decreases |js| - pos
  {
    hide Run, Step;
    if pos == |js| { RunEnds(js, cap, pos, s); }
    if IsBlank(js[pos]) {
      BlankStep(js, cap, pos, s);
      p := SkipBlank(js, cap, pos + 1, s);
      assert js[pos..p] == [js[pos]] + js[pos + 1..p];
    } else {
      p := pos;
    }
  }

  lemma {:induction false} HexSound(js: Bytes, i: nat, n: nat)
    requires i <= |js| && NulFree(js) && HexEnd(js, i, n).Some?
    ensures var h := HexEnd(js, i, n).value;
            h <= i + n && (h == i + n || h == |js|) && forall k | i <= k < h :: IsHex(js[k])
    decreases n
  {
    if n > 0 && i < |js| { HexSound(js, i + 1, n - 1); }
  }

  /** The bytes up to the closing quote are a string body. */
  lemma {:induction false} BodySound(js: Bytes, i: nat, end: nat)
    requires i <= |js| && NulFree(js) && StringEnd(js, i, true) == Ok(end)
    ensures ValidBody(js[i..end]) && js[end] == '"'
    decreases |js| - i
  {
    var body := js[i..end];
    if js[i] == '"' {
      assert body == [];
    } else {
      var n := 1;
      if js[i] == '\\' && i + 1 < |js| {
        if IsSimpleEscape(js[i + 1]) {
          n := 2;
        } else {
          HexSound(js, i + 2, 4);
          n := 6;
          assert HexEnd(js, i + 2, 4).value == i + 6;
        }
      }
      BodySound(js, i + n, end);
      assert UnitLen(body) == n && body[n..] == js[i + n..end];
    }
  }

  lemma {:induction false} PrimSound(js: Bytes, i: nat, end: nat)
    requires i <= |js| && NulFree(js) && PrimEnd(js, i) == Ok(end)
    ensures forall k | i <= k < end :: IsPrimByte(js[k])
    ensures end < |js| ==> IsDelimiter(js[end])
    decreases |js| - i
  {
    if i < |js| && !IsDelimiter(js[i]) { PrimSound(js, i + 1, end); }
  }

  // The bytes an accepting run allows in each state.

  lemma {:induction false} MustKey(js: Bytes, cap: nat, pos: nat, s: Scan)
    requires Accepting(js, cap, pos, s) && pos < |js| && !IsBlank(js[pos])
    requires s.want == Key || (s.want == KeyOrClose && js[pos] != '}')
    ensures js[pos] == '"' && StringEnd(js, pos + 1, true).Ok?
  {
  }

  lemma {:induction false} MustColon(js: Bytes, cap: nat, pos: nat, s: Scan)
    requires Accepting(js, cap, pos, s) && pos < |js| && !IsBlank(js[pos]) && s.want == Colon
    ensures js[pos] == ':'
  {
  }

  lemma {:induction false} MustSeparator(js: Bytes, cap: nat, pos: nat, s: Scan, a: nat, k: Kind)
    requires Accepting(js, cap, pos, s) && pos < |js| && !IsBlank(js[pos]) && AfterItem(s, a, k)
    ensures js[pos] == ',' || js[pos] == if k == Object then '}' else ']'
  {
  }

  lemma {:induction false} MustValue(js: Bytes, cap: nat, pos: nat, s: Scan)
    requires Accepting(js, cap, pos, s) && pos < |js| && !IsBlank(js[pos])
    requires s.want == AnyValue || (s.want == ValueOrClose && js[pos] != ']')
    ensures js[pos] !in {'}', ']', ':', ','}
    ensures js[pos] == '"' ==> StringEnd(js, pos + 1, true).Ok?
    ensures js[pos] !in {'{', '[', '"'} ==> PrimEnd(js, pos).Ok? && PrimEnd(js, pos).value > pos
  {
  }

  /** A string is followed by an accepting run. */
  lemma {:induction false} SoundString(js: Bytes, cap: nat, pos: nat, s: Scan) returns (body: Bytes, next: nat)
    requires Accepting(js, cap, pos, s) && pos < |js| && js[pos] == '"' && StringEnd(js, pos + 1, true).Ok?
    requires AfterString(s.want).Some?
    ensures next == pos + |body| + 2 <= |js| && ValidBody(body) && At(js, pos, Quoted(body, js[next..]))
    ensures Accepting(js, cap, next,
                      Scan(s.toks + [Token(String, pos + 1, pos + 1 + |body|)], s.sup, AfterString(s.want).value))
  {
    hide Run, Step;
    var end := StringEnd(js, pos + 1, true).value;
    BodySound(js, pos + 1, end);
    body, next := js[pos + 1..end], end + 1;
    GlueByte(js, end, "\"", js[next..]);
    Glue(js, pos + 1, end, Cat("\"", js[next..]));
    GlueByte(js, pos, "\"", Cat(body, Cat("\"", js[next..])));
    HopString(js, cap, pos, s, body, js[next..]);
    AcceptHop(js, cap, pos, s, 1, next,
              Scan(s.toks + [Token(String, pos + 1, pos + 1 + |body|)], s.sup, AfterString(s.want).value), js[next..]);
  }

  /** A key and its colon, as a member whose value is still to be read. */
  lemma {:induction false} SoundKey(js: Bytes, cap: nat, pos: nat, s: Scan, a: nat) returns (m: Member, next: nat)
    requires Accepting(js, cap, pos, s) && pos < |js| && !IsBlank(js[pos]) && Inside(s, a, Object)
    requires s.want == Key || (s.want == KeyOrClose && js[pos] != '}')
    ensures next == pos + LenToValue(m) < |js| && !IsBlank(js[next]) && At(js, pos, PrintKey(m, js[next..]))
    ensures m.lead == [] && ValidBody(m.key) && Blank(m.afterKey) && Blank(m.beforeValue)
    ensures Accepting(js, cap, next, AfterKey(s, m, pos))
  {
    hide Run, Step, StringEnd, Hops, At, Cat, Quoted, PrintKey, Blank, ValidBody, NulFree, IsBlank;
    MustKey(js, cap, pos, s);
    var key, e := SoundString(js, cap, pos, s);
    var s1 := Scan(s.toks + [Token(String, pos + 1, pos + 1 + |key|)], s.sup, Colon);
    LastOpenAppend(s.toks, [Token(String, pos + 1, pos + 1 + |key|)]);
    var c := SkipBlank(js, cap, e, s1);
    MustColon(js, cap, c, s1);
    var s2 := s1.(sup := |s.toks|, want := AnyValue);
    SoundColon(js, cap, c, s1);
    next := SkipBlank(js, cap, c + 1, s2);
    m := Member([], key, js[e..c], js[c + 1..next], Str([]), []);
    GlueKey(js, pos, m, e, c, next);
  }

  lemma {:induction false} SoundColon(js: Bytes, cap: nat, pos: nat, s: Scan)
    requires Accepting(js, cap, pos, s) && pos < |js| && js[pos] == ':' && s.want == Colon
    ensures Accepting(js, cap, pos + 1, s.(sup := |s.toks| - 1, want := AnyValue))
  {
  }

  lemma {:induction false} GlueKey(js: Bytes, pos: nat, m: Member, e: nat, c: nat, next: nat)
    requires pos <= e <= c < next <= |js| && js[c] == ':' && At(js, pos, Quoted(m.key, js[e..]))
    requires m.lead == [] && m.afterKey == js[e..c] && m.beforeValue == js[c + 1..next]
    ensures At(js, pos, PrintKey(m, js[next..]))
  {
    Glue(js, c + 1, next, js[next..]);
    GlueByte(js, c, ":", Cat(m.beforeValue, js[next..]));
    Glue(js, e, c, js[c..]);
    assert Cat([], Quoted(m.key, js[e..])) == Quoted(m.key, js[e..]);
  }

  /** The value that an accepting run reads next. */
  lemma {:induction false} SoundValue(js: Bytes, cap: nat, pos: nat, s: Scan) returns (v: Value, next: nat)
    requires Accepting(js, cap, pos, s) && pos < |js| && !IsBlank(js[pos]) && LastOpen(s.toks) >= 0
    requires s.want == AnyValue || (s.want == ValueOrClose && js[pos] != ']')
    ensures Valid(v) && pos < next == pos + Len(v) <= |js| && At(js, pos, Print(v, js[next..]))
    ensures AtValue(s, v) && Accepting(js, cap, next, AfterValue(s, v, pos))
    decreases |js| - pos, 2
  {
    hide Run, Step, StringEnd, PrimEnd;
    MustValue(js, cap, pos, s);
    if js[pos] == '{' {
      v, next := SoundObject(js, cap, pos, s);
    } else if js[pos] == '[' {
      v, next := SoundArray(js, cap, pos, s);
    } else if js[pos] == '"' {
      var body;
      body, next := SoundString(js, cap, pos, s);
      v := Str(body);
    } else {
      v, next := SoundPrim(js, cap, pos, s);
    }
  }

  lemma {:induction false} SoundPrimEnd(js: Bytes, cap: nat, pos: nat, s: Scan) returns (end: nat)
    requires Accepting(js, cap, pos, s) && pos < |js| && !IsBlank(js[pos])
    requires js[pos] !in {'{', '[', '"', '}', ']', ':', ','}
    ensures PrimEnd(js, pos) == Ok(end) && pos < end <= |js| && IsPrimByte(js[pos])
  {
    end := PrimEnd(js, pos).value;
  }

  lemma {:induction false} SoundPrim(js: Bytes, cap: nat, pos: nat, s: Scan) returns (v: Value, next: nat)
    requires Accepting(js, cap, pos, s) && pos < |js| && !IsBlank(js[pos]) && LastOpen(s.toks) >= 0
    requires AfterPrimitive(s.want).Some? && js[pos] !in {'{', '[', '"', '}', ']', ':', ','}
    ensures v.Prim? && Valid(v) && pos < next == pos + Len(v) <= |js| && At(js, pos, Print(v, js[next..]))
    ensures Accepting(js, cap, next, AfterValue(s, v, pos))
  {
    hide Run, Step;
    next := SoundPrimEnd(js, cap, pos, s);
    PrimSound(js, pos, next);
    v := Prim(js[pos..next]);
    var s1 := AfterValue(s, v, pos);
    StepPrim(js, cap, pos, s, next);
    if |s.toks| < cap && next == |js| {
      LastOpenAppend(s.toks, Preorder(v, pos));
      RunEnds(js, cap, next, s1);
    }
    Glue(js, pos, next, js[next..]);
  }

  /** The whole value read, the run goes on after it. */
  lemma {:induction false} SoundHop(js: Bytes, cap: nat, pos: nat, s: Scan, v: Value, next: nat)
    requires Accepting(js, cap, pos, s) && Valid(v) && AtValue(s, v) && !v.Prim?
    requires next == pos + Len(v) <= |js| && At(js, pos, Print(v, js[next..]))
    ensures Accepting(js, cap, next, AfterValue(s, v, pos))
  {
    hide Run, Step;
    HopValue(js, cap, pos, s, v, js[next..]);
    AcceptHop(js, cap, pos, s, Size(v), next, AfterValue(s, v, pos), js[next..]);
  }

  lemma {:induction false} SoundOpen(js: Bytes, cap: nat, pos: nat, s: Scan, brace: bool)
    requires Accepting(js, cap, pos, s) && pos < |js| && js[pos] == (if brace then '{' else '[')
    requires AfterOpen(s.want, brace).Some?
    ensures Accepting(js, cap, pos + 1, Opened(s, pos, brace))
  {
  }

  lemma {:induction false} SoundComma(js: Bytes, cap: nat, pos: nat, s: Scan, a: nat, k: Kind)
    requires Accepting(js, cap, pos, s) && pos < |js| && js[pos] == ',' && AfterItem(s, a, k)
    ensures var s1 := Scan(s.toks, a, if k == Object then Key else AnyValue);
            Accepting(js, cap, pos + 1, s1) && Inside(s1, a, k)
  {
    assert LastOpenContainer(s.toks) == a;
  }

  lemma {:induction false} SoundArray(js: Bytes, cap: nat, pos: nat, s: Scan) returns (v: Value, next: nat)
    requires Accepting(js, cap, pos, s) && pos < |js| && js[pos] == '[' && AfterOpen(s.want, false).Some?
    requires s.want == Root || LastOpen(s.toks) >= 0
    ensures v.Arr? && Valid(v) && pos < next == pos + Len(v) <= |js| && At(js, pos, Print(v, js[next..]))
    ensures AtValue(s, v) && Accepting(js, cap, next, AfterValue(s, v, pos))
    decreases |js| - pos, 1
  {
    hide Run, Step, Hops, Preorder, AfterValue;
    var a := |s.toks|;
    var s1 := Opened(s, pos, false);
    SoundOpen(js, cap, pos, s, false);
    OpenedInside(s, pos, false);
    var p := SkipBlank(js, cap, pos + 1, s1);
    if js[p] == ']' {
      v, next := Arr(js[pos + 1..p], []), p + 1;
      GlueByte(js, p, "]", js[next..]);
      Glue(js, pos + 1, p, Cat("]", js[next..]));
    } else {
      var es;
      es, next := SoundElems(js, cap, pos + 1, p, s1, a);
      v := Arr([], es);
    }
    GlueByte(js, pos, "[", Print(v, js[next..])[1..]);
    assert Print(v, js[next..]) == Cat("[", Print(v, js[next..])[1..]);
    SoundHop(js, cap, pos, s, v, next);
  }

  lemma {:induction false} SoundObject(js: Bytes, cap: nat, pos: nat, s: Scan) returns (v: Value, next: nat)
    requires Accepting(js, cap, pos, s) && pos < |js| && js[pos] == '{' && AfterOpen(s.want, true).Some?
    requires s.want == Root || LastOpen(s.toks) >= 0
    ensures v.Obj? && Valid(v) && pos < next == pos + Len(v) <= |js| && At(js, pos, Print(v, js[next..]))
    ensures AtValue(s, v) && Accepting(js, cap, next, AfterValue(s, v, pos))
    decreases |js| - pos, 1
  {
    hide Run, Step, Hops, Preorder, AfterValue;
    var a := |s.toks|;
    var s1 := Opened(s, pos, true);
    SoundOpen(js, cap, pos, s, true);
    OpenedInside(s, pos, true);
    var p := SkipBlank(js, cap, pos + 1, s1);
    if js[p] == '}' {
      v, next := Obj(js[pos + 1..p], []), p + 1;
      GlueByte(js, p, "}", js[next..]);
      Glue(js, pos + 1, p, Cat("}", js[next..]));
    } else {
      var ms;
      ms, next := SoundMembers(js, cap, pos + 1, p, s1, a);
      v := Obj([], ms);
    }
    GlueByte(js, pos, "{", Print(v, js[next..])[1..]);
    assert Print(v, js[next..]) == Cat("{", Print(v, js[next..])[1..]);
    SoundHop(js, cap, pos, s, v, next);
  }

  /** The elements from `pos` on, the first of which starts at `p`. */
  lemma {:induction false} SoundElems(js: Bytes, cap: nat, pos: nat, p: nat, s: Scan, a: nat)
      returns (es: seq<Elem>, next: nat)
    requires pos <= p < |js| && Blank(js[pos..p]) && !IsBlank(js[p]) && Accepting(js, cap, p, s) && Inside(s, a, Array)
    requires s.want == AnyValue || (s.want == ValueOrClose && js[p] != ']')
    ensures es != [] && ValidElems(es) && next == pos + LenElems(es) <= |js| && At(js, pos, PrintElems(es, js[next..]))
    decreases |js| - p, 3
  {
    hide Run, Step, Hops, At, Cat, Print, Len, Size, Valid, Blank, Preorder, AfterValue, AfterKey, StringEnd, NulFree,
      IsBlank;
    var v, e := SoundValue(js, cap, p, s);
    var s1 := AfterValue(s, v, p);
    ElemInside(s, v, p, a);
    var c := SkipBlank(js, cap, e, s1);
    MustSeparator(js, cap, c, s1, a, Array);
    var first := Elem(js[pos..p], v, js[e..c]);
    if js[c] == ']' {
      es, next := [first], c + 1;
    } else {
      SoundComma(js, cap, c, s1, a, Array);
      var s2 := Scan(s1.toks, a, AnyValue);
      var q := SkipBlank(js, cap, c + 1, s2);
      var rest;
      rest, next := SoundElems(js, cap, c + 1, q, s2, a);
      es := [first] + rest;
    }
    GlueElems(js, pos, p, e, c, es, next);
  }

  lemma {:induction false} GlueElems(js: Bytes, pos: nat, p: nat, e: nat, c: nat, es: seq<Elem>, next: nat)
    requires pos <= p <= e <= c < next <= |js| && es != []
    requires es[0].lead == js[pos..p] && Blank(js[pos..p]) && es[0].trail == js[e..c] && Blank(js[e..c])
    requires Valid(es[0].value) && e == p + Len(es[0].value) && At(js, p, Print(es[0].value, js[e..]))
    requires if |es| == 1 then js[c] == ']' && next == c + 1
             else js[c] == ',' && next == c + 1 + LenElems(es[1..]) && ValidElems(es[1..]) &&
                  At(js, c + 1, PrintElems(es[1..], js[next..]))
    ensures ValidElems(es) && next == pos + LenElems(es) && At(js, pos, PrintElems(es, js[next..]))
  {
    hide Print, Valid, Len;
    GlueByte(js, c, if |es| == 1 then "]" else ",", if |es| == 1 then js[next..] else PrintElems(es[1..], js[next..]));
    Glue(js, e, c, PrintMoreElems(es, js[next..]));
    Glue(js, pos, p, js[p..]);
  }

  lemma {:induction false} SoundMembers(js: Bytes, cap: nat, pos: nat, p: nat, s: Scan, a: nat)
      returns (ms: seq<Member>, next: nat)
    requires pos <= p < |js| && Blank(js[pos..p]) && !IsBlank(js[p]) && Accepting(js, cap, p, s) && Inside(s, a, Object)
    requires s.want == Key || (s.want == KeyOrClose && js[p] != '}')
    ensures ms != [] && ValidMembers(ms) && next == pos + LenMembers(ms) <= |js| &&
            At(js, pos, PrintMembers(ms, js[next..]))
    decreases |js| - p, 3
  {
    hide Run, Step, Hops, At, Cat, Print, Len, Size, Valid, Blank, Preorder, AfterValue, AfterKey, StringEnd, NulFree,
      IsBlank;
    hide LenToValue, PrintKey, KeyToken, ValidBody;
    var m, q := SoundKey(js, cap, p, s, a);
    var s1 := AfterKey(s, m, p);
    KeyInside(s, m, p, a);
    var v, e := SoundValue(js, cap, q, s1);
    var s2 := AfterValue(s1, v, q);
    ValueInside(s1, v, q, a, Object);
    var c := SkipBlank(js, cap, e, s2);
    MustSeparator(js, cap, c, s2, a, Object);
    var first := m.(lead := js[pos..p], value := v, trail := js[e..c]);
    if js[c] == '}' {
      ms, next := [first], c + 1;
    } else {
      SoundComma(js, cap, c, s2, a, Object);
      var s3 := Scan(s2.toks, a, Key);
      var r := SkipBlank(js, cap, c + 1, s3);
      var rest;
      rest, next := SoundMembers(js, cap, c + 1, r, s3, a);
      ms := [first] + rest;
    }
    GlueMembers(js, pos, p, m, q, e, c, ms, next);
  }

  lemma {:induction false} KeyInside(s: Scan, m: Member, pos: nat, a: nat)
    requires pos + LenToValue(m) < UNSET && Inside(s, a, Object)
    ensures var s1 := AfterKey(s, m, pos);
            WellFormed(s1) && LastOpen(s1.toks) == a >= 0 && s1.want == AnyValue &&
            s1.toks[a].kind == Object && s1.sup >= 0 && s1.toks[s1.sup].kind == String
  {
    LastOpenAppend(s.toks, [KeyToken(m, pos)]);
  }

  lemma {:induction false} GlueMembers(js: Bytes, pos: nat, p: nat, m: Member, q: nat, e: nat, c: nat,
      ms: seq<Member>, next: nat)
    requires pos <= p <= q <= e <= c < next <= |js| && ms != []
    requires m.lead == [] && ValidBody(m.key) && Blank(m.afterKey) && Blank(m.beforeValue)
    requires q == p + LenToValue(m) && At(js, p, PrintKey(m, js[q..]))
    requires ms[0] == m.(lead := js[pos..p], value := ms[0].value, trail := js[e..c]) && Blank(js[pos..p]) &&
             Blank(js[e..c])
    requires Valid(ms[0].value) && e == q + Len(ms[0].value) && At(js, q, Print(ms[0].value, js[e..]))
    requires if |ms| == 1 then js[c] == '}' && next == c + 1
             else js[c] == ',' && next == c + 1 + LenMembers(ms[1..]) && ValidMembers(ms[1..]) &&
                  At(js, c + 1, PrintMembers(ms[1..], js[next..]))
    ensures ValidMembers(ms) && next == pos + LenMembers(ms) && At(js, pos, PrintMembers(ms, js[next..]))
  {
    hide Print, Valid, Len, ValidBody;
    GlueByte(js, c, if |ms| == 1 then "}" else ",",
             if |ms| == 1 then js[next..] else PrintMembers(ms[1..], js[next..]));
    Glue(js, e, c, PrintMoreMembers(ms, js[next..]));
    Glue(js, pos, p, js[p..]);
    assert Cat([], Quoted(m.key, Cat(m.afterKey, Cat(":", Cat(m.beforeValue, js[q..]))))) ==
           Quoted(m.key, Cat(m.afterKey, Cat(":", Cat(m.beforeValue, js[q..]))));
  }
}
