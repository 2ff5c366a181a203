/**
 The walks over the token array of an accepted document are lookups in its
 syntax tree.
 */
module Lookups {
  import opened Base
  import opened Syntax
  import opened JsmnSpec
  import opened Recognition
  import opened Documents
  import opened Json
  import Errors

  /** A node of the tree: the value, its first token and its first byte. */
  datatype Ref = Ref(v: Value, at: nat, pos: nat)

  /** A member of an object: its key, the token of the key, its value. */
  datatype Field = Field(key: Bytes, keyAt: nat, value: Ref)

  function ElemRefs(es: seq<Elem>, at: nat, pos: nat): seq<Ref> {
    if es == [] then []
    else
      var p := pos + |es[0].lead|;
      [Ref(es[0].value, at, p)] +
      ElemRefs(es[1..], at + Size(es[0].value), p + Len(es[0].value) + |es[0].trail| + 1)
  }

  function Fields(ms: seq<Member>, at: nat, pos: nat): seq<Field> {
    if ms == [] then []
    else
      var p := pos + LenToValue(ms[0]);
      [Field(ms[0].key, at, Ref(ms[0].value, at + 1, p))] +
      Fields(ms[1..], at + 1 + Size(ms[0].value), p + Len(ms[0].value) + |ms[0].trail| + 1)
  }

  /** The elements of an array node. */
  function ElemsOf(r: Ref): seq<Ref> {
    if r.v.Arr? then ElemRefs(r.v.elems, r.at + 1, r.pos + 1) else []
  }

  /** The members of an object node. */
  function FieldsOf(r: Ref): seq<Field> {
    if r.v.Obj? then Fields(r.v.members, r.at + 1, r.pos + 1) else []
  }

  /** The value of the first member named `key`. */
  function FieldNamed(fs: seq<Field>, key: Bytes): Option<Ref> {
    if fs == [] then None
    else if fs[0].key == key then Some(fs[0].value)
    else FieldNamed(fs[1..], key)
  }

  function Member(r: Ref, key: Bytes): Option<Ref> { FieldNamed(FieldsOf(r), key) }

  /** The first token indices of nodes. */
  function Ats(rs: seq<Ref>): (ats: seq<nat>)
    ensures |ats| == |rs| && forall i | 0 <= i < |rs| :: ats[i] == rs[i].at
  {
    seq(|rs|, i requires 0 <= i < |rs| => rs[i].at)
  }

  function KeyAts(fs: seq<Field>): (ats: seq<nat>)
    ensures |ats| == |fs| && forall i | 0 <= i < |fs| :: ats[i] == fs[i].keyAt
  {
    seq(|fs|, i requires 0 <= i < |fs| => fs[i].keyAt)
  }

  // ---- Where a node lies in a document ---------------------------------------------------------

  /** Tokens `[at, at + n)` of `j` are `toks`, and the next one starts after byte `end`. */
  ghost predicate Window(j: Json, at: nat, toks: seq<Token>, end: nat) {
    at + |toks| <= |j.tokens| && j.tokens[at..at + |toks|] == toks &&
    (at + |toks| < |j.tokens| ==> j.tokens[at + |toks|].start > end)
  }

  /** The node `r` is where its token index and its position say. */
  ghost predicate Located(j: Json, r: Ref) {
    |j.buf| < UNSET && Valid(r.v) && r.pos + Len(r.v) <= |j.buf| &&
    Window(j, r.at, Preorder(r.v, r.pos), r.pos + Len(r.v)) &&
    At(j.buf, r.pos, Print(r.v, j.buf[r.pos + Len(r.v)..])) &&
    (r.v.Prim? ==> FollowsPrim(j.buf[r.pos + Len(r.v)..]))
  }

  ghost predicate ElemsLocated(j: Json, es: seq<Elem>, at: nat, pos: nat) {
    es != [] && |j.buf| < UNSET && ValidElems(es) && pos + LenElems(es) <= |j.buf| &&
    Window(j, at, ElemTokens(es, pos), pos + LenElems(es)) &&
    At(j.buf, pos, PrintElems(es, j.buf[pos + LenElems(es)..]))
  }

  ghost predicate MembersLocated(j: Json, ms: seq<Member>, at: nat, pos: nat) {
    ms != [] && |j.buf| < UNSET && ValidMembers(ms) && pos + LenMembers(ms) <= |j.buf| &&
    Window(j, at, MemberTokens(ms, pos), pos + LenMembers(ms)) &&
    At(j.buf, pos, PrintMembers(ms, j.buf[pos + LenMembers(ms)..]))
  }

  /** The text after a value. */
  lemma {:induction false} RestAfter(js: Bytes, pos: nat, v: Value, rest: Bytes)
    requires At(js, pos, Print(v, rest)) && |js| < UNSET && Valid(v) && (v.Prim? ==> FollowsPrim(rest))
    ensures At(js, pos + Len(v), rest)
  {
    hide Run, Step, Print, Preorder, Valid, Len, Hops;
    var s := Scan([Token(Array, 0, UNSET)], 0, AnyValue);
    HopValue(js, 1 + Size(v), pos, s, v, rest);
    Landed(js, 1 + Size(v), pos, s, Size(v), pos + Len(v), AfterValue(s, v, pos), rest);
  }

  /** Every token of a value starts inside it, and its first token reaches past them all. */
  lemma {:induction false} PreorderBounds(v: Value, pos: nat)
    requires pos + Len(v) < UNSET
    ensures |Preorder(v, pos)| == Size(v) && pos <= Preorder(v, pos)[0].start <= Preorder(v, pos)[0].end <= pos + Len(v)
    ensures forall i | 0 <= i < Size(v) ::
              pos <= Preorder(v, pos)[i].start <= Preorder(v, pos)[0].end && Preorder(v, pos)[i].start <= pos + Len(v)
    decreases v, 1
  {
    PreorderShape(v, pos);
    match v
    case Str(_) =>
    case Prim(_) =>
    case Arr(_, elems) => if elems != [] { ElemBounds(elems, pos + 1); }
    case Obj(_, members) => if members != [] { MemberBounds(members, pos + 1); }
  }

  lemma {:induction false} ElemBounds(es: seq<Elem>, pos: nat)
    requires es != [] && pos + LenElems(es) < UNSET
    ensures |ElemTokens(es, pos)| == ElemsSize(es) >= 1
    ensures forall t | t in ElemTokens(es, pos) :: pos <= t.start <= pos + LenElems(es)
    decreases es, 0
  {
    hide Preorder, Len, Size;
    ElemTokensShape(es, pos);
    PreorderBounds(es[0].value, pos + |es[0].lead|);
    if |es| > 1 { ElemBounds(es[1..], pos + |es[0].lead| + Len(es[0].value) + |es[0].trail| + 1); }
  }

  lemma {:induction false} MemberBounds(ms: seq<Member>, pos: nat)
    requires ms != [] && pos + LenMembers(ms) < UNSET
    ensures |MemberTokens(ms, pos)| == MembersSize(ms) >= 2
    ensures forall t | t in MemberTokens(ms, pos) :: pos < t.start <= pos + LenMembers(ms)
    decreases ms, 0
  {
    hide Preorder, Len, Size;
    MemberTokensShape(ms, pos);
    PreorderBounds(ms[0].value, pos + LenToValue(ms[0]));
    if |ms| > 1 { MemberBounds(ms[1..], pos + LenToValue(ms[0]) + Len(ms[0].value) + |ms[0].trail| + 1); }
  }

  // ---- A node's children lie where the tree says -----------------------------------------------

  lemma {:induction false} WindowSplit(j: Json, at: nat, a: seq<Token>, b: seq<Token>, end: nat, mid: nat)
    requires Window(j, at, a + b, end)
    requires if b == [] then mid <= end else b[0].start > mid
    ensures Window(j, at, a, mid)
    ensures b != [] ==> Window(j, at + |a|, b, end)
  {
    var w := j.tokens[at..at + |a + b|];
    assert w == a + b;
    assert j.tokens[at..at + |a|] == w[..|a|] == a;
    assert j.tokens[at + |a|..at + |a| + |b|] == w[|a|..] == b;
    if b != [] { assert j.tokens[at + |a|] == w[|a|] == b[0]; }
  }

  lemma {:induction false} MakeLocated(j: Json, v: Value, at: nat, pos: nat, rest: Bytes)
    requires |j.buf| < UNSET && Valid(v) && At(j.buf, pos, Print(v, rest)) && (v.Prim? ==> FollowsPrim(rest))
    requires pos + Len(v) < UNSET && Window(j, at, Preorder(v, pos), pos + Len(v))
    ensures Located(j, Ref(v, at, pos)) && At(j.buf, pos + Len(v), rest)
  {
    hide Print, Preorder, Valid, Len, Run, Step;
    RestAfter(j.buf, pos, v, rest);
  }

  lemma {:induction false} MakeElemsLocated(j: Json, es: seq<Elem>, at: nat, pos: nat, end: nat)
    requires es != [] && |j.buf| < UNSET && ValidElems(es) && end == pos + LenElems(es) <= |j.buf|
    requires Window(j, at, ElemTokens(es, pos), end) && At(j.buf, pos, PrintElems(es, j.buf[end..]))
    ensures ElemsLocated(j, es, at, pos)
  {
  }

  lemma {:induction false} MakeMembersLocated(j: Json, ms: seq<Member>, at: nat, pos: nat, end: nat)
    requires ms != [] && |j.buf| < UNSET && ValidMembers(ms) && end == pos + LenMembers(ms) <= |j.buf|
    requires Window(j, at, MemberTokens(ms, pos), end) && At(j.buf, pos, PrintMembers(ms, j.buf[end..]))
    ensures MembersLocated(j, ms, at, pos)
  {
  }

  lemma {:induction false} FirstElem(j: Json, es: seq<Elem>, at: nat, pos: nat)
    requires ElemsLocated(j, es, at, pos)
    ensures var p := pos + |es[0].lead|;
            && Located(j, Ref(es[0].value, at, p))
            && (|es| > 1 ==> ElemsLocated(j, es[1..], at + Size(es[0].value), p + Len(es[0].value) + |es[0].trail| + 1))
  {
    hide Print, Preorder, Valid, Len, Size, ElemTokens, Run, Step, Window, At, Cat, Blank, IsDelimiter, FollowsPrim,
      Located;
    var v, p := es[0].value, pos + |es[0].lead|;
    var e := p + Len(v);
    var q := e + |es[0].trail| + 1;
    var end := pos + LenElems(es);
    var more := PrintMoreElems(es, j.buf[end..]);
    FirstElemTokens(j, es, at, pos);
    UnfoldElems(es, j.buf[end..]);
    Advance(j.buf, pos, es[0].lead, Print(v, Cat(es[0].trail, more)));
    FollowedBySeparator(es[0].trail, more);
    MakeLocated(j, v, at, p, Cat(es[0].trail, more));
    if |es| > 1 {
      Advance(j.buf, e, es[0].trail, more);
      Advance(j.buf, q - 1, ",", PrintElems(es[1..], j.buf[end..]));
      MakeElemsLocated(j, es[1..], at + Size(v), q, end);
    }
  }

  lemma {:induction false} UnfoldElemTokens(es: seq<Elem>, pos: nat)
    requires es != [] && pos + LenElems(es) < UNSET
    ensures var p := pos + |es[0].lead|;
            var q := p + Len(es[0].value) + |es[0].trail| + 1;
            var more := MoreElemTokens(es, q);
            && q <= pos + LenElems(es) && |Preorder(es[0].value, p)| == Size(es[0].value)
            && ElemTokens(es, pos) == Preorder(es[0].value, p) + more
            && (if |es| == 1 then more == []
                else more != [] && more == ElemTokens(es[1..], q) && more[0].start > p + Len(es[0].value))
  {
    hide Preorder, Len, Size;
    var p := pos + |es[0].lead|;
    var q := p + Len(es[0].value) + |es[0].trail| + 1;
    PreorderShape(es[0].value, p);
    if |es| > 1 {
      ElemBounds(es[1..], q);
      assert ElemTokens(es[1..], q)[0] in ElemTokens(es[1..], q);
    }
  }

  lemma {:induction false} FirstElemTokens(j: Json, es: seq<Elem>, at: nat, pos: nat)
    requires es != [] && pos + LenElems(es) < UNSET
    requires Window(j, at, ElemTokens(es, pos), pos + LenElems(es))
    ensures var p := pos + |es[0].lead|;
            && Window(j, at, Preorder(es[0].value, p), p + Len(es[0].value))
            && (|es| > 1 ==> Window(j, at + Size(es[0].value),
                                    ElemTokens(es[1..], p + Len(es[0].value) + |es[0].trail| + 1), pos + LenElems(es)))
  {
    hide Preorder, Len, Size, ElemTokens, MoreElemTokens;
    UnfoldElemTokens(es, pos);
    var p := pos + |es[0].lead|;
    var q := p + Len(es[0].value) + |es[0].trail| + 1;
    WindowSplit(j, at, Preorder(es[0].value, p), MoreElemTokens(es, q), pos + LenElems(es), p + Len(es[0].value));
  }

  lemma {:induction false} FirstMember(j: Json, ms: seq<Member>, at: nat, pos: nat)
    requires MembersLocated(j, ms, at, pos)
    ensures var p := pos + LenToValue(ms[0]);
            && at < |j.tokens| && j.tokens[at] == KeyToken(ms[0], pos) && j.Span(at) == ms[0].key
            && Located(j, Ref(ms[0].value, at + 1, p))
            && (|ms| > 1 ==>
                  MembersLocated(j, ms[1..], at + 1 + Size(ms[0].value), p + Len(ms[0].value) + |ms[0].trail| + 1))
  {
    hide Print, Preorder, Valid, Len, Size, MemberTokens, Run, Step, Window, At, Cat, Blank, IsDelimiter, FollowsPrim,
      Located, ValidBody, PrintKey;
    var m, v, p := ms[0], ms[0].value, pos + LenToValue(ms[0]);
    var e := p + Len(v);
    var q := e + |m.trail| + 1;
    var end := pos + LenMembers(ms);
    var more := PrintMoreMembers(ms, j.buf[end..]);
    FirstMemberTokens(j, ms, at, pos);
    UnfoldMembers(ms, j.buf[end..]);
    KeyText(j.buf, pos, m, Print(v, Cat(m.trail, more)));
    FollowedBySeparator(m.trail, more);
    MakeLocated(j, v, at + 1, p, Cat(m.trail, more));
    if |ms| > 1 {
      Advance(j.buf, e, m.trail, more);
      Advance(j.buf, q - 1, ",", PrintMembers(ms[1..], j.buf[end..]));
      MakeMembersLocated(j, ms[1..], at + 1 + Size(v), q, end);
    }
  }

  /** The bytes of a printed key are the key, and its value follows. */
  lemma {:induction false} KeyText(js: Bytes, pos: nat, m: Member, rest: Bytes)
    requires At(js, pos, PrintKey(m, rest)) && pos + LenToValue(m) < UNSET
    ensures var t := KeyToken(m, pos); t.end <= |js| && js[t.start..t.end] == m.key
    ensures At(js, pos + LenToValue(m), rest)
  {
    hide At, Cat, Quoted;
    var value := Cat(m.beforeValue, rest);
    var tail := Cat(m.afterKey, Cat(":", value));
    var k := pos + |m.lead| + 1;
    Advance(js, pos, m.lead, Quoted(m.key, tail));
    QuotedText(js, k - 1, m.key, tail);
    Advance(js, k + |m.key| + 1, m.afterKey, Cat(":", value));
    Advance(js, k + |m.key| + 1 + |m.afterKey|, ":", value);
    Advance(js, k + |m.key| + 2 + |m.afterKey|, m.beforeValue, rest);
  }

  lemma {:induction false} QuotedText(js: Bytes, pos: nat, body: Bytes, rest: Bytes)
    requires At(js, pos, Quoted(body, rest))
    ensures pos + |body| + 2 <= |js| && js[pos + 1..pos + 1 + |body|] == body && At(js, pos + |body| + 2, rest)
  {
    Advance(js, pos, "\"", Cat(body, Cat("\"", rest)));
    Advance(js, pos + 1, body, Cat("\"", rest));
    assert js[pos + 1..][..|body|] == body;
    Advance(js, pos + 1 + |body|, "\"", rest);
  }

  lemma {:induction false} UnfoldMemberTokens(ms: seq<Member>, pos: nat)
    requires ms != [] && pos + LenMembers(ms) < UNSET
    ensures var p := pos + LenToValue(ms[0]);
            var q := p + Len(ms[0].value) + |ms[0].trail| + 1;
            var more := MoreMemberTokens(ms, q);
            && q <= pos + LenMembers(ms) && |Preorder(ms[0].value, p)| == Size(ms[0].value) >= 1
            && MemberTokens(ms, pos) == [KeyToken(ms[0], pos)] + (Preorder(ms[0].value, p) + more)
            && Preorder(ms[0].value, p)[0].start > pos + |ms[0].lead|
            && (if |ms| == 1 then more == []
                else more != [] && more == MemberTokens(ms[1..], q) && more[0].start > p + Len(ms[0].value))
  {
    hide Preorder, Len, Size;
    var p := pos + LenToValue(ms[0]);
    var q := p + Len(ms[0].value) + |ms[0].trail| + 1;
    PreorderBounds(ms[0].value, p);
    if |ms| > 1 {
      MemberBounds(ms[1..], q);
      assert MemberTokens(ms[1..], q)[0] in MemberTokens(ms[1..], q);
    }
  }

  lemma {:induction false} FirstMemberTokens(j: Json, ms: seq<Member>, at: nat, pos: nat)
    requires ms != [] && pos + LenMembers(ms) < UNSET
    requires Window(j, at, MemberTokens(ms, pos), pos + LenMembers(ms))
    ensures var p := pos + LenToValue(ms[0]);
            && LenMembers(ms) == LenToValue(ms[0]) + Len(ms[0].value) + |ms[0].trail| + 1 + LenMoreMembers(ms)
            && at < |j.tokens| && j.tokens[at] == KeyToken(ms[0], pos)
            && Window(j, at + 1, Preorder(ms[0].value, p), p + Len(ms[0].value))
            && (|ms| > 1 ==>
                  Window(j, at + 1 + Size(ms[0].value),
                         MemberTokens(ms[1..], p + Len(ms[0].value) + |ms[0].trail| + 1), pos + LenMembers(ms)))
  {
    hide Preorder, Len, Size, MemberTokens, MoreMemberTokens, Window, LenToValue, KeyToken;
    UnfoldMemberTokens(ms, pos);
    KeyStart(ms[0], pos);
    var p := pos + LenToValue(ms[0]);
    var q := p + Len(ms[0].value) + |ms[0].trail| + 1;
    var key := [KeyToken(ms[0], pos)];
    var value := Preorder(ms[0].value, p);
    WindowSplit(j, at, key, value + MoreMemberTokens(ms, q), pos + LenMembers(ms), pos + |ms[0].lead|);
    WindowSplit(j, at + 1, value, MoreMemberTokens(ms, q), pos + LenMembers(ms), p + Len(ms[0].value));
    WindowFirst(j, at, key, pos + |ms[0].lead|);
  }

  lemma {:induction false} KeyStart(m: Member, pos: nat)
    requires pos + LenToValue(m) < UNSET
    ensures pos + |m.lead| < KeyToken(m, pos).start && pos + |m.lead| < pos + LenToValue(m)
  {
  }

  lemma {:induction false} WindowFirst(j: Json, at: nat, toks: seq<Token>, end: nat)
    requires Window(j, at, toks, end) && toks != []
    ensures at < |j.tokens| && j.tokens[at] == toks[0]
  {
    assert j.tokens[at..at + |toks|][0] == toks[0];
  }

  /** The contents of an array or object node. */
  lemma {:induction false} Contents(j: Json, r: Ref)
    requires Located(j, r)
    ensures r.v.Arr? && r.v.elems != [] ==> ElemsLocated(j, r.v.elems, r.at + 1, r.pos + 1)
    ensures r.v.Obj? && r.v.members != [] ==> MembersLocated(j, r.v.members, r.at + 1, r.pos + 1)
  {
    hide Run, Step, Print, PrintElems, PrintMembers, ElemTokens, MemberTokens, Preorder, Valid, Len, LenElems,
      LenMembers, Window, At, Cat, ValidElems, ValidMembers;
    if r.v.Arr? && r.v.elems != [] {
      ArrayContents(j, r);
    } else if r.v.Obj? && r.v.members != [] {
      ObjectContents(j, r);
    }
  }

  lemma {:induction false} LocatedParts(j: Json, r: Ref)
    requires Located(j, r)
    ensures |j.buf| < UNSET && Valid(r.v) && r.pos + Len(r.v) <= |j.buf|
    ensures Window(j, r.at, Preorder(r.v, r.pos), r.pos + Len(r.v))
    ensures At(j.buf, r.pos, Print(r.v, j.buf[r.pos + Len(r.v)..]))
  {
    hide Window, At, Valid, Len, Preorder, Print, FollowsPrim;
  }

  lemma {:induction false} ArrayContents(j: Json, r: Ref)
    requires Located(j, r) && r.v.Arr? && r.v.elems != []
    ensures ElemsLocated(j, r.v.elems, r.at + 1, r.pos + 1)
  {
    hide Run, Step, Print, PrintElems, ElemTokens, Preorder, Valid, Len, LenElems, Window, At, Cat, ValidElems,
      ElemsLocated, Size, Located;
    var end := r.pos + Len(r.v);
    LocatedParts(j, r);
    UnfoldArray(r.v, r.pos, j.buf[end..]);
    Advance(j.buf, r.pos, "[", PrintElems(r.v.elems, j.buf[end..]));
    ElemTokensStart(r.v.elems, r.pos + 1);
    WindowSplit(j, r.at, [Token(Array, r.pos, end)], ElemTokens(r.v.elems, r.pos + 1), end, r.pos);
    MakeElemsLocated(j, r.v.elems, r.at + 1, r.pos + 1, end);
  }

  lemma {:induction false} ElemTokensStart(es: seq<Elem>, pos: nat)
    requires es != [] && pos + LenElems(es) < UNSET
    ensures ElemTokens(es, pos) != [] && ElemTokens(es, pos)[0].start >= pos
  {
    hide ElemTokens;
    var toks := ElemTokens(es, pos);
    ElemBounds(es, pos);
    assert toks[0] in toks;
  }

  lemma {:induction false} ObjectContents(j: Json, r: Ref)
    requires Located(j, r) && r.v.Obj? && r.v.members != []
    ensures MembersLocated(j, r.v.members, r.at + 1, r.pos + 1)
  {
    hide Run, Step, Print, PrintMembers, MemberTokens, Preorder, Valid, Len, LenMembers, Window, At, Cat,
      ValidMembers, MembersLocated, Size, Located;
    var end := r.pos + Len(r.v);
    LocatedParts(j, r);
    UnfoldObject(r.v, r.pos, j.buf[end..]);
    Advance(j.buf, r.pos, "{", PrintMembers(r.v.members, j.buf[end..]));
    MemberTokensStart(r.v.members, r.pos + 1);
    WindowSplit(j, r.at, [Token(Object, r.pos, end)], MemberTokens(r.v.members, r.pos + 1), end, r.pos);
    MakeMembersLocated(j, r.v.members, r.at + 1, r.pos + 1, end);
  }

  lemma {:induction false} MemberTokensStart(ms: seq<Member>, pos: nat)
    requires ms != [] && pos + LenMembers(ms) < UNSET
    ensures MemberTokens(ms, pos) != [] && MemberTokens(ms, pos)[0].start >= pos
  {
    hide MemberTokens;
    var toks := MemberTokens(ms, pos);
    MemberBounds(ms, pos);
    assert toks[0] in toks;
  }

  // ---- The walks over a node's children --------------------------------------------------------

  lemma {:induction false} SkipElements(j: Json, end: nat, ti: nat, n: nat, prevEnd: nat)
    requires ti + n <= |j.tokens|
    requires forall k | ti <= k < ti + n :: j.tokens[k].start <= prevEnd && j.tokens[k].start <= end
    ensures j.ElementsFrom(end, ti, prevEnd) == j.ElementsFrom(end, ti + n, prevEnd)
    decreases n
  {
    if n > 0 { SkipElements(j, end, ti + 1, n - 1, prevEnd); }
  }

  lemma {:induction false} SkipKeys(j: Json, end: nat, ti: nat, n: nat, prevEnd: nat)
    requires ti + n <= |j.tokens|
    requires forall k | ti <= k < ti + n :: j.tokens[k].start <= prevEnd && j.tokens[k].start <= end
    ensures j.KeysFrom(end, ti, prevEnd) == j.KeysFrom(end, ti + n, prevEnd)
    decreases n
  {
    if n > 0 { SkipKeys(j, end, ti + 1, n - 1, prevEnd); }
  }

  /** The tokens of a located node: the first, and those inside it. */
  lemma {:induction false} NodeTokens(j: Json, r: Ref)
    requires Located(j, r)
    ensures r.at + Size(r.v) <= |j.tokens| && r.pos + Len(r.v) <= |j.buf| < UNSET
    ensures j.tokens[r.at] == Preorder(r.v, r.pos)[0]
    ensures r.pos <= j.tokens[r.at].start <= j.tokens[r.at].end <= r.pos + Len(r.v)
    ensures forall k | r.at < k < r.at + Size(r.v) :: j.tokens[k].start <= j.tokens[r.at].end
    ensures r.at + Size(r.v) < |j.tokens| ==> j.tokens[r.at + Size(r.v)].start > r.pos + Len(r.v)
  {
    hide Preorder, Print, Valid, Len, Size, At;
    PreorderBounds(r.v, r.pos);
    forall k | r.at <= k < r.at + Size(r.v) ensures j.tokens[k] == Preorder(r.v, r.pos)[k - r.at] {
      assert j.tokens[r.at..r.at + Size(r.v)][k - r.at] == j.tokens[k];
    }
  }

  lemma {:induction false} WalkElems(j: Json, es: seq<Elem>, at: nat, pos: nat, end: nat, prevEnd: nat)
    requires es != [] && ElemsLocated(j, es, at, pos) && end == pos + LenElems(es) && prevEnd < pos
    ensures j.ElementsFrom(end, at, prevEnd) == Ats(ElemRefs(es, at, pos))
    ensures forall e | e in ElemRefs(es, at, pos) :: Located(j, e)
    decreases es
  {
    hide Located, Preorder, Print, Valid, Len, Size, At, Window, ElemTokens, PrintElems, ElemsLocated, Ats;
    var r := Ref(es[0].value, at, pos + |es[0].lead|);
    var next := at + Size(r.v);
    var q := r.pos + Len(r.v) + |es[0].trail| + 1;
    FirstElem(j, es, at, pos);
    hide LenElems, LenMoreElems;
    NodeTokens(j, r);
    SkipElements(j, end, at + 1, Size(r.v) - 1, j.tokens[at].end);
    assert ElemRefs(es, at, pos) == [r] + ElemRefs(es[1..], next, q);
    AtsCons(r, ElemRefs(es[1..], next, q));
    if |es| > 1 {
      WalkElems(j, es[1..], next, q, end, j.tokens[at].end);
    } else {
      LastElem(j, es, at, pos);
      AtsNil();
    }
  }

  lemma {:induction false} AtsCons(r: Ref, rs: seq<Ref>)
    ensures Ats([r] + rs) == [r.at] + Ats(rs)
  {
  }

  lemma {:induction false} AtsNil()
    ensures Ats([]) == []
  {
  }

  lemma {:induction false} KeyAtsCons(f: Field, fs: seq<Field>)
    ensures KeyAts([f] + fs) == [f.keyAt] + KeyAts(fs)
  {
  }

  lemma {:induction false} LastElem(j: Json, es: seq<Elem>, at: nat, pos: nat)
    requires ElemsLocated(j, es, at, pos) && |es| == 1
    ensures var next := at + Size(es[0].value);
            next < |j.tokens| ==> j.tokens[next].start > pos + LenElems(es)
  {
    ElemTokensShape(es, pos);
    assert ElemsSize(es[1..]) == 0;
  }

  lemma {:induction false} LastMember(j: Json, ms: seq<Member>, at: nat, pos: nat)
    requires MembersLocated(j, ms, at, pos) && |ms| == 1
    ensures var next := at + 1 + Size(ms[0].value);
            next < |j.tokens| ==> j.tokens[next].start > pos + LenMembers(ms)
  {
    MemberTokensShape(ms, pos);
    assert MembersSize(ms[1..]) == 0;
  }

  /** A member lies where its field says. */
  ghost predicate FieldLocated(j: Json, f: Field) {
    f.keyAt < |j.tokens| && j.tokens[f.keyAt].kind == String && j.Span(f.keyAt) == f.key &&
    j.tokens[f.keyAt].end - j.tokens[f.keyAt].start == |f.key| && j.tokens[f.keyAt].end <= |j.buf| < UNSET &&
    f.value.at == f.keyAt + 1 && Located(j, f.value)
  }

  lemma {:induction false} FirstField(j: Json, ms: seq<Member>, at: nat, pos: nat)
    requires MembersLocated(j, ms, at, pos)
    ensures FieldLocated(j, Field(ms[0].key, at, Ref(ms[0].value, at + 1, pos + LenToValue(ms[0]))))
  {
    hide Located, MembersLocated;
    FirstMember(j, ms, at, pos);
    SmallDocument(j, ms, at, pos);
  }

  lemma {:induction false} SmallDocument(j: Json, ms: seq<Member>, at: nat, pos: nat)
    requires MembersLocated(j, ms, at, pos)
    ensures |j.buf| < UNSET && pos + LenMembers(ms) <= |j.buf| && KeyToken(ms[0], pos).end <= |j.buf|
  {
    hide Window, At, Valid, Len, MemberTokens, PrintMembers;
  }

  lemma {:induction false} FieldsCons(ms: seq<Member>, at: nat, pos: nat)
    requires ms != []
    ensures var r := Ref(ms[0].value, at + 1, pos + LenToValue(ms[0]));
            var f := Field(ms[0].key, at, r);
            Fields(ms, at, pos) ==
            [f] + Fields(ms[1..], at + 1 + Size(r.v), r.pos + Len(r.v) + |ms[0].trail| + 1) &&
            (|ms| == 1 ==> Fields(ms, at, pos) == [f])
  {
    hide Len, Size, LenToValue;
  }

  lemma {:induction false} WalkKeys(j: Json, ms: seq<Member>, at: nat, pos: nat, end: nat, prevEnd: nat)
    requires ms != [] && MembersLocated(j, ms, at, pos) && end == pos + LenMembers(ms) && prevEnd < pos
    ensures j.KeysFrom(end, at, prevEnd) == KeyAts(Fields(ms, at, pos))
    ensures forall f | f in Fields(ms, at, pos) :: FieldLocated(j, f)
    decreases |ms|
  {
    hide Located, Preorder, Print, Valid, Len, Size, At, Window, MemberTokens, PrintMembers, MembersLocated, KeyAts,
      ValidBody, JsonData.KeysFrom, Fields, FieldLocated;
    var r := Ref(ms[0].value, at + 1, pos + LenToValue(ms[0]));
    var f := Field(ms[0].key, at, r);
    var next := at + 1 + Size(r.v);
    var q := r.pos + Len(r.v) + |ms[0].trail| + 1;
    FirstMember(j, ms, at, pos);
    FirstField(j, ms, at, pos);
    NodeTokens(j, r);
    TakeKey(j, end, at, prevEnd);
    SkipKeys(j, end, at + 1, Size(r.v), j.tokens[at + 1].end);
    FieldsCons(ms, at, pos);
    KeyAtsCons(f, Fields(ms[1..], next, q));
    if |ms| > 1 {
      WalkKeys(j, ms[1..], next, q, end, j.tokens[at + 1].end);
    } else {
      LastMember(j, ms, at, pos);
      NoMoreKeys(j, end, next, j.tokens[at + 1].end);
    }
  }

  lemma {:induction false} TakeKey(j: Json, end: nat, ti: nat, prevEnd: nat)
    requires ti + 1 < |j.tokens| && prevEnd < j.tokens[ti].start <= end
    ensures j.KeysFrom(end, ti, prevEnd) == [ti] + j.KeysFrom(end, ti + 1, j.tokens[ti + 1].end)
  {
  }

  lemma {:induction false} NoMoreKeys(j: Json, end: nat, ti: nat, prevEnd: nat)
    requires ti < |j.tokens| ==> j.tokens[ti].start > end
    ensures j.KeysFrom(end, ti, prevEnd) == []
  {
  }

  // ---- The lookups, by kind of node ------------------------------------------------------------

  /** On an array, the element walks give the elements in order. */
  lemma {:induction false} ArrayWalk(j: Json, r: Ref)
    requires Located(j, r) && r.v.Arr?
    ensures j.Elements(r.at) == Ats(ElemsOf(r))
    ensures forall e | e in ElemsOf(r) :: Located(j, e)
  {
    hide Preorder, Print, Valid, Len, Size, Window, ElemTokens, PrintElems, ElemsLocated, Located, ElemRefs;
    NodeTokens(j, r);
    if r.v.elems == [] {
      EmptyContainer(j, r);
    } else {
      Contents(j, r);
      RootSpan(j, r);
      WalkElems(j, r.v.elems, r.at + 1, r.pos + 1, r.pos + Len(r.v), r.pos);
    }
  }

  /** On an object, the key walks give the members in order. */
  lemma {:induction false} ObjectWalk(j: Json, r: Ref)
    requires Located(j, r) && r.v.Obj?
    ensures j.Keys(r.at) == KeyAts(FieldsOf(r))
    ensures forall f | f in FieldsOf(r) :: FieldLocated(j, f)
  {
    hide Preorder, Print, Valid, Len, Size, Window, MemberTokens, PrintMembers, MembersLocated, Located, Fields;
    NodeTokens(j, r);
    if r.v.members == [] {
      EmptyContainer(j, r);
    } else {
      Contents(j, r);
      RootSpan(j, r);
      WalkKeys(j, r.v.members, r.at + 1, r.pos + 1, r.pos + Len(r.v), r.pos);
    }
  }

  /** The keys and the values of an object, alternating. */
  function KidAts(fs: seq<Field>): seq<nat> {
    if fs == [] then [] else [fs[0].keyAt, fs[0].value.at] + KidAts(fs[1..])
  }

  lemma {:induction false} TakeElement(j: Json, end: nat, ti: nat, prevEnd: nat)
    requires ti < |j.tokens| && prevEnd < j.tokens[ti].start <= end
    ensures j.ElementsFrom(end, ti, prevEnd) == [ti] + j.ElementsFrom(end, ti + 1, j.tokens[ti].end)
  {
  }

  /** A member's key and then its value are taken. */
  lemma {:induction false} TakeMember(j: Json, ms: seq<Member>, at: nat, pos: nat, end: nat, prevEnd: nat)
    requires ms != [] && MembersLocated(j, ms, at, pos) && end == pos + LenMembers(ms) && prevEnd < pos
    ensures at + 1 + Size(ms[0].value) <= |j.tokens| &&
            j.tokens[at + 1].end <= pos + LenToValue(ms[0]) + Len(ms[0].value)
    ensures j.ElementsFrom(end, at, prevEnd) ==
            [at, at + 1] + j.ElementsFrom(end, at + 1 + Size(ms[0].value), j.tokens[at + 1].end)
  {
    hide Located, Preorder, Print, Valid, Len, Size, At, Window, MemberTokens, PrintMembers, MembersLocated,
      ValidBody, JsonData.ElementsFrom;
    var r := Ref(ms[0].value, at + 1, pos + LenToValue(ms[0]));
    FirstMember(j, ms, at, pos);
    NodeTokens(j, r);
    SkipElements(j, end, at + 2, Size(r.v) - 1, j.tokens[at + 1].end);
    TakeElement(j, end, at, prevEnd);
    TakeElement(j, end, at + 1, j.tokens[at].end);
  }

  lemma {:induction false} WalkMixed(j: Json, ms: seq<Member>, at: nat, pos: nat, end: nat, prevEnd: nat)
    requires ms != [] && MembersLocated(j, ms, at, pos) && end == pos + LenMembers(ms) && prevEnd < pos
    ensures j.ElementsFrom(end, at, prevEnd) == KidAts(Fields(ms, at, pos))
    decreases ms
  {
    hide Located, Preorder, Print, Valid, Len, Size, At, Window, MemberTokens, PrintMembers, MembersLocated,
      ValidBody;
    var r := Ref(ms[0].value, at + 1, pos + LenToValue(ms[0]));
    var f := Field(ms[0].key, at, r);
    var next := at + 1 + Size(r.v);
    var q := r.pos + Len(r.v) + |ms[0].trail| + 1;
    TakeMember(j, ms, at, pos, end, prevEnd);
    assert Fields(ms, at, pos) == [f] + Fields(ms[1..], next, q);
    assert KidAts(Fields(ms, at, pos)) == [at, at + 1] + KidAts(Fields(ms[1..], next, q));
    if |ms| > 1 {
      FirstMember(j, ms, at, pos);
      WalkMixed(j, ms[1..], next, q, end, j.tokens[at + 1].end);
    } else {
      LastMember(j, ms, at, pos);
    }
  }

  /** On an object, the element walks give its keys and values, alternating. */
  lemma {:induction false} MixedWalk(j: Json, r: Ref)
    requires Located(j, r) && r.v.Obj?
    ensures j.Elements(r.at) == KidAts(FieldsOf(r))
  {
    hide Preorder, Print, Valid, Len, Size, Window, MemberTokens, PrintMembers, MembersLocated, Located, Fields;
    NodeTokens(j, r);
    if r.v.members == [] {
      EmptyContainer(j, r);
    } else {
      Contents(j, r);
      RootSpan(j, r);
      WalkMixed(j, r.v.members, r.at + 1, r.pos + 1, r.pos + Len(r.v), r.pos);
    }
  }

  /** A string or a primitive has no elements and no members. */
  lemma {:induction false} LeafWalk(j: Json, r: Ref)
    requires Located(j, r) && (r.v.Str? || r.v.Prim?)
    ensures j.Elements(r.at) == [] && j.Keys(r.at) == []
  {
    hide Print, At;
    NodeTokens(j, r);
  }

  lemma {:induction false} RootSpan(j: Json, r: Ref)
    requires Located(j, r) && (r.v.Arr? || r.v.Obj?)
    ensures r.at < |j.tokens| && j.tokens[r.at] == Token(if r.v.Arr? then Array else Object, r.pos, r.pos + Len(r.v))
    ensures r.v.Arr? && r.v.elems != [] ==> r.pos + Len(r.v) == r.pos + 1 + LenElems(r.v.elems)
    ensures r.v.Obj? && r.v.members != [] ==> r.pos + Len(r.v) == r.pos + 1 + LenMembers(r.v.members)
  {
    hide Print, At, Window, Located;
    NodeTokens(j, r);
  }

  lemma {:induction false} EmptyContainer(j: Json, r: Ref)
    requires Located(j, r)
    requires (r.v.Arr? && r.v.elems == []) || (r.v.Obj? && r.v.members == [])
    ensures j.Elements(r.at) == [] && j.Keys(r.at) == []
    ensures ElemsOf(r) == [] && FieldsOf(r) == [] && Ats(ElemsOf(r)) == [] && KeyAts(FieldsOf(r)) == []
  {
    hide Print, At, Window, Located;
    NodeTokens(j, r);
  }

  // ---- Members by name -------------------------------------------------------------------------

  lemma {:induction false} ShortKey(j: Json, k: nat, key: Bytes)
    requires j.KeyIs(k, key)
    ensures |key| <= |j.buf|
  {
    if key != [] { var last := key[|key| - 1]; }
  }

  lemma {:induction false} KeyIsKey(j: Json, f: Field, key: Bytes)
    requires FieldLocated(j, f)
    ensures j.KeyIs(f.keyAt, key) <==> f.key == key
  {
    hide Located;
    var t := j.tokens[f.keyAt];
    assert forall i | 0 <= i < |f.key| :: j.buf[t.start + i] == f.key[i] by {
      assert forall i | 0 <= i < |f.key| :: j.Span(f.keyAt)[i] == f.key[i];
    }
    if j.KeyIs(f.keyAt, key) {
      ShortKey(j, f.keyAt, key);
      assert f.key == key;
    }
  }

  lemma {:induction false} FirstKeyIsField(j: Json, fs: seq<Field>, key: Bytes)
    requires forall f | f in fs :: FieldLocated(j, f)
    ensures match j.FirstKey(KeyAts(fs), key)
            case None => FieldNamed(fs, key) == None
            case Some(k) => FieldNamed(fs, key).Some? && FieldNamed(fs, key).value.at == k + 1 &&
                            Located(j, FieldNamed(fs, key).value)
    decreases |fs|
  {
    hide Located;
    if fs != [] {
      KeyIsKey(j, fs[0], key);
      KeyAtsCons(fs[0], fs[1..]);
      assert fs == [fs[0]] + fs[1..];
      FirstKeyIsField(j, fs[1..], key);
    }
  }

  /** `object_get_value` on an object finds the member of that name, and only that. */
  lemma {:induction false} GetIsMember(j: Json, r: Ref, key: Bytes)
    requires Located(j, r) && r.v.Obj?
    ensures match Member(r, key)
            case None => j.GetResult(r.at, key) == Err(Errors.NoData)
            case Some(m) => j.GetResult(r.at, key) == Ok(m.at) && Located(j, m)
  {
    hide Located, Preorder, Print;
    NodeTokens(j, r);
    ObjectWalk(j, r);
    FirstKeyIsField(j, FieldsOf(r), key);
  }

  // ---- What a node's token shows ---------------------------------------------------------------

  function KindOf(v: Value): Kind {
    match v
    case Str(_) => String
    case Prim(_) => Primitive
    case Arr(_, _) => Array
    case Obj(_, _) => Object
  }

  /** The bytes of a node's span: a string's without its quotes. */
  function Text(v: Value): Bytes {
    match v
    case Str(body) => body
    case Prim(text) => text
    case Arr(_, _) => Print(v, [])
    case Obj(_, _) => Print(v, [])
  }

  lemma {:induction false} CatAssoc(a: Bytes, b: Bytes, c: Bytes)
    ensures Cat(a, Cat(b, c)) == Cat(Cat(a, b), c)
  {
  }

  lemma {:induction false} QuotedSplit(body: Bytes, a: Bytes, b: Bytes)
    ensures Quoted(body, Cat(a, b)) == Cat(Quoted(body, a), b)
  {
    hide Cat;
    CatAssoc("\"", a, b);
    CatAssoc(body, Cat("\"", a), b);
    CatAssoc("\"", Cat(body, Cat("\"", a)), b);
  }

  /** What follows a printed value is printed as it is. */
  lemma {:induction false} PrintSplit(v: Value, a: Bytes, b: Bytes)
    ensures Print(v, Cat(a, b)) == Cat(Print(v, a), b)
    decreases v, 1
  {
    hide Cat, Quoted;
    match v
    case Str(body) => QuotedSplit(body, a, b);
    case Prim(text) => CatAssoc(text, a, b);
    case Arr(pad, elems) =>
      if elems == [] {
        CatAssoc("]", a, b);
        CatAssoc(pad, Cat("]", a), b);
        CatAssoc("[", Cat(pad, Cat("]", a)), b);
      } else {
        PrintElemsSplit(elems, a, b);
        CatAssoc("[", PrintElems(elems, a), b);
      }
    case Obj(pad, members) =>
      if members == [] {
        CatAssoc("}", a, b);
        CatAssoc(pad, Cat("}", a), b);
        CatAssoc("{", Cat(pad, Cat("}", a)), b);
      } else {
        PrintMembersSplit(members, a, b);
        CatAssoc("{", PrintMembers(members, a), b);
      }
  }

  lemma {:induction false} PrintElemsSplit(es: seq<Elem>, a: Bytes, b: Bytes)
    requires es != []
    ensures PrintElems(es, Cat(a, b)) == Cat(PrintElems(es, a), b)
    decreases es, 0
  {
    hide Cat, Print;
    if |es| > 1 {
      PrintElemsSplit(es[1..], a, b);
      CatAssoc(",", PrintElems(es[1..], a), b);
    } else {
      CatAssoc("]", a, b);
    }
    var more := PrintMoreElems(es, a);
    CatAssoc(es[0].trail, more, b);
    PrintSplit(es[0].value, Cat(es[0].trail, more), b);
    CatAssoc(es[0].lead, Print(es[0].value, Cat(es[0].trail, more)), b);
  }

  lemma {:induction false} PrintMembersSplit(ms: seq<Member>, a: Bytes, b: Bytes)
    requires ms != []
    ensures PrintMembers(ms, Cat(a, b)) == Cat(PrintMembers(ms, a), b)
    decreases ms, 0
  {
    hide Cat, Print, PrintKey;
    if |ms| > 1 {
      PrintMembersSplit(ms[1..], a, b);
      CatAssoc(",", PrintMembers(ms[1..], a), b);
    } else {
      CatAssoc("}", a, b);
    }
    var more := PrintMoreMembers(ms, a);
    CatAssoc(ms[0].trail, more, b);
    PrintSplit(ms[0].value, Cat(ms[0].trail, more), b);
    PrintKeySplit(ms[0], Print(ms[0].value, Cat(ms[0].trail, more)), b);
  }

  lemma {:induction false} PrintKeySplit(m: Member, a: Bytes, b: Bytes)
    ensures PrintKey(m, Cat(a, b)) == Cat(PrintKey(m, a), b)
  {
    hide Cat, Quoted;
    CatAssoc(m.beforeValue, a, b);
    CatAssoc(":", Cat(m.beforeValue, a), b);
    CatAssoc(m.afterKey, Cat(":", Cat(m.beforeValue, a)), b);
    QuotedSplit(m.key, Cat(m.afterKey, Cat(":", Cat(m.beforeValue, a))), b);
    CatAssoc(m.lead, Quoted(m.key, Cat(m.afterKey, Cat(":", Cat(m.beforeValue, a)))), b);
  }

  /** A node's token has its kind, and spans its text. */
  lemma {:induction false} NodeText(j: Json, r: Ref)
    requires Located(j, r)
    ensures r.at < |j.tokens| && j.Tok(r.at).kind == KindOf(r.v) && j.Span(r.at) == Text(r.v)
    ensures j.Tok(r.at).start <= j.Tok(r.at).end && j.Tok(r.at).end - j.Tok(r.at).start == |Text(r.v)|
  {
    hide Print, Preorder, At, Cat, Valid, Window, Located;
    NodeTokens(j, r);
    SpanStart(r);
    ByText(j, r);
    var t := j.tokens[r.at];
    assert j.buf[t.start..t.end] == Text(r.v);
  }

  /** Where the text of a node starts. */
  function TextStart(r: Ref): nat { r.pos + if r.v.Str? then 1 else 0 }

  lemma {:induction false} SpanStart(r: Ref)
    requires r.pos + Len(r.v) < UNSET
    ensures var t := Preorder(r.v, r.pos)[0];
            t.kind == KindOf(r.v) && t.start == TextStart(r) && t.end == TextStart(r) + |Text(r.v)|
  {
    hide Print;
    PrintLength(r.v, []);
  }

  lemma {:induction false} ByText(j: Json, r: Ref)
    requires Located(j, r)
    ensures TextStart(r) + |Text(r.v)| <= |j.buf|
    ensures j.buf[TextStart(r)..TextStart(r) + |Text(r.v)|] == Text(r.v)
  {
    hide Preorder, Cat, Valid, Window;
    var rest := j.buf[r.pos + Len(r.v)..];
    match r.v
    case Str(body) => QuotedText(j.buf, r.pos, body, rest);
    case Prim(text) => TakeText(j.buf, r.pos, text, rest);
    case Arr(_, _) => NodePrint(j.buf, r, rest);
    case Obj(_, _) => NodePrint(j.buf, r, rest);
  }

  lemma {:induction false} TakeText(js: Bytes, pos: nat, a: Bytes, b: Bytes)
    requires At(js, pos, Cat(a, b))
    ensures pos + |a| <= |js| && js[pos..pos + |a|] == a
  {
    assert js[pos..][..|a|] == a;
  }

  lemma {:induction false} NodePrint(js: Bytes, r: Ref, rest: Bytes)
    requires At(js, r.pos, Print(r.v, rest))
    ensures r.pos + |Print(r.v, [])| <= |js| && js[r.pos..r.pos + |Print(r.v, [])|] == Print(r.v, [])
  {
    hide Print;
    PrintSplit(r.v, [], rest);
    assert Cat([], rest) == rest;
    TakeText(js, r.pos, Print(r.v, []), rest);
  }

  // ---- Lookups by path -------------------------------------------------------------------------

  /** One step down: the member of that name, or the element at that place. */
  datatype Down = Key(key: Bytes) | Nth(n: nat)

  /** The lookups one after the other, from token `at`. */
  function Lookup(j: Json, at: nat, path: seq<Down>): Result<nat, Errors.ParserError>
    decreases |path|
  {
    if path == [] then Ok(at)
    else
      match (match path[0] case Key(key) => j.GetResult(at, key) case Nth(n) => j.Nth(j.Elements(at), at, n))
      case Err(e) => Err(e)
      case Ok(next) => Lookup(j, next, path[1..])
  }

  /** The value of the first member named `key`. */
  function Named(ms: seq<Member>, key: Bytes): Option<Value> {
    if ms == [] then None else if ms[0].key == key then Some(ms[0].value) else Named(ms[1..], key)
  }

  /** One step down the tree. */
  function Child(v: Value, step: Down): Option<Value> {
    match step
    case Key(key) => if v.Obj? then Named(v.members, key) else None
    case Nth(n) => if v.Arr? && n < |v.elems| then Some(v.elems[n].value) else None
  }

  function Follow(v: Value, path: seq<Down>): Option<Value>
    decreases |path|
  {
    if path == [] then Some(v)
    else
      match Child(v, path[0])
      case None => None
      case Some(w) => Follow(w, path[1..])
  }

  lemma {:induction false} FieldIsNamed(ms: seq<Member>, at: nat, pos: nat, key: Bytes)
    ensures match Named(ms, key)
            case None => FieldNamed(Fields(ms, at, pos), key) == None
            case Some(v) =>
              FieldNamed(Fields(ms, at, pos), key).Some? && FieldNamed(Fields(ms, at, pos), key).value.v == v
    decreases |ms|
  {
    if ms != [] {
      var p := pos + LenToValue(ms[0]);
      var f := Field(ms[0].key, at, Ref(ms[0].value, at + 1, p));
      var rest := Fields(ms[1..], at + 1 + Size(ms[0].value), p + Len(ms[0].value) + |ms[0].trail| + 1);
      FieldIsNamed(ms[1..], at + 1 + Size(ms[0].value), p + Len(ms[0].value) + |ms[0].trail| + 1, key);
      assert ([f] + rest)[1..] == rest;
    }
  }

  lemma {:induction false} ElemIsNth(es: seq<Elem>, at: nat, pos: nat, n: nat)
    ensures |ElemRefs(es, at, pos)| == |es|
    ensures n < |es| ==> ElemRefs(es, at, pos)[n].v == es[n].value
    decreases |es|
  {
    if es != [] {
      var p := pos + |es[0].lead|;
      ElemIsNth(es[1..], at + Size(es[0].value), p + Len(es[0].value) + |es[0].trail| + 1, if n == 0 then 0 else n - 1);
    }
  }

  /** A path of lookups goes where it goes in the tree. */
  lemma {:induction false} LookupFollows(j: Json, r: Ref, path: seq<Down>) returns (q: Ref)
    requires Located(j, r) && Follow(r.v, path).Some?
    ensures Located(j, q) && q.v == Follow(r.v, path).value && Lookup(j, r.at, path) == Ok(q.at)
    decreases |path|
  {
    hide Located, Fields, ElemRefs, Named, JsonData.Elements, JsonData.GetResult;
    if path == [] {
      q := r;
    } else {
      NodeText(j, r);
      var next;
      match path[0] {
        case Key(key) =>
          FieldIsNamed(r.v.members, r.at + 1, r.pos + 1, key);
          GetIsMember(j, r, key);
          next := Member(r, key).value;
        case Nth(n) =>
          ElemIsNth(r.v.elems, r.at + 1, r.pos + 1, n);
          ArrayWalk(j, r);
          next := ElemsOf(r)[n];
          assert next in ElemsOf(r);
      }
      q := LookupFollows(j, next, path[1..]);
    }
  }
}
