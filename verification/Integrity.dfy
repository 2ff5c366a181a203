/**
 The structural part of reading a transaction: which texts `read_json` accepts,
 in terms of syntax trees.
 */
module Integrity {
  import opened Base
  import opened Errors
  import opened Syntax
  import opened JsmnSpec
  import opened Recognition
  import opened Documents
  import opened Json
  import opened Lookups

  // ---- Keys of a tree --------------------------------------------------------------------------

  /** No key holds an escape, and no two of them are equal. */
  predicate DistinctKeys(keys: seq<Bytes>) {
    (forall a | 0 <= a < |keys| :: !HasBackslash(keys[a])) &&
    (forall a, b | 0 <= b < a < |keys| :: keys[b] != keys[a])
  }

  function KeyNames(ms: seq<Syntax.Member>): (keys: seq<Bytes>)
    ensures |keys| == |ms| && forall i | 0 <= i < |ms| :: keys[i] == ms[i].key
  {
    seq(|ms|, i requires 0 <= i < |ms| => ms[i].key)
  }

  /** The keys of every object in the tree are distinct and free of escapes. */
  predicate SoundKeys(v: Value)
    decreases v, 1
  {
    match v
    case Str(_) => true
    case Prim(_) => true
    case Arr(_, elems) => SoundKeysElems(elems)
    case Obj(_, members) => DistinctKeys(KeyNames(members)) && SoundKeysMembers(members)
  }

  predicate SoundKeysElems(es: seq<Elem>)
    decreases es, 0
  {
    es == [] || (SoundKeys(es[0].value) && SoundKeysElems(es[1..]))
  }

  predicate SoundKeysMembers(ms: seq<Syntax.Member>)
    decreases ms, 0
  {
    ms == [] || (SoundKeys(ms[0].value) && SoundKeysMembers(ms[1..]))
  }

  /** What `read_json` needs of a value. */
  predicate Good(v: Value) { Valid(v) && SoundKeys(v) }

  // ---- The check over the tokens is the check over the tree ------------------------------------

  predicate KeysSound(j: Json, ks: seq<nat>) {
    (forall a | 0 <= a < |ks| :: !HasBackslash(j.Span(ks[a]))) &&
    (forall a, b | 0 <= b < a < |ks| :: j.Span(ks[b]) != j.Span(ks[a]))
  }

  lemma {:induction false} NoKeysRefusal(j: Json, ks: seq<nat>, n: nat)
    requires n <= |ks|
    ensures KeysRefusal(j, ks, n) == None <==>
            (forall a | n <= a < |ks| :: !HasBackslash(j.Span(ks[a])) && !Repeats(j, ks, a))
    decreases |ks| - n
  {
    hide HasBackslash, Repeats, JsonData.Span;
    if n < |ks| { NoKeysRefusal(j, ks, n + 1); }
  }

  lemma {:induction false} KeysRefusalSound(j: Json, ks: seq<nat>)
    ensures KeysRefusal(j, ks, 0) == None <==> KeysSound(j, ks)
  {
    NoKeysRefusal(j, ks, 0);
    if KeysSound(j, ks) {
      forall a | 0 <= a < |ks| ensures !Repeats(j, ks, a) {}
    } else if KeysRefusal(j, ks, 0) == None {
      forall a, b | 0 <= b < a < |ks| ensures j.Span(ks[b]) != j.Span(ks[a]) { assert !Repeats(j, ks, a); }
    }
  }

  /** The objects among tokens `[lo, hi)` have sound keys. */
  predicate SoundRange(j: Json, lo: nat, hi: nat)
    requires hi <= |j.tokens|
  {
    forall i | lo <= i < hi && j.tokens[i].kind == Object :: KeysSound(j, j.Keys(i))
  }

  lemma {:induction false} RefusalRange(j: Json, i: nat)
    requires i <= |j.tokens|
    ensures Refusal(j, i) == None <==> SoundRange(j, i, |j.tokens|)
    decreases |j.tokens| - i
  {
    hide KeysSound, KeysRefusal, JsonData.Keys;
    if i < |j.tokens| {
      KeysRefusalSound(j, j.Keys(i));
      RefusalRange(j, i + 1);
    }
  }

  lemma {:induction false} FieldKeys(j: Json, ms: seq<Syntax.Member>, at: nat, pos: nat)
    requires forall f | f in Fields(ms, at, pos) :: FieldLocated(j, f)
    ensures |Fields(ms, at, pos)| == |ms|
    ensures forall i | 0 <= i < |ms| :: j.Span(KeyAts(Fields(ms, at, pos))[i]) == ms[i].key
    decreases |ms|
  {
    hide FieldLocated, KeyAts;
    if ms != [] {
      var p := pos + LenToValue(ms[0]);
      var f := Field(ms[0].key, at, Ref(ms[0].value, at + 1, p));
      var rest := Fields(ms[1..], at + 1 + Size(ms[0].value), p + Len(ms[0].value) + |ms[0].trail| + 1);
      assert Fields(ms, at, pos) == [f] + rest;
      FieldKeys(j, ms[1..], at + 1 + Size(ms[0].value), p + Len(ms[0].value) + |ms[0].trail| + 1);
      KeyAtsCons(f, rest);
      LocatedKey(j, f);
    }
  }

  lemma {:induction false} LocatedKey(j: Json, f: Field)
    requires FieldLocated(j, f)
    ensures j.Span(f.keyAt) == f.key && f.keyAt < |j.tokens| && j.tokens[f.keyAt].kind == String
  {
  }

  lemma {:induction false} ObjectKeysSound(j: Json, r: Ref)
    requires Located(j, r) && r.v.Obj?
    ensures KeysSound(j, j.Keys(r.at)) <==> DistinctKeys(KeyNames(r.v.members))
  {
    hide Located, FieldLocated;
    ObjectWalk(j, r);
    FieldKeys(j, r.v.members, r.at + 1, r.pos + 1);
    var ks, names := j.Keys(r.at), KeyNames(r.v.members);
    assert forall i | 0 <= i < |ks| :: j.Span(ks[i]) == names[i];
  }

  lemma {:induction false} NodeSound(j: Json, r: Ref)
    requires Located(j, r)
    ensures r.at + Size(r.v) <= |j.tokens|
    ensures SoundRange(j, r.at, r.at + Size(r.v)) <==> SoundKeys(r.v)
    decreases r.v, 1
  {
    hide Located, KeysSound, DistinctKeys, ElemsLocated, MembersLocated;
    NodeTokens(j, r);
    Contents(j, r);
    NodeKind(j, r);
    match r.v
    case Str(_) =>
    case Prim(_) =>
    case Arr(_, elems) =>
      if elems != [] { ElemsSound(j, elems, r.at + 1, r.pos + 1); }
    case Obj(_, members) =>
      ObjectKeysSound(j, r);
      if members != [] { MembersSound(j, members, r.at + 1, r.pos + 1); }
  }

  lemma {:induction false} NodeKind(j: Json, r: Ref)
    requires Located(j, r)
    ensures r.at < |j.tokens| && (j.tokens[r.at].kind == Object <==> r.v.Obj?)
  {
    hide Located, Print;
    NodeTokens(j, r);
  }

  lemma {:induction false} ElemsSound(j: Json, es: seq<Elem>, at: nat, pos: nat)
    requires es != [] && ElemsLocated(j, es, at, pos) && at + ElemsSize(es) <= |j.tokens|
    ensures SoundRange(j, at, at + ElemsSize(es)) <==> SoundKeysElems(es)
    decreases es, 0
  {
    hide Located, KeysSound, ElemsLocated, LenElems;
    var next := at + Size(es[0].value);
    FirstElem(j, es, at, pos);
    NodeSound(j, Ref(es[0].value, at, pos + |es[0].lead|));
    if |es| > 1 {
      ElemsSound(j, es[1..], next, pos + |es[0].lead| + Len(es[0].value) + |es[0].trail| + 1);
    }
    SplitRange(j, at, next, at + ElemsSize(es));
  }

  lemma {:induction false} MembersSound(j: Json, ms: seq<Syntax.Member>, at: nat, pos: nat)
    requires ms != [] && MembersLocated(j, ms, at, pos) && at + MembersSize(ms) <= |j.tokens|
    ensures SoundRange(j, at, at + MembersSize(ms)) <==> SoundKeysMembers(ms)
    decreases ms, 0
  {
    hide Located, KeysSound, MembersLocated, LenMembers;
    var next := at + 1 + Size(ms[0].value);
    var p := pos + LenToValue(ms[0]);
    FirstMember(j, ms, at, pos);
    NodeSound(j, Ref(ms[0].value, at + 1, p));
    if |ms| > 1 {
      MembersSound(j, ms[1..], next, p + Len(ms[0].value) + |ms[0].trail| + 1);
    }
    SplitRange(j, at, at + 1, at + MembersSize(ms));
    SplitRange(j, at + 1, next, at + MembersSize(ms));
  }

  lemma {:induction false} SplitRange(j: Json, lo: nat, mid: nat, hi: nat)
    requires lo <= mid <= hi <= |j.tokens|
    ensures SoundRange(j, lo, hi) <==> SoundRange(j, lo, mid) && SoundRange(j, mid, hi)
  {
  }

  // ---- Reading a transaction -------------------------------------------------------------------

  /** Where the root ends: the span of a string excludes its closing quote. */
  function RootEnd(root: Token): nat { root.end + if root.kind == String then 1 else 0 }

  function Min(a: nat, b: nat): nat { if a <= b then a else b }

  function JsmnToParser(e: JsmnError): ParserError {
    match e
    case NoMem => JsonTooManyTokens
    case Inval => UnexpectedCharacters
    case Part => JsonIncompleteJson
  }

  /** `read_json` before the key check: the tokens of the one object that `buf` must be. */
  function ReadTokens(buf: Bytes): Result<seq<Token>, ParserError> {
    if !NulFree(buf) then Err(UnexpectedCharacters)
    else
      match Parse(buf, MAX_TOKENS, true)
      case Err(e) => Err(JsmnToParser(e))
      case Ok(toks) =>
        if toks == [] then Err(JsonZeroTokens)
        else if !Blank(buf[Min(RootEnd(toks[0]), |buf|)..]) then Err(UnexpectedUnparsedBytes)
        else Ok(toks)
  }

  /** A run never stores more tokens than there are slots. */
  lemma {:induction false} RunWithinCap(js: Bytes, pos: nat, s: Scan, cap: nat, strict: bool)
    requires pos <= |js| && WellFormed(s) && |s.toks| <= cap
    ensures match Run(js, pos, s, cap, strict) case Ok(toks) => |toks| <= cap case Err(_) => true
    decreases |js| - pos
  {
    if pos < |js| && js[pos] != '\0' {
      match Step(js, pos, s, cap, strict)
      case Err(_) =>
      case Ok((next, p)) =>
        StepWithinCap(js, pos, s, cap, strict);
        RunWithinCap(js, p, next, cap, strict);
    }
  }

  lemma {:induction false} StepWithinCap(js: Bytes, pos: nat, s: Scan, cap: nat, strict: bool)
    requires pos < |js| && js[pos] != '\0' && WellFormed(s) && |s.toks| <= cap
    ensures match Step(js, pos, s, cap, strict) case Ok((next, _)) => |next.toks| <= cap case Err(_) => true
  {
  }

  function ReadJson(buf: Bytes): (r: Result<Json, ParserError>) {
    match ReadTokens(buf)
    case Err(e) => Err(e)
    case Ok(toks) =>
      RunWithinCap(buf, 0, START, MAX_TOKENS, true);
      var j := JsonData(buf, toks);
      match Refusal(j, 0)
      case Some(e) => Err(e)
      case None => Ok(j)
  }

  /** The node of a document's root. */
  function Root(d: Doc): Ref { Ref(d.root, 0, |d.lead|) }

  lemma {:induction false} RootLocated(d: Doc)
    requires ValidDoc(d) && |PrintDoc(d)| < UNSET && Size(d.root) <= MAX_TOKENS
    ensures |DocTokens(d)| == Size(d.root) && Located(JsonData(PrintDoc(d), DocTokens(d)), Root(d))
  {
    hide Print, Preorder, Valid, Len, Size;
    DocStart(d);
    PreorderShape(d.root, |d.lead|);
    Documents.RootEnd(d);
    Advance(PrintDoc(d), 0, d.lead, Print(d.root, d.trail));
    var toks := DocTokens(d);
    assert toks[0..|toks|] == toks;
  }

  /** What `read_json` accepts, as trees. */
  predicate Readable(d: Doc) { ValidDoc(d) && Size(d.root) <= MAX_TOKENS && SoundKeys(d.root) }

  /** `read_json` on the text of a valid tree. */
  lemma {:induction false} ReadPrinted(d: Doc)
    requires ValidDoc(d) && |PrintDoc(d)| < UNSET
    ensures Size(d.root) > MAX_TOKENS ==> ReadJson(PrintDoc(d)) == Err(JsonTooManyTokens)
    ensures Readable(d) ==> ReadJson(PrintDoc(d)) == Ok(JsonData(PrintDoc(d), DocTokens(d)))
    ensures Size(d.root) <= MAX_TOKENS && !SoundKeys(d.root) ==> ReadJson(PrintDoc(d)).Err?
  {
    hide Run, Print, Preorder, Valid, SoundRange, Located, Refusal;
    Complete(d, MAX_TOKENS);
    if Size(d.root) <= MAX_TOKENS {
      RootLocated(d);
      var j: Json := JsonData(PrintDoc(d), DocTokens(d));
      RootIsObject(d);
      NodeSound(j, Root(d));
      RefusalRange(j, 0);
    }
  }

  lemma {:induction false} RootIsObject(d: Doc)
    requires ValidDoc(d) && |PrintDoc(d)| < UNSET
    ensures DocTokens(d) != [] && DocTokens(d)[0].kind == Object
  {
  }

  /** `read_json` accepts exactly the readable trees' texts, and gives the tree's tokens. */
  lemma {:induction false} ReadsTrees(buf: Bytes)
    requires |buf| < UNSET
    ensures ReadJson(buf).Ok? <==> exists d :: Readable(d) && PrintDoc(d) == buf
    ensures forall d | Readable(d) && PrintDoc(d) == buf :: ReadJson(buf) == Ok(JsonData(buf, DocTokens(d)))
  {
    if ReadJson(buf).Ok? {
      var d := ReadTree(buf);
    }
    forall d | Readable(d) && PrintDoc(d) == buf
      ensures ReadJson(buf) == Ok(JsonData(buf, DocTokens(d)))
    {
      ReadPrinted(d);
    }
  }

  /** The tree of an accepted text. */
  lemma {:induction false} ReadTree(buf: Bytes) returns (d: Doc)
    requires |buf| < UNSET && ReadJson(buf).Ok?
    ensures Readable(d) && PrintDoc(d) == buf && ReadJson(buf).value == JsonData(buf, DocTokens(d))
    ensures Located(ReadJson(buf).value, Root(d))
  {
    hide Run, Print, Preorder, Valid, SoundKeys, Located, Refusal;
    AcceptedTokens(buf);
    d := Sound(buf, MAX_TOKENS);
    RootLocated(d);
    ReadPrinted(d);
  }

  lemma {:induction false} AcceptedTokens(buf: Bytes)
    requires |buf| < UNSET && ReadJson(buf).Ok?
    ensures Accepts(buf, MAX_TOKENS)
  {
    hide Run, Step;
    var toks := Parse(buf, MAX_TOKENS, true).value;
    RootToken(buf, toks);
  }

  /** The first token of an accepting run that is followed by blanks only. */
  lemma {:induction false} RootToken(buf: Bytes, toks: seq<Token>)
    requires |buf| < UNSET && NulFree(buf) && Parse(buf, MAX_TOKENS, true) == Ok(toks) && toks != []
    ensures toks[0].kind == Object && toks[0].end <= |buf|
  {
    hide Run, Step, Hops, Print, Preorder, Len, Size, Valid, LastOpen, AfterValue, At;
    var p := SkipLead(buf, MAX_TOKENS, 0);
    MustOpenRoot(buf, MAX_TOKENS, p);
    var root, end := SoundObject(buf, MAX_TOKENS, p, START);
    HopValue(buf, MAX_TOKENS, p, START, root, buf[end..]);
    AcceptHop(buf, MAX_TOKENS, p, START, Size(root), end, AfterValue(START, root, p), buf[end..]);
    RootState(root, p);
    ClosedStays(buf, end, AfterValue(START, root, p), MAX_TOKENS, 0);
    ObjectToken(root, p);
  }

  lemma {:induction false} ObjectToken(root: Syntax.Value, p: nat)
    requires root.Obj? && p + Len(root) < UNSET
    ensures Preorder(root, p) != [] && Preorder(root, p)[0].kind == Object
  {
  }
}
