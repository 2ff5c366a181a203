/**
 Whole JSON texts: the strict tokenizer, followed by the check that only blanks
 follow the root, accepts exactly the texts `ws object ws`.
 */
module Documents {
  import opened Base
  import opened Syntax
  import opened JsmnSpec
  import opened Recognition

  function DocTokens(d: Doc): seq<Token>
    requires |PrintDoc(d)| < UNSET
  {
    PrintLength(d.root, d.trail);
    Preorder(d.root, |d.lead|)
  }

  /** Only blanks follow the first token of `toks`. */
  predicate BlankAfterRoot(js: Bytes, toks: seq<Token>) {
    toks != [] && toks[0].end <= |js| && Blank(js[toks[0].end..])
  }

  /** The tokenizer accepts `js`, and nothing but blanks follows its root. */
  predicate Accepts(js: Bytes, cap: nat) {
    NulFree(js) && Parse(js, cap, true).Ok? && BlankAfterRoot(js, Parse(js, cap, true).value)
  }

  // ---- Valid texts hold no NUL byte ------------------------------------------------------------

  lemma {:induction false} CatNulFree(a: Bytes, b: Bytes)
    requires NulFree(a) && NulFree(b)
    ensures NulFree(Cat(a, b))
  {
  }

  lemma {:induction false} BlankNulFree(s: Bytes)
    requires Blank(s)
    ensures NulFree(s)
  {
    forall i | 0 <= i < |s| ensures s[i] != '\0' { assert IsBlank(s[i]); }
  }

  lemma {:induction false} BodyNulFree(s: Bytes)
    requires ValidBody(s)
    ensures NulFree(s)
    decreases |s|
  {
    if s != [] {
      var n := UnitLen(s);
      BodyNulFree(s[n..]);
      assert s == s[..n] + s[n..];
      assert NulFree(s[..n]) by {
        if n == 6 { forall i | 0 <= i < 6 ensures s[i] != '\0' { assert i >= 2 ==> IsHex(s[i]); } }
      }
      CatNulFree(s[..n], s[n..]);
    }
  }

  lemma {:induction false} QuotedNulFree(body: Bytes, rest: Bytes)
    requires ValidBody(body) && NulFree(rest)
    ensures NulFree(Quoted(body, rest))
  {
    BodyNulFree(body);
    CatNulFree("\"", rest);
    CatNulFree(body, Cat("\"", rest));
    CatNulFree("\"", Cat(body, Cat("\"", rest)));
  }

  lemma {:induction false} PaddedNulFree(pad: Bytes, rest: Bytes)
    requires Blank(pad) && NulFree(rest)
    ensures NulFree(Cat(pad, rest))
  {
    BlankNulFree(pad);
    CatNulFree(pad, rest);
  }

  lemma {:induction false} PrintNulFree(v: Value, rest: Bytes)
    requires Valid(v) && NulFree(rest)
    ensures NulFree(Print(v, rest))
    decreases v, 1
  {
    hide NulFree, Cat;
    match v
    case Str(body) => QuotedNulFree(body, rest);
    case Prim(text) => PrimNulFree(text, rest);
    case Arr(pad, elems) =>
      SeparatorsNulFree(rest);
      if elems == [] { PaddedNulFree(pad, Cat("]", rest)); } else { PrintElemsNulFree(elems, rest); }
      SeparatorsNulFree(if elems == [] then Cat(pad, Cat("]", rest)) else PrintElems(elems, rest));
    case Obj(pad, members) =>
      SeparatorsNulFree(rest);
      if members == [] { PaddedNulFree(pad, Cat("}", rest)); } else { PrintMembersNulFree(members, rest); }
      SeparatorsNulFree(if members == [] then Cat(pad, Cat("}", rest)) else PrintMembers(members, rest));
  }

  lemma {:induction false} PrimNulFree(text: Bytes, rest: Bytes)
    requires ValidPrim(text) && NulFree(rest)
    ensures NulFree(Cat(text, rest))
  {
    forall i | 0 <= i < |text| ensures text[i] != '\0' { assert IsPrimByte(text[i]); }
    CatNulFree(text, rest);
  }

  lemma {:induction false} SeparatorsNulFree(rest: Bytes)
    requires NulFree(rest)
    ensures forall b | b in {"]", "}", "[", "{", ",", ":"} :: NulFree(Cat(b, rest))
  {
  }

  lemma {:induction false} PrintElemsNulFree(es: seq<Elem>, rest: Bytes)
    requires es != [] && ValidElems(es) && NulFree(rest)
    ensures NulFree(PrintElems(es, rest))
    decreases es, 0
  {
    hide NulFree, Cat;
    SeparatorsNulFree(rest);
    if |es| > 1 {
      PrintElemsNulFree(es[1..], rest);
      SeparatorsNulFree(PrintElems(es[1..], rest));
    }
    PaddedNulFree(es[0].trail, PrintMoreElems(es, rest));
    PrintNulFree(es[0].value, Cat(es[0].trail, PrintMoreElems(es, rest)));
    PaddedNulFree(es[0].lead, Print(es[0].value, Cat(es[0].trail, PrintMoreElems(es, rest))));
  }

  lemma {:induction false} PrintMembersNulFree(ms: seq<Member>, rest: Bytes)
    requires ms != [] && ValidMembers(ms) && NulFree(rest)
    ensures NulFree(PrintMembers(ms, rest))
    decreases ms, 0
  {
    hide NulFree, Cat;
    SeparatorsNulFree(rest);
    if |ms| > 1 {
      PrintMembersNulFree(ms[1..], rest);
      SeparatorsNulFree(PrintMembers(ms[1..], rest));
    }
    var m := ms[0];
    PaddedNulFree(m.trail, PrintMoreMembers(ms, rest));
    var value := Print(m.value, Cat(m.trail, PrintMoreMembers(ms, rest)));
    PrintNulFree(m.value, Cat(m.trail, PrintMoreMembers(ms, rest)));
    PaddedNulFree(m.beforeValue, value);
    SeparatorsNulFree(Cat(m.beforeValue, value));
    PaddedNulFree(m.afterKey, Cat(":", Cat(m.beforeValue, value)));
    QuotedNulFree(m.key, Cat(m.afterKey, Cat(":", Cat(m.beforeValue, value))));
    PaddedNulFree(m.lead, Quoted(m.key, Cat(m.afterKey, Cat(":", Cat(m.beforeValue, value)))));
  }

  // ---- Completeness ----------------------------------------------------------------------------

  lemma {:induction false} RunBlank(js: Bytes, pos: nat, s: Scan, cap: nat)
    requires pos <= |js| && WellFormed(s) && Blank(js[pos..]) && LastOpen(s.toks) < 0
    ensures Run(js, pos, s, cap, true) == Ok(s.toks)
    decreases |js| - pos
  {
    if pos < |js| {
      assert js[pos] == js[pos..][0] && js[pos + 1..] == js[pos..][1..];
      RunBlank(js, pos + 1, s, cap);
    }
  }

  /** Tokenizing a printed text gives the nodes of its tree in preorder, if there are slots for them. */
  lemma {:induction false} Complete(d: Doc, cap: nat)
    requires ValidDoc(d) && |PrintDoc(d)| < UNSET
    ensures NulFree(PrintDoc(d))
    ensures Parse(PrintDoc(d), cap, true) == if Size(d.root) <= cap then Ok(DocTokens(d)) else Err(NoMem)
    ensures BlankAfterRoot(PrintDoc(d), DocTokens(d))
  {
    hide Run, Step, Hops, At, Cat, Blank, Preorder, Valid, NulFree;
    var js, lead := PrintDoc(d), |d.lead|;
    DocNulFree(d);
    DocStart(d);
    RootEnd(d);
    DocEnd(d, cap);
    var end := AfterValue(START, d.root, lead);
    HopBlank(js, cap, 0, START, d.lead, Print(d.root, d.trail));
    Landed(js, cap, 0, START, 0, lead, START, Print(d.root, d.trail));
    HopValue(js, cap, lead, START, d.root, d.trail);
    Chain(js, cap, 0, START, 0, lead, START, Print(d.root, d.trail), Size(d.root), lead + Len(d.root), end, d.trail);
    FinishHop(js, cap, 0, START, Size(d.root), lead + Len(d.root), end, d.trail);
  }

  lemma {:induction false} DocNulFree(d: Doc)
    requires ValidDoc(d)
    ensures NulFree(PrintDoc(d))
  {
    hide NulFree, Cat;
    BlankNulFree(d.trail);
    PrintNulFree(d.root, d.trail);
    PaddedNulFree(d.lead, Print(d.root, d.trail));
  }

  lemma {:induction false} DocStart(d: Doc)
    requires ValidDoc(d)
    ensures At(PrintDoc(d), 0, Cat(d.lead, Print(d.root, d.trail)))
    ensures |PrintDoc(d)| == |d.lead| + Len(d.root) + |d.trail|
  {
    PrintLength(d.root, d.trail);
  }

  /** After the root, the run stops with its tokens. */
  lemma {:induction false} DocEnd(d: Doc, cap: nat)
    requires ValidDoc(d) && |PrintDoc(d)| < UNSET
    ensures |d.lead| + Len(d.root) <= |PrintDoc(d)|
    ensures var end := AfterValue(START, d.root, |d.lead|);
            WellFormed(end) && Run(PrintDoc(d), |d.lead| + Len(d.root), end, cap, true) == Ok(DocTokens(d))
    ensures BlankAfterRoot(PrintDoc(d), DocTokens(d))
  {
    hide Run, Step, Print, Len, Valid, Preorder, AfterValue;
    RootEnd(d);
    DocStart(d);
    RootState(d.root, |d.lead|);
    RunBlank(PrintDoc(d), |d.lead| + Len(d.root), AfterValue(START, d.root, |d.lead|), cap);
  }

  lemma {:induction false} FinishHop(js: Bytes, cap: nat, pos: nat, s: Scan, n: nat, p: nat, next: Scan, rest: Bytes)
    requires pos <= |js| && WellFormed(s) && Hops(js, cap, pos, s, n, p, next, rest)
    ensures if |s.toks| + n <= cap
            then p <= |js| && WellFormed(next) && Run(js, pos, s, cap, true) == Run(js, p, next, cap, true)
            else Run(js, pos, s, cap, true) == Err(NoMem)
  {
  }

  /** What follows the root of a printed text is its trailing blanks. */
  lemma {:induction false} RootEnd(d: Doc)
    requires ValidDoc(d) && |PrintDoc(d)| < UNSET
    ensures |d.lead| + Len(d.root) <= |PrintDoc(d)| && PrintDoc(d)[|d.lead| + Len(d.root)..] == d.trail
  {
    hide Run, Step, Hops, LastOpen, Preorder, AfterValue, Print, Size, Len, Valid, Blank;
    var js, cap := PrintDoc(d), Size(d.root);
    PrintLength(d.root, d.trail);
    assert js[|d.lead|..] == Print(d.root, d.trail);
    HopValue(js, cap, |d.lead|, START, d.root, d.trail);
    Landed(js, cap, |d.lead|, START, cap, |d.lead| + Len(d.root), AfterValue(START, d.root, |d.lead|), d.trail);
  }

  // ---- Soundness -------------------------------------------------------------------------------

  /** A closed token keeps its place and its span to the end of the run. */
  lemma {:induction false} ClosedStays(js: Bytes, pos: nat, s: Scan, cap: nat, k: nat)
    requires pos <= |js| && WellFormed(s) && k < |s.toks| && !IsOpen(s.toks[k]) && Run(js, pos, s, cap, true).Ok?
    ensures var toks := Run(js, pos, s, cap, true).value; k < |toks| && toks[k] == s.toks[k]
    decreases |js| - pos
  {
    if pos < |js| && js[pos] != '\0' {
      var (next, p) := Step(js, pos, s, cap, true).value;
      assert k < |next.toks| && next.toks[k] == s.toks[k];
      ClosedStays(js, p, next, cap, k);
    }
  }

  /** Where the first byte that is not blank is; the end of `js` if all are. */
  lemma {:induction false} SkipLead(js: Bytes, cap: nat, pos: nat) returns (p: nat)
    requires pos <= |js|
    ensures pos <= p <= |js| && Blank(js[pos..p]) && (p < |js| ==> !IsBlank(js[p]))
    ensures Run(js, pos, START, cap, true) == Run(js, p, START, cap, true)
    decreases |js| - pos
  {
    hide Run, Step;
    if pos < |js| && IsBlank(js[pos]) {
      BlankStep(js, cap, pos, START);
      p := SkipLead(js, cap, pos + 1);
      assert js[pos..p] == [js[pos]] + js[pos + 1..p];
    } else {
      p := pos;
    }
  }

  lemma {:induction false} MustOpenRoot(js: Bytes, cap: nat, pos: nat)
    requires Accepting(js, cap, pos, START) && Run(js, pos, START, cap, true).value != []
    requires pos < |js| ==> !IsBlank(js[pos])
    ensures pos < |js| && js[pos] == '{'
  {
  }

  /** An accepted text is a printed tree. */
  lemma {:induction false} Sound(js: Bytes, cap: nat) returns (d: Doc)
    requires |js| < UNSET && Accepts(js, cap)
    ensures ValidDoc(d) && PrintDoc(d) == js && Size(d.root) <= cap
    ensures Parse(js, cap, true) == Ok(DocTokens(d))
  {
    hide Run, Step, Hops;
    var p := SkipLead(js, cap, 0);
    MustOpenRoot(js, cap, p);
    var root, end := SoundObject(js, cap, p, START);
    d := Doc(js[..p], root, js[end..]);
    SoundRoot(js, cap, p, root, end);
  }

  lemma {:induction false} SoundRoot(js: Bytes, cap: nat, p: nat, root: Value, end: nat)
    requires Accepting(js, cap, p, START) && BlankAfterRoot(js, Run(js, p, START, cap, true).value) && Blank(js[..p])
    requires root.Obj? && Valid(root) && p < end == p + Len(root) <= |js| && At(js, p, Print(root, js[end..]))
    ensures PrintDoc(Doc(js[..p], root, js[end..])) == js && Blank(js[end..]) && Size(root) <= cap
    ensures Run(js, p, START, cap, true) == Ok(Preorder(root, p))
  {
    hide Run, Step, Hops, Print, Len, Valid, NulFree, Preorder, AfterValue;
    var s := AfterValue(START, root, p);
    assert js == js[..p] + js[p..];
    HopValue(js, cap, p, START, root, js[end..]);
    AcceptHop(js, cap, p, START, Size(root), end, s, js[end..]);
    RootState(root, p);
    ClosedStays(js, end, s, cap, 0);
    RunBlank(js, end, s, cap);
  }

  lemma {:induction false} RootState(root: Value, p: nat)
    requires root.Obj? && p + Len(root) < UNSET
    ensures AfterValue(START, root, p) == Scan(Preorder(root, p), -1, Done) && LastOpen(Preorder(root, p)) == -1
    ensures |Preorder(root, p)| == Size(root) && !IsOpen(Preorder(root, p)[0]) &&
            Preorder(root, p)[0].end == p + Len(root)
  {
    PreorderShape(root, p);
    LastOpenAppend([], Preorder(root, p));
    assert [] + Preorder(root, p) == Preorder(root, p);
  }

  // ---- The language ----------------------------------------------------------------------------

  /** Exactly the printed trees are accepted, and the tokens are those of the tree. */
  lemma {:induction false} Recognises(js: Bytes, cap: nat)
    requires |js| < UNSET
    ensures Accepts(js, cap) <==> exists d :: ValidDoc(d) && PrintDoc(d) == js && Size(d.root) <= cap
    ensures forall d | ValidDoc(d) && PrintDoc(d) == js ::
              Parse(js, cap, true) == if Size(d.root) <= cap then Ok(DocTokens(d)) else Err(NoMem)
  {
    if Accepts(js, cap) {
      var d := Sound(js, cap);
    }
    forall d | ValidDoc(d) && PrintDoc(d) == js
      ensures Parse(js, cap, true) == if Size(d.root) <= cap then Ok(DocTokens(d)) else Err(NoMem)
      ensures Size(d.root) <= cap ==> Accepts(js, cap)
    {
      Complete(d, cap);
    }
  }
}
