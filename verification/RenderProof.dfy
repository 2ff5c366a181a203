/** Every capability the review offers to show can be shown. */
module RenderProof {
  import opened Base
  import opened Errors
  import opened Syntax
  import opened JsmnSpec
  import opened Json
  import opened Lookups
  import opened Nodes
  import opened ItemSpec
  import opened Review
  import opened ReviewProof
  import opened RenderSpec
  import opened Rendering
  import opened Recognition
  import opened Documents
  import opened Integrity

  // ---- The spans of a document that was read lie in it -----------------------------------------

  lemma {:induction false} PreorderSane(v: Syntax.Value, pos: nat)
    requires pos + Len(v) < UNSET
    ensures forall t | t in Preorder(v, pos) :: t.start <= t.end <= pos + Len(v)
    decreases v, 1
  {
    match v
    case Str(_) =>
    case Prim(_) =>
    case Arr(_, elems) => if elems != [] { ElemsSane(elems, pos + 1); }
    case Obj(_, members) => if members != [] { MembersSane(members, pos + 1); }
  }

  lemma {:induction false} ElemsSane(es: seq<Elem>, pos: nat)
    requires es != [] && pos + LenElems(es) < UNSET
    ensures forall t | t in ElemTokens(es, pos) :: t.start <= t.end <= pos + LenElems(es)
    decreases es, 0
  {
    hide Preorder, Len;
    PreorderSane(es[0].value, pos + |es[0].lead|);
    if |es| > 1 { ElemsSane(es[1..], pos + |es[0].lead| + Len(es[0].value) + |es[0].trail| + 1); }
  }

  lemma {:induction false} MembersSane(ms: seq<Syntax.Member>, pos: nat)
    requires ms != [] && pos + LenMembers(ms) < UNSET
    ensures forall t | t in MemberTokens(ms, pos) :: t.start <= t.end <= pos + LenMembers(ms)
    decreases ms, 0
  {
    hide Preorder, Len;
    PreorderSane(ms[0].value, pos + LenToValue(ms[0]));
    if |ms| > 1 { MembersSane(ms[1..], pos + LenToValue(ms[0]) + Len(ms[0].value) + |ms[0].trail| + 1); }
  }

  /** The document of an accepted text: its root is token 0, and every token spans bytes of it. */
  lemma {:induction false} ReadDocument(buf: Bytes) returns (d: Doc)
    requires |buf| < UNSET && ReadJson(buf).Ok?
    ensures Readable(d) && PrintDoc(d) == buf && ReadJson(buf).value.buf == buf
    ensures Node(ReadJson(buf).value, 0, d.root) && d.root.Obj? && SaneSpans(ReadJson(buf).value)
  {
    hide ReadJson, Located, Valid, SoundKeys, Print, Preorder, Size;
    d := ReadTree(buf);
    var j := ReadJson(buf).value;
    MakeNode(j, Integrity.Root(d));
    PrintLength(d.root, d.trail);
    PreorderSane(d.root, |d.lead|);
    assert j.tokens == Preorder(d.root, |d.lead|);
    forall i | 0 <= i < |j.tokens| ensures j.tokens[i].start <= j.tokens[i].end <= |j.buf| {
      assert j.tokens[i] in j.tokens;
    }
  }

  // ---- Unknown capabilities --------------------------------------------------------------------

  function SumLen(vs: seq<Syntax.Value>): nat { if vs == [] then 0 else Len(vs[0]) + SumLen(vs[1..]) }

  lemma {:induction false} ElemsLen(es: seq<Elem>)
    requires es != []
    ensures SumLen(ValuesOf(es)) + |es| <= LenElems(es)
    decreases |es|
  {
    hide Len;
    assert ValuesOf(es)[1..] == ValuesOf(es[1..]);
    if |es| > 1 { ElemsLen(es[1..]); } else { assert ValuesOf(es[1..]) == []; }
  }

  lemma {:induction false} MembersLen(ms: seq<Syntax.Member>)
    requires ms != []
    ensures SumLen(KeysAndValues(ms)) + 2 * |ms| <= LenMembers(ms) && |KeysAndValues(ms)| == 2 * |ms|
    decreases |ms|
  {
    var rest := KeysAndValues(ms[1..]);
    var all := KeysAndValues(ms);
    assert all == [Str(ms[0].key), ms[0].value] + rest;
    assert all[1..] == [ms[0].value] + rest && all[1..][1..] == rest;
    assert SumLen(all) == |ms[0].key| + 2 + (Len(ms[0].value) + SumLen(rest));
    if |ms| > 1 { MembersLen(ms[1..]); } else { assert rest == []; }
  }

  /** The kids of a container, the separators and a bracket fit in its text. */
  lemma {:induction false} KidsLen(v: Syntax.Value)
    requires Kids(v) != []
    ensures SumLen(Kids(v)) + |Kids(v)| + 1 <= |Text(v)|
  {
    hide SumLen;
    PrintLength(v, []);
    match v
    case Arr(_, elems) => ElemsLen(elems);
    case Obj(_, members) =>
      if members != [] { MembersLen(members); }
  }

  lemma {:induction false} ArgLength(j: Json, a: nat, v: Syntax.Value)
    requires Tells(j, a, v)
    ensures |ArgText(j, a)| == Len(v)
  {
    PrintLength(v, []);
  }

  lemma {:induction false} ArgsLength(j: Json, args: seq<nat>, kids: seq<Syntax.Value>, n: nat)
    requires |args| == |kids| <= 5 && n < |args| && forall i | 0 <= i < |args| :: Tells(j, args[i], kids[i])
    ensures |ArgsText(j, args, n)| == SumLen(kids[n..]) + 9 * (|args| - n) - 2
    decreases |args| - n
  {
    hide Tells, ArgsText, Len, OneArg;
    ArgsTextStep(j, args, n);
    ArgLength(j, args[n], kids[n]);
    OneArgLength(j, args, n);
    assert kids[n..][1..] == kids[n + 1..];
    if n + 1 < |args| { ArgsLength(j, args, kids, n + 1); } else { assert kids[n + 1..] == []; }
  }

  lemma {:induction false} OneArgLength(j: Json, args: seq<nat>, n: nat)
    requires n < |args| <= 5
    ensures |OneArg(j, args, n)| == 7 + |ArgText(j, args[n])|
  {
  }

  /**
   The arguments of a capability are always shown: in full, in at most 293 bytes, when there are at most
   five of them in at most 256 bytes, and otherwise by a fixed text.
   */
  lemma {:induction false} UnknownFits(j: Json, item: Item, cap: Syntax.Value, c: Context)
    requires item.render == UnknownText && Node(j, item.token, cap) && cap.Obj? && Get(cap, "args").Some?
    requires item.canDisplay == Fits(cap)
    ensures Rendered(j, item, c).Ok? && |Rendered(j, item, c).value| <= 293
  {
    hide Node, JsonData.GetResult, JsonData.Elements, Child, Kids, ArgsText, Text, SumLen, Tells;
    CapArgs(j, item.token, cap);
    var args, v := j.GetResult(item.token, "args").value, Get(cap, "args").value;
    NodeKids(j, args, v);
    if item.canDisplay && Kids(v) != [] {
      KidsLen(v);
      ArgsLength(j, j.Elements(args), Kids(v), 0);
      assert Kids(v)[0..] == Kids(v);
    }
  }
}
