/** Which items of a review can be shown, in terms of the values they stand for. */
module Showable {
  import opened Base
  import opened Errors
  import opened Syntax
  import opened JsmnSpec
  import opened Json
  import opened Lookups
  import opened Nodes
  import opened ItemSpec
  import opened Review
  import opened ReviewProof
  import opened RenderSpec
  import opened ParserSpec
  import FeeSpec
  import RenderProof

  /** What a fee may take of the screen buffer, after `KDA `. */
  const FEE_ROOM := 295

  // ---- Which lines can be shown ----------------------------------------------------------------

  /** The line is of a value that its renderer can read. */
  predicate Shaped(line: Line) {
    match line.render
    case GasText => line.value.Obj?
    case MaxFeeText => line.value.Obj?
    case CapName => line.value.Obj?
    case CapNamespace => line.value.Obj?
    case RotateText => line.value.Obj?
    case UnknownText => line.value.Obj? && Get(line.value, "args").Some? && line.canDisplay == Fits(line.value)
    case NoRender => false
    case _ => true
  }

  predicate GasGiven(meta: Value) { Get(meta, "gasLimit").Some? && Get(meta, "gasPrice").Some? }

  /** What the renderer reads is there and not empty, fits the screen buffer, and a fee is within its caps. */
  predicate LineShows(line: Line) {
    match line.render
    case Std => 0 < |Text(line.value)| < VALUE_BUF
    case AmountText => 0 < |Text(line.value)| < VALUE_BUF - 4
    case GasText =>
      GasGiven(line.value) &&
      |Text(Get(line.value, "gasLimit").value)| + |Text(Get(line.value, "gasPrice").value)| < VALUE_BUF - 18
    case MaxFeeText =>
      GasGiven(line.value) &&
      FeeSpec.MaxFee(Text(Get(line.value, "gasLimit").value), Text(Get(line.value, "gasPrice").value), FEE_ROOM).Some?
    case CapName => 0 < |SplitNamespace(NameOf(line.value)).1| < VALUE_BUF
    case CapNamespace =>
      SplitNamespace(NameOf(line.value)).0.Some? && 0 < |SplitNamespace(NameOf(line.value)).0.value| < VALUE_BUF
    case RotateText => ArgsOf(line.value) != [] && |Text(ArgsOf(line.value)[0])| < VALUE_BUF - 2
    case _ => true
  }

  /** What the renderers need beside the document fits as well. */
  predicate ContextFits(c: Context) {
    |c.hash| < VALUE_BUF && c.address.Some? && |c.address.value| < VALUE_BUF && |Decimal(c.nsigners)| < VALUE_BUF
  }

  lemma {:induction false} GasShown(j: Json, at: nat, meta: Value)
    requires Node(j, at, meta) && meta.Obj?
    ensures GasTokens(j, at).Ok? <==> GasGiven(meta)
    ensures GasGiven(meta) ==> j.Span(GasTokens(j, at).value.0) == Text(Get(meta, "gasLimit").value)
    ensures GasGiven(meta) ==> j.Span(GasTokens(j, at).value.1) == Text(Get(meta, "gasPrice").value)
  {
    hide Node, Child, JsonData.GetResult, Print;
    NodeGet(j, at, meta, "gasLimit");
    NodeGet(j, at, meta, "gasPrice");
    if GasGiven(meta) {
      NodeTells(j, j.GetResult(at, "gasLimit").value, Get(meta, "gasLimit").value);
      NodeTells(j, j.GetResult(at, "gasPrice").value, Get(meta, "gasPrice").value);
    }
  }

  lemma {:induction false} NameShows(j: Json, item: Item, cap: Value, c: Context)
    requires Node(j, item.token, cap) && cap.Obj? && (item.render == CapName || item.render == CapNamespace)
    ensures Rendered(j, item, c).Ok? <==> LineShows(Line(item.title, item.render, cap, true))
  {
    hide Node, Child, JsonData.GetResult, NameOf, IndexOf;
    NameIs(j, item.token, cap);
    NodeGet(j, item.token, cap, "name");
    assert IndexOf([], '.') == 0;
  }

  lemma {:induction false} RotateShows(j: Json, item: Item, cap: Value, c: Context)
    requires Node(j, item.token, cap) && cap.Obj? && item.render == RotateText
    ensures Rendered(j, item, c).Ok? <==> LineShows(Line(item.title, item.render, cap, true))
  {
    hide Node, Child, JsonData.GetResult, JsonData.Elements, Kids, Text;
    CapArgs(j, item.token, cap);
    NodeGet(j, item.token, cap, "args");
    if Get(cap, "args").Some? { NodeKids(j, j.GetResult(item.token, "args").value, Get(cap, "args").value); }
  }

  lemma {:induction false} FixedTexts()
    ensures |WARNING_TEXT| < VALUE_BUF && |HASH_WARNING_TEXT| < VALUE_BUF && |CAUTION_TEXT| < VALUE_BUF
    ensures |TX_TOO_LARGE_TEXT| < VALUE_BUF && |ROTATE_WARNING_TEXT| < VALUE_BUF && |NOT_PRINCIPAL_TEXT| < VALUE_BUF
    ensures |CAP_NOT_VERIFIED_TEXT| < VALUE_BUF
  {
  }

  /** An item can be shown exactly if its line can. */
  lemma {:induction false} ItemShows(j: Json, item: Item, line: Line, c: Context)
    requires StandsFor(j, item, line) && Shaped(line) && ContextFits(c)
    ensures Rendered(j, item, c).Ok? <==> LineShows(line)
  {
    hide Node, Child, JsonData.GetResult, Print, SplitNamespace, FeeSpec.Parse, FeeSpec.Product, GasTokens, GasGiven,
      Fits, NameOf, ArgsOf, RenderSpec.Decimal;
    FixedTexts();
    var v := line.value;
    match line.render
    case Std => NodeTells(j, item.token, v);
    case AmountText => NodeTells(j, item.token, v);
    case GasText => GasShown(j, item.token, v);
    case MaxFeeText => GasShown(j, item.token, v);
    case CapName => NameShows(j, item, v, c);
    case CapNamespace => NameShows(j, item, v, c);
    case RotateText => RotateShows(j, item, v, c);
    case UnknownText => RenderProof.UnknownFits(j, item, v, c);
    case _ =>
  }

  /** At most `n` lines, which can all be shown exactly if `ok`. */
  predicate Fine(lines: seq<Line>, n: nat, ok: bool) {
    |lines| <= n && (forall i | 0 <= i < |lines| :: Shaped(lines[i])) &&
    (ok <==> forall i | 0 <= i < |lines| :: Shaped(lines[i]) && LineShows(lines[i]))
  }

  lemma {:induction false} FineCat(a: seq<Line>, n: nat, p: bool, b: seq<Line>, m: nat, q: bool)
    requires Fine(a, n, p) && Fine(b, m, q)
    ensures Fine(a + b, n + m, p && q)
  {
    hide Shaped, LineShows;
    var s := a + b;
    forall i | 0 <= i < |s| ensures Shaped(s[i]) { assert s[i] == if i < |a| then a[i] else b[i - |a|]; }
    if p && q {
      forall i | 0 <= i < |s| ensures LineShows(s[i]) { assert s[i] == if i < |a| then a[i] else b[i - |a|]; }
    } else if p {
      var i :| 0 <= i < |b| && !LineShows(b[i]);
      assert s[|a| + i] == b[i];
    } else {
      var i :| 0 <= i < |a| && !LineShows(a[i]);
      assert s[i] == a[i];
    }
  }

  lemma {:induction false} FineNone()
    ensures Fine([], 0, true)
  {
  }

  lemma {:induction false} FineOne(line: Line)
    requires Shaped(line)
    ensures Fine([line], 1, LineShows(line))
  {
    hide Shaped, LineShows;
    assert [line][0] == line;
  }

  lemma {:induction false} FinePlain(title: Title, render: Render)
    requires !Reads(render) && render != NoRender
    ensures Fine(Plain(title, render), 1, true)
  {
    FineOne(Line(title, render, NONE, true));
  }

  /** A review can be shown exactly if its lines can. */
  lemma {:induction false} ItemsShow(j: Json, r: ParserSpec.Review, lines: seq<Line>, n: nat, ok: bool)
    requires Mirrors(j, r.items, lines) && Fine(lines, n, ok) && ContextFits(r.context)
    ensures Shows(j, r) <==> ok
  {
    hide Shaped, LineShows, StandsFor, Rendered, ContextFits;
    forall i | 0 <= i < |lines| ensures Rendered(j, r.items[i], r.context).Ok? <==> LineShows(lines[i]) {
      ItemShows(j, r.items[i], lines[i], r.context);
    }
    if !ok { var i :| 0 <= i < |lines| && !LineShows(lines[i]); }
  }

  /** No more than that may be said in fewer lines. */
  lemma {:induction false} FineMore(lines: seq<Line>, n: nat, m: nat, ok: bool)
    requires Fine(lines, n, ok) && n <= m
    ensures Fine(lines, m, ok)
  {
    hide Shaped, LineShows;
  }

  // ---- What is not refused ---------------------------------------------------------------------

  lemma {:induction false} ThenPasses(a: Build, b: Build)
    ensures Then(a, b).failure == None <==> a.failure == None && b.failure == None
  {
  }

  lemma {:induction false} StrShown(j: Json, at: nat, s: Bytes)
    requires Node(j, at, Str(s)) && !HasBackslash(s)
    ensures ShownUnescaped(j, at)
  {
    hide Node, Print;
    NodeTells(j, at, Str(s));
  }

  lemma {:induction false} PrimInteger(j: Json, at: nat, s: Bytes)
    requires Node(j, at, Prim(s)) && s != []
    ensures PlainInteger(j, at) <==> Digits(s)
  {
    hide Node, Print, Digits;
    NodeTells(j, at, Prim(s));
  }
}
