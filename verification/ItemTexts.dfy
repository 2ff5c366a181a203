/** What each item of a review says, in terms of the value that its line is about. */
module ItemTexts {
  import opened Base
  import opened Errors
  import opened Syntax
  import opened JsmnSpec
  import opened Json
  import opened Lookups
  import opened Nodes
  import opened ItemSpec
  import opened Review
  import opened ReviewProof
  import opened RenderSpec
  import opened Showable
  import Spelling
  import FeeSpec
  import D = Decimal

  // ---- The parts of a text ---------------------------------------------------------------------

  /** The plain decimal text of a number. */
  ghost predicate Numeral(text: Bytes, n: nat) { FeeSpec.Canonical(text) && D.Denotes(text, n as real) }

  /** The plain decimal text of the product of two numbers. */
  ghost predicate IsFee(fee: Bytes, limit: Bytes, price: Bytes) {
    D.Read(limit).Some? && D.Read(price).Some? &&
    FeeSpec.Canonical(fee) && D.Denotes(fee, FeeSpec.FeeValue(limit, price))
  }

  predicate TwoDots(name: Bytes) { exists i, k | 0 <= i < k < |name| :: name[i] == '.' && name[k] == '.' }

  /** `namespace.rest`, where the namespace has no dot and the rest has one. */
  predicate Qualifies(name: Bytes, namespace: Bytes, rest: Bytes) {
    '.' !in namespace && '.' in rest && name == namespace + ("." + rest)
  }

  /** The name of a capability without its namespace. */
  ghost predicate Unqualified(name: Bytes, rest: Bytes) {
    if TwoDots(name) then exists namespace :: Qualifies(name, namespace, rest) else rest == name
  }

  /** The arguments as they stand in the document, numbered from 1. */
  function Numbered(args: seq<Value>, n: nat): seq<Bytes>
    requires n + |args| < 10
  {
    if args == [] then []
    else ["arg " + [('1' as int + n) as char] + ": " + Print(args[0], [])] + Numbered(args[1..], n + 1)
  }

  function Commas(texts: seq<Bytes>): Bytes {
    if texts == [] then [] else if |texts| == 1 then texts[0] else texts[0] + ", " + Commas(texts[1..])
  }

  // ---- What a line says ------------------------------------------------------------------------

  /** What the item of a line says. */
  ghost predicate LineSays(line: Line, c: Context, text: Bytes) {
    var v := line.value;
    match line.render
    case NoRender => false
    case Std => text == Text(v)
    case AmountText => text == "KDA " + Text(v)
    case GasText =>
      GasGiven(v) &&
      text == "at most " + Text(Get(v, "gasLimit").value) + " at price " + Text(Get(v, "gasPrice").value)
    case MaxFeeText =>
      GasGiven(v) && "KDA " <= text &&
      IsFee(text[4..], Text(Get(v, "gasLimit").value), Text(Get(v, "gasPrice").value))
    case RotateText => ArgsOf(v) != [] && text == "\"" + Text(ArgsOf(v)[0]) + "\""
    case CapName => Unqualified(NameOf(v), text)
    case CapNamespace => exists rest :: Qualifies(NameOf(v), text, rest)
    case UnknownText =>
      if !Fits(v) then text == "args cannot be displayed on Ledger"
      else if ArgsOf(v) == [] then text == "no args"
      else |ArgsOf(v)| <= 5 && text == Commas(Numbered(ArgsOf(v), 0))
    case HashText => text == c.hash
    case SignForAddrText => c.address == Some(text)
    case SignersText => Numeral(text, c.nsigners)
    case WarningText => text == WARNING_TEXT
    case HashWarningText => text == HASH_WARNING_TEXT
    case CautionText => text == CAUTION_TEXT
    case TxTooLarge => text == TX_TOO_LARGE_TEXT
    case RotateWarning => text == ROTATE_WARNING_TEXT
    case NotPrincipal => text == NOT_PRINCIPAL_TEXT
    case CapNotVerified => text == CAP_NOT_VERIFIED_TEXT
    case SigningText => text == "Transaction"
    case RequiringText => text == "Capabilities"
    case TransferText => text == "Normal Transfer"
    case CrossTransferText => text == "Cross-chain Transfer"
    case ExecText => text == "exec (code)"
    case ContText => text == "cont (continuation)"
  }

  // ---- Numbers and names -----------------------------------------------------------------------

  lemma {:induction false} PushText(ds: seq<nat>, d: nat)
    requires D.AllDigits(ds) && d < 10
    ensures D.AllDigits(ds + [d]) && D.Text(ds + [d]) == D.Text(ds) + [('0' as int + d) as char]
  {
  }

  lemma {:induction false} DecimalText(n: nat)
    requires n > 0
    ensures RenderSpec.Decimal(n) == D.Text(FeeSpec.ToDigits(n))
  {
    PushText(FeeSpec.ToDigits(n / 10), n % 10);
    if n >= 10 { DecimalText(n / 10); } else { assert FeeSpec.ToDigits(0) == []; }
  }

  /** A number is shown by its plain decimal text. */
  lemma {:induction false} DecimalSays(n: nat)
    ensures Numeral(RenderSpec.Decimal(n), n)
  {
    hide FeeSpec.Canonical, D.Denotes, D.Num, FeeSpec.ToDigits;
    var ds := FeeSpec.ToDigits(n);
    FeeSpec.ToDigitsNum(n);
    FeeSpec.ShownDenotes(ds, 0);
    assert ds + D.Zeros(0) == ds;
    if n > 0 { DecimalText(n); } else { assert D.Text([0]) == "0"; }
    assert FeeSpec.Shown(ds, 0) == RenderSpec.Decimal(n);
  }

  lemma {:induction false} SecondDot(name: Bytes, dot: nat)
    requires dot == IndexOf(name, '.')
    ensures TwoDots(name) <==> dot < |name| && '.' in name[dot + 1..]
  {
    hide IndexOf;
    if TwoDots(name) {
      var i, k :| 0 <= i < k < |name| && name[i] == '.' && name[k] == '.';
      assert dot <= i && name[dot + 1..][k - dot - 1] == '.';
    }
    if dot < |name| && '.' in name[dot + 1..] {
      var k :| 0 <= k < |name[dot + 1..]| && name[dot + 1..][k] == '.';
      assert name[dot] == '.' && name[dot + 1 + k] == '.';
    }
  }

  /** A namespace is taken off exactly if the name has two dots. */
  lemma {:induction false} SplitSays(name: Bytes)
    ensures var (namespace, rest) := SplitNamespace(name);
            && (namespace.Some? <==> TwoDots(name))
            && (if namespace.Some? then Qualifies(name, namespace.value, rest) else rest == name)
  {
    hide IndexOf, TwoDots;
    var dot := IndexOf(name, '.');
    SecondDot(name, dot);
    if dot < |name| { assert name == name[..dot] + ("." + name[dot + 1..]); }
  }

  // ---- Arguments -------------------------------------------------------------------------------

  lemma {:induction false} NumberedLength(args: seq<Value>, n: nat)
    requires n + |args| < 10
    ensures |Numbered(args, n)| == |args|
  {
    hide Print;
    if args != [] { NumberedLength(args[1..], n + 1); }
  }

  lemma {:induction false} OneDigit(n: nat)
    requires n < 9
    ensures RenderSpec.Decimal(n + 1) == [('1' as int + n) as char]
  {
  }

  lemma {:induction false} ArgsSay(j: Json, args: seq<nat>, kids: seq<Value>, n: nat)
    requires |args| == |kids| < 10 && n < |args| && forall i | 0 <= i < |args| :: Tells(j, args[i], kids[i])
    ensures ArgsText(j, args, n) == Commas(Numbered(kids[n..], n))
    decreases |args| - n
  {
    hide Tells, ArgText, Print, RenderSpec.Decimal;
    var rest := kids[n + 1..];
    assert kids[n..][1..] == rest && kids[n..][0] == kids[n];
    OneDigit(n);
    Spelling.ArgIsText(j, args[n], kids[n]);
    NumberedLength(rest, n + 1);
    var first := "arg " + [('1' as int + n) as char] + ": " + Print(kids[n], []);
    var texts := Numbered(kids[n..], n);
    assert texts == [first] + Numbered(rest, n + 1) && texts[1..] == Numbered(rest, n + 1);
    if n + 1 < |args| {
      ArgsSay(j, args, kids, n + 1);
      assert first + ", " + ArgsText(j, args, n + 1) == first + (", " + ArgsText(j, args, n + 1));
    } else {
      assert first + [] == first;
    }
  }

  lemma {:induction false} UnknownSays(j: Json, item: Item, line: Line, c: Context)
    requires StandsFor(j, item, line) && Shaped(line) && line.render == UnknownText && Rendered(j, item, c).Ok?
    ensures LineSays(line, c, Rendered(j, item, c).value)
  {
    hide Node, JsonData.GetResult, JsonData.Elements, Child, Kids, ArgsText, Text, Tells, Numbered, Commas;
    var cap := line.value;
    CapArgs(j, item.token, cap);
    var args, v := j.GetResult(item.token, "args").value, Get(cap, "args").value;
    NodeKids(j, args, v);
    if item.canDisplay && Kids(v) != [] {
      ArgsSay(j, j.Elements(args), Kids(v), 0);
      assert Kids(v)[0..] == Kids(v);
    }
  }

  lemma {:induction false} RotateSays(j: Json, item: Item, line: Line, c: Context)
    requires StandsFor(j, item, line) && Shaped(line) && line.render == RotateText && Rendered(j, item, c).Ok?
    ensures LineSays(line, c, Rendered(j, item, c).value)
  {
    hide Node, JsonData.GetResult, JsonData.Elements, Child, Kids, Text;
    var cap := line.value;
    CapArgs(j, item.token, cap);
    NodeKids(j, j.GetResult(item.token, "args").value, Get(cap, "args").value);
  }

  // ---- The other renderers that read the document ----------------------------------------------

  lemma {:induction false} NameSays(j: Json, item: Item, line: Line, c: Context)
    requires StandsFor(j, item, line) && Shaped(line) && Rendered(j, item, c).Ok?
    requires line.render == CapName || line.render == CapNamespace
    ensures LineSays(line, c, Rendered(j, item, c).value)
  {
    hide Node, JsonData.GetResult, Child, NameOf, SplitNamespace, TwoDots, Qualifies;
    NameIs(j, item.token, line.value);
    SplitSays(NameOf(line.value));
    var (namespace, rest) := SplitNamespace(NameOf(line.value));
    if namespace.Some? { assert Qualifies(NameOf(line.value), namespace.value, rest); }
  }

  lemma {:induction false} FeeSays(limit: Bytes, price: Bytes)
    requires FeeSpec.Parse(limit).Some? && FeeSpec.Parse(price).Some?
    ensures IsFee(FeeSpec.Product(FeeSpec.Parse(limit).value, FeeSpec.Parse(price).value), limit, price)
  {
    hide FeeSpec.Product, FeeSpec.Canonical, D.Denotes, D.Read, FeeSpec.FeeValue;
    FeeSpec.ProductText(limit, price);
  }

  lemma {:induction false} BothParsed(j: Json, item: Item, c: Context)
    requires item.render == MaxFeeText && Rendered(j, item, c).Ok?
    ensures GasTokens(j, item.token).Ok?
    ensures var (gl, gp) := GasTokens(j, item.token).value;
            && FeeSpec.Parse(j.Span(gl)).Some? && FeeSpec.Parse(j.Span(gp)).Some?
            && Rendered(j, item, c).value ==
               "KDA " + FeeSpec.Product(FeeSpec.Parse(j.Span(gl)).value, FeeSpec.Parse(j.Span(gp)).value)
  {
    hide GasTokens, FeeSpec.Parse, FeeSpec.Product, JsonData.Span;
  }

  lemma {:induction false} GasSays(j: Json, item: Item, line: Line, c: Context)
    requires StandsFor(j, item, line) && Shaped(line) && Rendered(j, item, c).Ok?
    requires line.render == GasText || line.render == MaxFeeText
    ensures LineSays(line, c, Rendered(j, item, c).value)
  {
    hide Node, Child, GasTokens, FeeSpec.Parse, FeeSpec.Product, IsFee, JsonData.Span, Text;
    GasShown(j, item.token, line.value);
    if line.render == MaxFeeText {
      var limit, price := Text(Get(line.value, "gasLimit").value), Text(Get(line.value, "gasPrice").value);
      BothParsed(j, item, c);
      FeeSays(limit, price);
      var fee := FeeSpec.Product(FeeSpec.Parse(limit).value, FeeSpec.Parse(price).value);
      assert ("KDA " + fee)[4..] == fee;
    }
  }

  lemma {:induction false} TextSays(j: Json, item: Item, line: Line, c: Context)
    requires StandsFor(j, item, line) && Rendered(j, item, c).Ok? && (line.render == Std || line.render == AmountText)
    ensures LineSays(line, c, Rendered(j, item, c).value)
  {
    hide Node, Print;
    NodeTells(j, item.token, line.value);
  }

  /** An item that can be shown says what its line says. */
  lemma {:induction false} ItemSays(j: Json, item: Item, line: Line, c: Context)
    requires StandsFor(j, item, line) && Shaped(line) && Rendered(j, item, c).Ok?
    ensures LineSays(line, c, Rendered(j, item, c).value)
  {
    if line.render in {GasText, MaxFeeText} {
      GasSays(j, item, line, c);
    } else if line.render in {CapName, CapNamespace} {
      NameSays(j, item, line, c);
    } else if line.render in {Std, AmountText} {
      TextSays(j, item, line, c);
    } else if line.render == RotateText {
      RotateSays(j, item, line, c);
    } else if line.render == UnknownText {
      UnknownSays(j, item, line, c);
    } else {
      PlainSays(j, item, line, c);
    }
  }

  lemma {:induction false} PlainSays(j: Json, item: Item, line: Line, c: Context)
    requires StandsFor(j, item, line) && Rendered(j, item, c).Ok? && !Reads(line.render)
    ensures LineSays(line, c, Rendered(j, item, c).value)
  {
    hide Node, RenderSpec.Decimal, Numeral;
    DecimalSays(c.nsigners);
  }

  function Warnings(): seq<Bytes> {
    [WARNING_TEXT, HASH_WARNING_TEXT, CAUTION_TEXT, TX_TOO_LARGE_TEXT, ROTATE_WARNING_TEXT, NOT_PRINCIPAL_TEXT,
     CAP_NOT_VERIFIED_TEXT]
  }

  lemma {:induction false} FirstLetters()
    ensures WARNING_TEXT[0] == 'U' && HASH_WARNING_TEXT[0] == 'B' && CAUTION_TEXT[0] == '\''
    ensures ROTATE_WARNING_TEXT[0] == 'A' && NOT_PRINCIPAL_TEXT[0] == 'R' && CAP_NOT_VERIFIED_TEXT[0] == 'C'
  {
  }

  lemma {:induction false} LargeLetter()
    ensures TX_TOO_LARGE_TEXT[0] == 'T'
  {
    var head := "Transaction too large for Ledger to display.";
    var rest := "  PROCEED WITH GREAT CAUTION.";
    assert head[0] == 'T' && (head + rest)[0] == head[0];
  }

  /** No warning can be taken for another. */
  lemma {:induction false} WarningsDiffer(i: nat, k: nat)
    requires i < k < 7
    ensures Warnings()[i] != Warnings()[k]
  {
    FirstLetters();
    LargeLetter();
    assert Warnings()[i][0] != Warnings()[k][0];
  }

  // ---- And nothing else ------------------------------------------------------------------------

  lemma {:induction false} DotAt(name: Bytes, namespace: Bytes, rest: Bytes)
    requires Qualifies(name, namespace, rest)
    ensures |namespace| < |name| && name[|namespace|] == '.' && name[..|namespace|] == namespace
    ensures name[|namespace| + 1..] == rest && forall k | 0 <= k < |namespace| :: name[k] != '.'
  {
    assert forall k | 0 <= k < |namespace| :: name[k] == namespace[k] && namespace[k] in namespace;
  }

  lemma {:induction false} OneNamespace(name: Bytes, a: Bytes, b: Bytes, x: Bytes, y: Bytes)
    requires Qualifies(name, a, x) && Qualifies(name, b, y)
    ensures a == b && x == y
  {
    hide Qualifies;
    DotAt(name, a, x);
    DotAt(name, b, y);
    assert |a| == |b|;
  }

  lemma {:induction false} OneFee(s: Bytes, t: Bytes, limit: Bytes, price: Bytes)
    requires IsFee(s, limit, price) && IsFee(t, limit, price)
    ensures s == t
  {
    hide FeeSpec.Canonical, D.Denotes, D.Read, FeeSpec.FeeValue;
    FeeSpec.CanonicalUnique(s, t, FeeSpec.FeeValue(limit, price));
  }

  lemma {:induction false} OneNumeral(s: Bytes, t: Bytes, n: nat)
    requires Numeral(s, n) && Numeral(t, n)
    ensures s == t
  {
    hide FeeSpec.Canonical, D.Denotes;
    FeeSpec.CanonicalUnique(s, t, n as real);
  }

  lemma {:induction false} OneName(line: Line, c: Context, s: Bytes, t: Bytes)
    requires LineSays(line, c, s) && LineSays(line, c, t) && line.render in {CapName, CapNamespace}
    ensures s == t
  {
    hide TwoDots, Qualifies, NameOf;
    var name := NameOf(line.value);
    if line.render == CapNamespace {
      var x :| Qualifies(name, s, x);
      var y :| Qualifies(name, t, y);
      OneNamespace(name, s, t, x, y);
    } else if TwoDots(name) {
      var a :| Qualifies(name, a, s);
      var b :| Qualifies(name, b, t);
      OneNamespace(name, a, b, s, t);
    }
  }

  /** A line says one thing only. */
  lemma {:induction false} SaysOne(line: Line, c: Context, s: Bytes, t: Bytes)
    requires LineSays(line, c, s) && LineSays(line, c, t)
    ensures s == t
  {
    hide IsFee, Numeral, Unqualified, Qualifies, NameOf, ArgsOf, Fits, Numbered, Commas, GasGiven, Text, Child;
    if line.render in {CapName, CapNamespace} {
      OneName(line, c, s, t);
    } else if line.render == MaxFeeText {
      FeesOf(line, c, s, t);
    } else if line.render == SignersText {
      OneNumeral(s, t, c.nsigners);
    }
  }

  lemma {:induction false} FeesOf(line: Line, c: Context, s: Bytes, t: Bytes)
    requires LineSays(line, c, s) && LineSays(line, c, t) && line.render == MaxFeeText
    ensures s == t
  {
    hide IsFee, Text, Child;
    var v := line.value;
    OneFee(s[4..], t[4..], Text(Get(v, "gasLimit").value), Text(Get(v, "gasPrice").value));
    assert s == s[..4] + s[4..] && t == t[..4] + t[4..] && s[..4] == "KDA " == t[..4];
  }
}
