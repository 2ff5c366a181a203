/** What the parts of a shown value can hold: the fixed texts, numbers, digests and pieces of the document. */
module Texts {
  import opened Base
  import opened Json
  import opened ItemSpec
  import opened RenderSpec
  import opened Display
  import FeeSpec
  import D = Decimal
  import T = TransferSpec
  import TR = TemplateReading
  import ParserSpec

  // ---- The parts of a value --------------------------------------------------------------------

  /** What is said of every part of a value. */
  datatype Quality = NoBackslash | OnlyBytes

  predicate Meets(s: Bytes, q: Quality) {
    match q
    case NoBackslash => !HasBackslash(s)
    case OnlyBytes => AllBytes(s)
  }

  /** Printable ASCII without a backslash. */
  predicate Bare(s: Bytes) { forall i | 0 <= i < |s| :: Printable(s[i]) && s[i] != '\\' }

  lemma {:induction false} BareMeets(s: Bytes, q: Quality)
    requires Bare(s)
    ensures Meets(s, q)
  {
  }

  lemma {:induction false} BareCat(a: Bytes, b: Bytes)
    requires Bare(a) && Bare(b)
    ensures Bare(a + b)
  {
  }

  lemma {:induction false} MeetsCat(a: Bytes, b: Bytes, q: Quality)
    requires Meets(a, q) && Meets(b, q)
    ensures Meets(a + b, q)
  {
  }

  // ---- The fixed texts -------------------------------------------------------------------------

  lemma {:induction false} WarningStart()
    ensures Bare("UNSAFE TRANSACTION. This ") && Bare("transaction's code was not recognized ")
    ensures Bare("and does not limit capabilities ") && Bare("for all signers. ")
  {
  }

  lemma {:induction false} WarningEnd()
    ensures Bare("Signing this transaction may ") && Bare("make arbitrary actions on the chain ")
    ensures Bare("including loss of all funds.")
  {
  }

  lemma {:induction false} WarningBare()
    ensures Bare(WARNING_TEXT)
  {
    hide Bare;
    WarningStart();
    WarningEnd();
    var a := "UNSAFE TRANSACTION. This " + "transaction's code was not recognized ";
    var b := a + "and does not limit capabilities " + "for all signers. ";
    BareCat("UNSAFE TRANSACTION. This ", "transaction's code was not recognized ");
    BareCat(a, "and does not limit capabilities ");
    BareCat(a + "and does not limit capabilities ", "for all signers. ");
    BareCat(b, "Signing this transaction may ");
    BareCat(b + "Signing this transaction may ", "make arbitrary actions on the chain ");
    BareCat(b + "Signing this transaction may " + "make arbitrary actions on the chain ",
            "including loss of all funds.");
  }

  lemma {:induction false} HashWarningPieces()
    ensures Bare("Blind Signing a Transaction Hash ") && Bare("is a very unusual operation. ")
    ensures Bare("Do not continue unless you know ") && Bare("what you are doing")
  {
  }

  lemma {:induction false} HashWarningBare()
    ensures Bare(HASH_WARNING_TEXT)
  {
    hide Bare;
    HashWarningPieces();
    var a := "Blind Signing a Transaction Hash " + "is a very unusual operation. ";
    BareCat("Blind Signing a Transaction Hash ", "is a very unusual operation. ");
    BareCat(a, "Do not continue unless you know ");
    BareCat(a + "Do not continue unless you know ", "what you are doing");
  }

  lemma {:induction false} TooLargePieces()
    ensures Bare("Transaction too large for Ledger to display.") && Bare("  PROCEED WITH GREAT CAUTION.")
    ensures Bare("  Do you want to continue?")
  {
  }

  lemma {:induction false} TooLargeBare()
    ensures Bare(TX_TOO_LARGE_TEXT)
  {
    hide Bare;
    TooLargePieces();
    var a := "Transaction too large for Ledger to display.";
    BareCat(a, "  PROCEED WITH GREAT CAUTION.");
    BareCat(a + "  PROCEED WITH GREAT CAUTION.", "  Do you want to continue?");
  }

  lemma {:induction false} NotesBare()
    ensures Bare(CAUTION_TEXT) && Bare(ROTATE_WARNING_TEXT)
  {
  }

  lemma {:induction false} MoreNotesBare()
    ensures Bare(NOT_PRINCIPAL_TEXT) && Bare(CAP_NOT_VERIFIED_TEXT)
  {
  }

  lemma {:induction false} NamesBare()
    ensures Bare("Transaction") && Bare("Capabilities") && Bare("Normal Transfer") && Bare("Cross-chain Transfer")
    ensures Bare("exec (code)") && Bare("cont (continuation)")
  {
  }

  lemma {:induction false} FramesBare()
    ensures Bare("KDA ") && Bare("at most ") && Bare(" at price ") && Bare("\"")
    ensures Bare("arg ") && Bare(": ") && Bare(", ")
    ensures Bare("no args") && Bare("args cannot be displayed on Ledger") && Bare("")
  {
  }

  // ---- Numbers and digests ---------------------------------------------------------------------

  lemma {:induction false} DecimalBare(n: nat)
    ensures Bare(RenderSpec.Decimal(n))
  {
    hide Bare;
    DigitBare(('0' as int + n % 10) as char);
    if n >= 10 {
      DecimalBare(n / 10);
      BareCat(RenderSpec.Decimal(n / 10), [('0' as int + n % 10) as char]);
    }
  }

  lemma {:induction false} DigitBare(c: char)
    requires IsDigit(c)
    ensures Bare([c])
  {
  }

  lemma {:induction false} DigitsBare(s: Bytes)
    requires Digits(s)
    ensures Bare(s)
  {
  }

  lemma {:induction false} DigitTextBare(ds: seq<nat>)
    requires D.AllDigits(ds)
    ensures Bare(D.Text(ds))
  {
    FeeSpec.TextDigits(ds);
    DigitsBare(D.Text(ds));
  }

  lemma {:induction false} ProductBare(a: FeeSpec.Dec, b: FeeSpec.Dec)
    ensures Bare(FeeSpec.Product(a, b))
  {
    hide Bare, D.Text, D.Num;
    var p := FeeSpec.ToDigits(D.Num(a.digits) * D.Num(b.digits));
    var whole, part := FeeSpec.Whole(p, a.scale + b.scale), FeeSpec.Part(p, a.scale + b.scale);
    DigitTextBare(whole);
    DigitTextBare(part);
    PointBare();
    BareCat(".", D.Text(part));
    BareCat(D.Text(whole), if part == [] then [] else "." + D.Text(part));
  }

  lemma {:induction false} PointBare()
    ensures Bare(".") && Bare([])
  {
  }

  lemma {:induction false} HexBare(src: Bytes)
    ensures Bare(T.HexLower(src))
  {
    TR.HexPlain(src);
    assert forall i | 0 <= i < |T.HexLower(src)| :: T.HexLower(src)[i] in T.HexLower(src);
  }

  lemma {:induction false} HashBare(d: Bytes)
    ensures Bare(ParserSpec.HashShown(d))
  {
    hide ParserSpec.Sextet;
  }

  // ---- A whole value ---------------------------------------------------------------------------

  ghost predicate AllSpans(j: Json, q: Quality) { forall t: nat :: Meets(j.Span(t), q) }

  /** The renderers that show arguments as they stand. */
  predicate ShowsArgs(r: Render) { r == UnknownText || r == RotateText }

  predicate FieldMeets(j: Json, at: nat, key: Bytes, q: Quality) {
    j.GetResult(at, key).Ok? ==> Meets(j.Span(j.GetResult(at, key).value), q)
  }

  /** The pieces of the document that the item shows. */
  predicate PiecesMeet(j: Json, item: Item, q: Quality) {
    match item.render
    case Std => Meets(j.Span(item.token), q)
    case AmountText => Meets(j.Span(item.token), q)
    case GasText => FieldMeets(j, item.token, "gasLimit", q) && FieldMeets(j, item.token, "gasPrice", q)
    case CapName => FieldMeets(j, item.token, "name", q)
    case CapNamespace => FieldMeets(j, item.token, "name", q)
    case UnknownText => false
    case RotateText => false
    case _ => true
  }

  predicate ContextBare(c: Context) { Bare(c.hash) && (c.address.Some? ==> Bare(c.address.value)) }

  lemma {:induction false} SliceMeets(s: Bytes, lo: nat, hi: nat, q: Quality)
    requires Meets(s, q) && lo <= hi <= |s|
    ensures Meets(s[lo..hi], q) && Meets(s[lo..], q) && Meets(s[..hi], q)
  {
  }

  lemma {:induction false} BytesInSpans(j: Json)
    requires AllBytes(j.buf)
    ensures AllSpans(j, OnlyBytes)
  {
  }

  lemma {:induction false} FixedMeets(j: Json, item: Item, c: Context, q: Quality)
    requires ContextBare(c) && RenderSpec.Value(j, item, c).Ok? && !Reads(item.render)
    ensures Meets(RenderSpec.Value(j, item, c).value, q)
  {
    hide Bare, Meets, RenderSpec.Decimal;
    WarningBare();
    HashWarningBare();
    TooLargeBare();
    NotesBare();
    MoreNotesBare();
    NamesBare();
    DecimalBare(c.nsigners);
    BareMeets(RenderSpec.Value(j, item, c).value, q);
  }

  lemma {:induction false} AroundMeets(before: Bytes, s: Bytes, after: Bytes, q: Quality)
    requires Bare(before) && Meets(s, q) && Bare(after)
    ensures Meets(before + s, q) && Meets(before + s + after, q)
  {
    hide Bare, Meets;
    BareMeets(before, q);
    BareMeets(after, q);
    MeetsCat(before, s, q);
    MeetsCat(before + s, after, q);
  }

  lemma {:induction false} NameMeets(j: Json, item: Item, c: Context, q: Quality)
    requires RenderSpec.Value(j, item, c).Ok? && (item.render == CapName || item.render == CapNamespace)
    requires FieldMeets(j, item.token, "name", q)
    ensures Meets(RenderSpec.Value(j, item, c).value, q)
  {
    hide Meets, JsonData.GetResult, IndexOf;
    var name := j.Span(j.GetResult(item.token, "name").value);
    var dot := IndexOf(name, '.');
    SliceMeets(name, if dot < |name| then dot + 1 else 0, |name|, q);
    SliceMeets(name, 0, dot, q);
  }

  lemma {:induction false} GasMeets(j: Json, item: Item, c: Context, q: Quality)
    requires RenderSpec.Value(j, item, c).Ok? && item.render == GasText
    requires FieldMeets(j, item.token, "gasLimit", q) && FieldMeets(j, item.token, "gasPrice", q)
    ensures Meets(RenderSpec.Value(j, item, c).value, q)
  {
    hide Meets, JsonData.GetResult, Bare;
    FramesBare();
    var (gl, gp) := GasTokens(j, item.token).value;
    AroundMeets("at most ", j.Span(gl), " at price ", q);
    MeetsCat("at most " + j.Span(gl) + " at price ", j.Span(gp), q);
  }

  lemma {:induction false} FeeMeets(j: Json, item: Item, c: Context, q: Quality)
    requires RenderSpec.Value(j, item, c).Ok? && item.render == MaxFeeText
    ensures Meets(RenderSpec.Value(j, item, c).value, q)
  {
    hide Meets, JsonData.GetResult, Bare, FeeSpec.Parse, FeeSpec.Product;
    FramesBare();
    var (gl, gp) := GasTokens(j, item.token).value;
    var a, b := FeeSpec.Parse(j.Span(gl)).value, FeeSpec.Parse(j.Span(gp)).value;
    ProductBare(a, b);
    BareMeets(FeeSpec.Product(a, b), q);
    AroundMeets("KDA ", FeeSpec.Product(a, b), "", q);
  }

  lemma {:induction false} ArgMeets(j: Json, a: nat, q: Quality)
    requires AllSpans(j, q)
    ensures Meets(ArgText(j, a), q)
  {
    hide Meets, Bare;
    FramesBare();
    AroundMeets("\"", j.Span(a), "\"", q);
  }

  lemma {:induction false} ArgsMeet(j: Json, args: seq<nat>, n: nat, q: Quality)
    requires AllSpans(j, q) && n < |args|
    ensures Meets(ArgsText(j, args, n), q)
    decreases |args| - n
  {
    hide Meets, Bare, RenderSpec.Decimal, ArgText;
    FramesBare();
    DecimalBare(n + 1);
    ArgMeets(j, args[n], q);
    BareCat("arg ", RenderSpec.Decimal(n + 1));
    BareCat("arg " + RenderSpec.Decimal(n + 1), ": ");
    var head := "arg " + RenderSpec.Decimal(n + 1) + ": ";
    AroundMeets(head, ArgText(j, args[n]), "", q);
    if n + 1 == |args| {
      assert head + ArgText(j, args[n]) + [] == head + ArgText(j, args[n]);
    } else {
      ArgsMeet(j, args, n + 1, q);
      AroundMeets(", ", ArgsText(j, args, n + 1), "", q);
      MeetsCat(head + ArgText(j, args[n]), ", " + ArgsText(j, args, n + 1), q);
    }
  }

  lemma {:induction false} ArgumentsMeet(j: Json, item: Item, c: Context, q: Quality)
    requires RenderSpec.Value(j, item, c).Ok? && ShowsArgs(item.render) && AllSpans(j, q)
    ensures Meets(RenderSpec.Value(j, item, c).value, q)
  {
    hide Meets, JsonData.GetResult, JsonData.Elements, Bare, ArgsText;
    FramesBare();
    if item.render == RotateText {
      AroundMeets("\"", j.Span(j.Elements(j.GetResult(item.token, "args").value)[0]), "\"", q);
    } else if !item.canDisplay {
      BareMeets("args cannot be displayed on Ledger", q);
    } else {
      var list := j.Elements(j.GetResult(item.token, "args").value);
      BareMeets("no args", q);
      if list != [] { ArgsMeet(j, list, 0, q); }
    }
  }

  /** The value meets what its pieces meet. */
  lemma {:induction false} ValueMeets(j: Json, item: Item, c: Context, q: Quality)
    requires ContextBare(c) && (AllSpans(j, q) || PiecesMeet(j, item, q)) && RenderSpec.Value(j, item, c).Ok?
    ensures Meets(RenderSpec.Value(j, item, c).value, q)
  {
    hide Meets, JsonData.GetResult, JsonData.Span, Bare, ContextBare;
    if !Reads(item.render) {
      FixedMeets(j, item, c, q);
    } else {
      match item.render
      case GasText => GasMeets(j, item, c, q);
      case MaxFeeText => FeeMeets(j, item, c, q);
      case CapName => NameMeets(j, item, c, q);
      case CapNamespace => NameMeets(j, item, c, q);
      case AmountText =>
        FramesBare();
        AroundMeets("KDA ", j.Span(item.token), "", q);
      case Std =>
      case _ => ArgumentsMeet(j, item, c, q);
    }
  }
}
