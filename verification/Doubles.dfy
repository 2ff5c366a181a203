/**
 Transactions that the review shows alike, or with a raw escape: each is accepted, and calls a capability with one
 argument that the review cannot verify.
 */
module Doubles {
  import opened Base
  import opened Errors
  import opened Syntax
  import opened JsmnSpec
  import opened Json
  import opened Lookups
  import opened Nodes
  import opened ItemSpec
  import opened Review
  import opened ReviewProof
  import opened Signers
  import opened RenderSpec
  import opened ParserSpec
  import opened Template
  import opened TemplateLookups
  import opened Display
  import opened Showable
  import opened JsonAcceptance
  import opened Screen
  import Documents
  import Integrity
  import Recognition
  import TransferReview
  import RequestAcceptance
  import Spelling
  import T = TransferSpec
  import TR = TemplateReading

  // ---- A transaction with one argument ---------------------------------------------------------

  function Capability(v: Value): Value { CapTree(Arr([], [E(v)]), "m.C") }

  function Entry(v: Value, hex: Bytes): Value {
    Obj([], Cons(M("pubKey", Str(hex)), [M("clist", Arr([], [E(Capability(v))]))]))
  }

  function Root(v: Value, hex: Bytes): Value {
    Obj([], Cons(M("networkId", Prim("null")), [M("signers", Arr([], [E(Entry(v, hex))]))]))
  }

  function Example(v: Value, hex: Bytes): Doc { Doc([], Root(v, hex), []) }

  /** The argument is small enough to be shown. */
  predicate Small(v: Value) { Integrity.Good(v) && Len(v) <= 200 && Recognition.Size(v) <= 100 }

  lemma {:induction false} Words()
    ensures TR.Plain("m.C") && Integrity.Good(Prim("null"))
  {
  }

  lemma {:induction false} ExampleGood(v: Value, hex: Bytes)
    requires Integrity.Good(v) && TR.Plain(hex)
    ensures Integrity.Good(Root(v, hex)) && Root(v, hex).Obj?
  {
    hide TR.Plain, Integrity.Good, TR.GoodElems;
    TR.KeyWords();
    Words();
    TR.GoodElemOne(v);
    TR.GoodArr([E(v)]);
    TR.GoodPlain("m.C");
    TR.GoodPair("args", Arr([], [E(v)]), "name", Str("m.C"));
    TR.GoodElemOne(Capability(v));
    TR.GoodArr([E(Capability(v))]);
    TR.GoodPlain(hex);
    TR.GoodPair("pubKey", Str(hex), "clist", Arr([], [E(Capability(v))]));
    TR.GoodElemOne(Entry(v, hex));
    TR.GoodArr([E(Entry(v, hex))]);
    TR.GoodPair("networkId", Prim("null"), "signers", Arr([], [E(Entry(v, hex))]));
  }

  lemma {:induction false} PairMeasure(key: Bytes, v: Value, key2: Bytes, w: Value)
    ensures Recognition.Size(Obj([], Cons(M(key, v), [M(key2, w)]))) == 3 + Recognition.Size(v) + Recognition.Size(w)
    ensures Len(Obj([], Cons(M(key, v), [M(key2, w)]))) == |key| + |key2| + 9 + Len(v) + Len(w)
  {
    hide Len, Recognition.Size, LenMembers, Recognition.MembersSize;
    MeasureOne(key2, w);
    MeasureCons(key, v, [M(key2, w)]);
    ObjMeasure(Cons(M(key, v), [M(key2, w)]));
  }

  lemma {:induction false} ObjMeasure(ms: seq<Syntax.Member>)
    requires ms != []
    ensures Recognition.Size(Obj([], ms)) == 1 + Recognition.MembersSize(ms) && Len(Obj([], ms)) == 1 + LenMembers(ms)
  {
  }

  lemma {:induction false} OneMeasure(v: Value)
    ensures Recognition.Size(Arr([], [E(v)])) == 1 + Recognition.Size(v) && Len(Arr([], [E(v)])) == 2 + Len(v)
  {
    MeasureElemOne(v);
  }

  lemma {:induction false} ExampleSize(v: Value, hex: Bytes)
    requires |hex| == 64
    ensures Recognition.Size(Root(v, hex)) <= 20 + Recognition.Size(v) && Len(Root(v, hex)) <= 300 + Len(v)
  {
    hide Len, Recognition.Size;
    OneMeasure(v);
    LeafMeasure("m.C");
    LeafMeasure(hex);
    LeafMeasure("null");
    PairMeasure("args", Arr([], [E(v)]), "name", Str("m.C"));
    OneMeasure(Capability(v));
    PairMeasure("pubKey", Str(hex), "clist", Arr([], [E(Capability(v))]));
    OneMeasure(Entry(v, hex));
    PairMeasure("networkId", Prim("null"), "signers", Arr([], [E(Entry(v, hex))]));
  }

  lemma {:induction false} LeafMeasure(s: Bytes)
    ensures Recognition.Size(Str(s)) == 1 && Len(Str(s)) == |s| + 2
    ensures Recognition.Size(Prim(s)) == 1 && Len(Prim(s)) == |s|
  {
  }

  // ---- Its lines -------------------------------------------------------------------------------

  lemma {:induction false} RootParts(v: Value, hex: Bytes)
    ensures Get(Root(v, hex), "networkId") == Some(Prim("null"))
    ensures Get(Root(v, hex), "signers") == Some(Arr([], [E(Entry(v, hex))]))
    ensures Get(Root(v, hex), "verifiers") == None && Get(Root(v, hex), "meta") == None
  {
    hide Entry;
    var signers := Arr([], [E(Entry(v, hex))]);
    forall name: Bytes
      ensures Named(Cons(M("networkId", Prim("null")), [M("signers", signers)]), name) ==
              if "networkId" == name then Some(Prim("null"))
              else if "signers" == name then Some(signers)
              else None
    {
      NamedOne("signers", signers, name);
      NamedCons("networkId", Prim("null"), [M("signers", signers)], name);
    }
  }

  lemma {:induction false} EntryParts(v: Value, hex: Bytes)
    ensures Entry(v, hex).Obj? && Get(Entry(v, hex), "pubKey") == Some(Str(hex)) && Get(Entry(v, hex), "addr") == None
    ensures Get(Entry(v, hex), "clist") == Some(Arr([], [E(Capability(v))]))
    ensures ClistOf(Entry(v, hex)) == [Capability(v)]
  {
    hide Capability;
    var clist := Arr([], [E(Capability(v))]);
    NamedPair("pubKey", Str(hex), "clist", clist);
    NamedOne("clist", clist, "addr");
    NamedCons("pubKey", Str(hex), [M("clist", clist)], "addr");
    NotNullText(clist);
    assert Kids(clist) == [Capability(v)];
  }

  lemma {:induction false} CapabilityParts(v: Value)
    ensures var cap := Capability(v);
            cap.Obj? && NameOf(cap) == "m.C" && ArgsOf(cap) == [v] && Get(cap, "args") == Some(Arr([], [E(v)]))
  {
    hide CapTree, Child;
    TransferReview.CapIs(Arr([], [E(v)]), "m.C");
    assert Kids(Arr([], [E(v)])) == [v];
  }

  lemma {:induction false} ArgumentFits(v: Value)
    requires Len(v) <= 200
    ensures Fits(Capability(v))
  {
    hide Capability, Child, Print;
    CapabilityParts(v);
    var args := Arr([], [E(v)]);
    OneMeasure(v);
    PrintLength(args, []);
    assert Kids(args) == [v];
  }

  /** What the review says: nothing about the network, and nothing of the argument but its text. */
  function ExampleLines(v: Value, hex: Bytes): seq<Line> {
    [Line(Title.Signing, SigningText, NONE, true), Line(Title.Requiring, RequiringText, NONE, true),
     Line(OfKey, Std, Str(hex), true), Line(Title.Warning, CapNotVerified, NONE, true),
     Line(Title.Capability, CapName, Capability(v), true), Line(Arguments, UnknownText, Capability(v), true),
     Line(Title.Caution, CautionText, NONE, true)]
  }

  lemma {:induction false} NoNamespace()
    ensures SplitNamespace("m.C") == (None, "m.C")
  {
    assert "m.C"[0] == 'm' && "m.C"[1] == '.' && "m.C"[2] == 'C';
    assert IndexOf("m.C", '.') == 1;
  }

  lemma {:induction false} CapabilityLines(v: Value)
    requires Len(v) <= 200
    ensures CapLines(Capability(v)) ==
            [Line(Title.Warning, CapNotVerified, NONE, true), Line(Title.Capability, CapName, Capability(v), true),
             Line(Arguments, UnknownText, Capability(v), true)]
  {
    hide Capability, Child, NameOf, ArgsOf, Fits, SplitNamespace;
    CapabilityParts(v);
    ArgumentFits(v);
    NoNamespace();
    assert |"m.C"| == 3 && |"coin.GAS"| == 8 && |"coin.TRANSFER"| == 13 && |"coin.TRANSFER_XCHAIN"| == 20 &&
           |"coin.ROTATE"| == 11;
  }

  lemma {:induction false} LinesAre(v: Value, hex: Bytes)
    requires Len(v) <= 200
    ensures ReviewLines(Root(v, hex), Entry(v, hex), 1) == ExampleLines(v, hex)
  {
    hide Root, Entry, Capability, Child, CapLines, NameOf, ClistOf, KeyAmong;
    RootParts(v, hex);
    EntryParts(v, hex);
    CapabilityParts(v);
    CapabilityLines(v);
    NullText();
    var root, entry, key := Root(v, hex), Entry(v, hex), Str(hex);
    assert CapsLines([Capability(v)]) == CapLines(Capability(v)) + CapsLines([Capability(v)][1..]);
    assert |"m.C"| != |"coin.TRANSFER"|;
    assert ScopeLines(entry, key) == [];
    assert MetaLines(root) == Plain(Title.Caution, CautionText);
    assert OpeningLines(root, key, 1) == ExampleLines(v, hex)[..3];
    assert Lines(root, entry, 1) == ExampleLines(v, hex);
  }

  lemma {:induction false} NullText()
    ensures IsNullText(Prim("null"))
  {
  }

  // ---- It is accepted --------------------------------------------------------------------------

  lemma {:induction false} IsDevice(v: Value, hex: Bytes)
    requires !HasBackslash(hex)
    ensures TheDevice([E(Entry(v, hex))], hex, 0)
  {
    hide Entry, Child, HasBackslash, EqualIgnoringCase;
    EntryParts(v, hex);
    SameCase(hex);
    assert Text(Str(hex)) == hex;
  }

  lemma {:induction false} SameCase(s: Bytes)
    ensures EqualIgnoringCase(s, s)
  {
  }

  lemma {:induction false} PlainName(v: Value)
    ensures !HasBackslash(NameOf(Capability(v)))
  {
    hide Capability, NameOf;
    CapabilityParts(v);
    assert "m.C"[0] == 'm' && "m.C"[1] == '.' && "m.C"[2] == 'C';
  }

  lemma {:induction false} LinesCanBeShown(v: Value, hex: Bytes)
    requires |hex| == 64
    ensures AllShow(ExampleLines(v, hex))
  {
    hide Capability, NameOf, SplitNamespace;
    CapabilityParts(v);
    NoNamespace();
    assert Text(Str(hex)) == hex;
  }

  lemma {:induction false} ExampleFits(j: Json, v: Value, hex: Bytes, digest: Key32)
    requires Len(v) <= 200 && |hex| == 64 && !HasBackslash(hex)
    ensures TreeFits(j, Root(v, hex), hex, digest, false, 0)
  {
    hide Root, Entry, Capability, Child, ReviewLines, AllShow, NameOf, ArgsOf, HasBackslash, TheDevice, ExampleLines,
      IsNullText;
    RootParts(v, hex);
    RootIsObj(v, hex);
    EntryParts(v, hex);
    CapabilityParts(v);
    IsDevice(v, hex);
    PlainName(v);
    NullText();
    LinesAre(v, hex);
    LinesCanBeShown(v, hex);
    SevenLines(v, hex);
    assert |"m.C"| == 3 && |"coin.GAS"| == 8 && |"coin.TRANSFER"| == 13 && |"coin.TRANSFER_XCHAIN"| == 20;
  }

  lemma {:induction false} RootIsObj(v: Value, hex: Bytes)
    ensures Root(v, hex).Obj?
  {
  }

  lemma {:induction false} SevenLines(v: Value, hex: Bytes)
    ensures |ExampleLines(v, hex)| == 7
  {
  }

  lemma {:induction false} ExampleReads(v: Value, hex: Bytes)
    requires Small(v) && TR.Plain(hex) && |hex| == 64
    ensures Integrity.Readable(Example(v, hex)) && |PrintDoc(Example(v, hex))| < UNSET
  {
    hide Root, Integrity.Good, TR.Plain, Print;
    ExampleGood(v, hex);
    ExampleSize(v, hex);
    PrintLength(Root(v, hex), []);
    GoodParts(Root(v, hex));
    NoBlanks();
  }

  lemma {:induction false} GoodParts(v: Value)
    requires Integrity.Good(v)
    ensures Valid(v) && Integrity.SoundKeys(v)
  {
  }

  lemma {:induction false} NoBlanks()
    ensures Blank([])
  {
  }

  // ---- What its review says --------------------------------------------------------------------

  function ExampleTexts(v: Value, hex: Bytes): seq<Bytes> {
    ["Transaction", "Capabilities", hex, CAP_NOT_VERIFIED_TEXT, "m.C", "arg 1: " + Print(v, []), CAUTION_TEXT]
  }

  lemma {:induction false} ArgumentText(j: Json, item: Item, v: Value, c: Context)
    requires StandsFor(j, item, Line(Arguments, UnknownText, Capability(v), true)) && Len(v) <= 200
    ensures Rendered(j, item, c) == Ok("arg 1: " + Print(v, []))
  {
    hide Node, Capability, Child, JsonData.GetResult, JsonData.Elements, Print, Kids, Tells, ArgText;
    CapabilityParts(v);
    CapArgs(j, item.token, Capability(v));
    var args := j.GetResult(item.token, "args").value;
    NodeKids(j, args, Arr([], [E(v)]));
    assert Kids(Arr([], [E(v)])) == [v];
    var a := j.Elements(args)[0];
    Spelling.ArgIsText(j, a, v);
    PrintLength(v, []);
    OneText(j, j.Elements(args));
  }

  lemma {:induction false} OneText(j: Json, args: seq<nat>)
    requires |args| == 1
    ensures ArgsText(j, args, 0) == "arg 1: " + ArgText(j, args[0])
  {
    hide ArgText;
    var text := ArgText(j, args[0]);
    assert RenderSpec.Decimal(1) == "1";
    assert "arg " + "1" + ": " == "arg 1: ";
    assert "arg 1: " + text + [] == "arg 1: " + text;
  }

  lemma {:induction false} NameText(j: Json, item: Item, v: Value, c: Context)
    requires StandsFor(j, item, Line(Title.Capability, CapName, Capability(v), true))
    ensures Rendered(j, item, c) == Ok("m.C")
  {
    hide Node, Capability, Child, JsonData.GetResult, NameOf, SplitNamespace;
    CapabilityParts(v);
    TransferReview.CapIs(Arr([], [E(v)]), "m.C");
    NameIs(j, item.token, Capability(v));
    NodeGet(j, item.token, Capability(v), "name");
    NoNamespace();
  }

  lemma {:induction false} KeyText(j: Json, item: Item, hex: Bytes, c: Context)
    requires StandsFor(j, item, Line(OfKey, Std, Str(hex), true)) && 0 < |hex| < VALUE_BUF
    ensures Rendered(j, item, c) == Ok(hex)
  {
    hide Node, Print;
    NodeTells(j, item.token, Str(hex));
  }

  lemma {:induction false} FixedText(j: Json, item: Item, c: Context)
    ensures item.render == SigningText ==> Rendered(j, item, c) == Ok("Transaction")
    ensures item.render == RequiringText ==> Rendered(j, item, c) == Ok("Capabilities")
    ensures item.render == CapNotVerified ==> Rendered(j, item, c) == Ok(CAP_NOT_VERIFIED_TEXT)
    ensures item.render == CautionText ==> Rendered(j, item, c) == Ok(CAUTION_TEXT)
  {
    FixedTexts();
  }

  lemma {:induction false} TextsAre(j: Json, items: seq<Item>, v: Value, hex: Bytes, c: Context)
    requires Mirrors(j, items, ExampleLines(v, hex)) && Len(v) <= 200 && |hex| == 64
    ensures |items| == 7 && forall i | 0 <= i < 7 :: Rendered(j, items[i], c) == Ok(ExampleTexts(v, hex)[i])
  {
    hide StandsFor, Capability, Rendered, Print;
    assert |ExampleTexts(v, hex)| == 7;
    hide ExampleTexts;
    forall i | 0 <= i < 7 ensures Rendered(j, items[i], c) == Ok(ExampleTexts(v, hex)[i]) {
      TextIs(j, items[i], i, v, hex, c);
    }
  }

  lemma {:induction false} TextIs(j: Json, item: Item, i: nat, v: Value, hex: Bytes, c: Context)
    requires i < 7 && StandsFor(j, item, ExampleLines(v, hex)[i]) && Len(v) <= 200 && |hex| == 64
    ensures Rendered(j, item, c) == Ok(ExampleTexts(v, hex)[i])
  {
    hide Node, Capability, Rendered, Print;
    FixedText(j, item, c);
    if i == 2 { KeyText(j, item, hex, c); }
    if i == 4 { NameText(j, item, v, c); }
    if i == 5 { ArgumentText(j, item, v, c); }
  }

  /** The transaction is accepted, and its review has these texts. */
  lemma {:induction false} ExampleReviewed(c: Crypto, path: Path, v: Value)
    requires Small(v) && c.publicKey(path).Some?
    requires c.blake2b(PrintDoc(Example(v, T.HexLower(c.publicKey(path).value)))).Some?
    ensures var hex := T.HexLower(c.publicKey(path).value);
            var text := PrintDoc(Example(v, hex));
            && |text| < UNSET && ReviewText(c, path, text, false).Ok?
            && ParseTx(c, path, TxJson, text, [], false).1.Ok?
            && var texts := ShownTexts(TxJson, ParseTx(c, path, TxJson, text, [], false).1.value);
               |texts| == 7 && forall i | 0 <= i < 7 :: texts[i] == Ok(ExampleTexts(v, hex)[i])
  {
    hide Integrity.ReadJson, Located, Node, Mirrors, TxReview, Shows, T.HexLower, TreeFits, PrintDoc, Example,
      Integrity.Readable, TR.Plain, Rendered, ExampleTexts, ExampleLines, HasBackslash;
    var key, hex := c.publicKey(path).value, T.HexLower(c.publicKey(path).value);
    var d := Example(v, hex);
    var text := PrintDoc(d);
    TR.HexPlain(key);
    RequestAcceptance.PlainUnescaped(hex);
    ExampleReads(v, hex);
    ExampleRoot(v, hex);
    ExampleFits(DocumentOf(text), v, hex, c.blake2b(text).value);
    FitText(c, path, d, false, 0);
    ReadsFirst(c, path, text, false);
    var j := Integrity.ReadJson(text).value;
    ReadsExample(d);
    ExampleItems(j, v, key, c.blake2b(text));
    var r := TxReview(j, Some(key), c.blake2b(text), false).value;
    TextsAre(j, r.items, v, hex, r.context);
    SameReview(c, path, text);
  }

  lemma {:induction false} ReadsExample(d: Doc)
    requires Integrity.Readable(d) && |PrintDoc(d)| < UNSET
    ensures Integrity.ReadJson(PrintDoc(d)).Ok? && Node(Integrity.ReadJson(PrintDoc(d)).value, 0, d.root)
  {
    hide Integrity.ReadJson, Located, Node, PrintDoc, Valid, Integrity.SoundKeys, Documents.DocTokens;
    Integrity.ReadPrinted(d);
    Integrity.RootLocated(d);
    TreeNode(Integrity.ReadJson(PrintDoc(d)).value, d);
  }

  lemma {:induction false} ExampleRoot(v: Value, hex: Bytes)
    ensures Example(v, hex).root == Root(v, hex) && Root(v, hex).Obj?
  {
  }

  lemma {:induction false} SameReview(c: Crypto, path: Path, text: Bytes)
    requires ReviewText(c, path, text, false).Ok?
    ensures ParseTx(c, path, TxJson, text, [], false).1 == Ok(Parsed(ReviewText(c, path, text, false).value, text))
    ensures Integrity.ReadJson(text).Ok? && DocumentOf(text) == Integrity.ReadJson(text).value
    ensures ReviewText(c, path, text, false).value ==
            TxReview(DocumentOf(text), c.publicKey(path), c.blake2b(text), false).value
  {
    hide Integrity.ReadJson, TxReview, Shows;
  }

  /** The items are those of the one entry. */
  lemma {:induction false} ExampleItems(j: Json, v: Value, key: Key32, digest: Option<Key32>)
    requires Node(j, 0, Root(v, T.HexLower(key))) && Len(v) <= 200
    requires TxReview(j, Some(key), digest, false).Ok?
    ensures Mirrors(j, TxReview(j, Some(key), digest, false).value.items, ExampleLines(v, T.HexLower(key)))
  {
    hide Node, Mirrors, TxReview, TxItems, FindDeviceSigner, ReviewLines, Root, Entry, Child, T.HexLower, KeysPlain,
      Names, NamesPlain, ExampleLines, JsonData.GetResult, ClistOf;
    var hex := T.HexLower(key);
    ReviewFound(j, Some(key), digest, false);
    var (at, n) := FindDeviceSigner(j, hex).value;
    RootIsObj(v, hex);
    RootParts(v, hex);
    var k := AcceptedReview(j, Root(v, hex), hex, at, n);
    LinesAre(v, hex);
    ReviewIs(j, key, digest, false, at, n);
    assert TxItems(j, at, n).items + [] == TxItems(j, at, n).items;
  }

  // ---- The raw escapes and the doubles ---------------------------------------------------------

  /** A primitive that spells the escape of a printable byte. */
  const RAW_PRIMITIVE := Prim("a\\x41")

  /** A string with an escaped backslash before an `x`. */
  const RAW_STRING := Str("\\\\x")

  /** An array with a line feed in it, and one with the escape of a line feed. */
  const LINE_FEED := Arr("\n", [])
  const ESCAPED_LINE_FEED := Arr([], [E(Prim("\\x0A"))])

  lemma {:induction false} AllSmall()
    ensures Small(RAW_PRIMITIVE) && Small(RAW_STRING) && Small(LINE_FEED)
  {
    var s := "\\\\x";
    assert UnitLen(s) == 2 && s[2..] == "x" && "x"[1..] == [];
  }

  lemma {:induction false} EscapedSmall()
    ensures Small(ESCAPED_LINE_FEED)
  {
    var p := Prim("\\x0A");
    OneMeasure(p);
    assert Integrity.Good(p);
    TR.GoodElemOne(p);
    TR.GoodArr([E(p)]);
  }

  /** A raw escape is shown behind an `a`, and behind an escaped backslash. */
  lemma {:induction false} RawEscapeShown(c: Crypto, path: Path, v: Value)
    requires v == RAW_PRIMITIVE || v == RAW_STRING
    requires c.publicKey(path).Some?
    requires c.blake2b(PrintDoc(Example(v, T.HexLower(c.publicKey(path).value)))).Some?
    ensures var text := PrintDoc(Example(v, T.HexLower(c.publicKey(path).value)));
            && ParseTx(c, path, TxJson, text, [], false).1.Ok?
            && var texts := ShownTexts(TxJson, ParseTx(c, path, TxJson, text, [], false).1.value);
               && |texts| == 7
               && texts[5] == Ok(if v == RAW_PRIMITIVE then "arg 1: a\\x41" else "arg 1: \"\\\\x\"")
               && Spells(texts[5].value, false) && Escaped(texts[5].value) == texts[5].value
  {
    hide ParseTx, PrintDoc, Example, T.HexLower, Escaped, Spells, ShownTexts, Small, Print;
    AllSmall();
    ExampleReviewed(c, path, v);
    if v == RAW_PRIMITIVE { PrimitiveSpelled(); } else { StringSpelled(); }
    assert ExampleTexts(v, T.HexLower(c.publicKey(path).value))[5] == "arg 1: " + Print(v, []);
  }

  lemma {:induction false} PrimitiveSpelled()
    ensures "arg 1: " + Print(RAW_PRIMITIVE, []) == "arg 1: a\\x41"
    ensures Spells("arg 1: a\\x41", false) && Escaped("arg 1: a\\x41") == "arg 1: a\\x41"
  {
    hide Escaped, Spells;
    var t := "arg 1: a\\x41";
    assert Print(RAW_PRIMITIVE, []) == "a\\x41";
    SpelledAt(t, 8, false);
    EscapedPlain(t);
  }

  lemma {:induction false} StringSpelled()
    ensures "arg 1: " + Print(RAW_STRING, []) == "arg 1: \"\\\\x\""
    ensures Spells("arg 1: \"\\\\x\"", false) && Escaped("arg 1: \"\\\\x\"") == "arg 1: \"\\\\x\""
  {
    hide Escaped, Spells;
    var t := "arg 1: \"\\\\x\"";
    assert Print(RAW_STRING, []) == "\"\\\\x\"";
    SpelledAt(t, 9, false);
    EscapedPlain(t);
  }

  /** Two transactions whose reviews are different, and look the same on every screen. */
  lemma {:induction false} LookTheSame(c: Crypto, path: Path)
    requires c.publicKey(path).Some?
    requires c.blake2b(PrintDoc(Example(LINE_FEED, T.HexLower(c.publicKey(path).value)))).Some?
    requires c.blake2b(PrintDoc(Example(ESCAPED_LINE_FEED, T.HexLower(c.publicKey(path).value)))).Some?
    ensures var hex := T.HexLower(c.publicKey(path).value);
            var a, b := ParseTx(c, path, TxJson, PrintDoc(Example(LINE_FEED, hex)), [], false).1,
                        ParseTx(c, path, TxJson, PrintDoc(Example(ESCAPED_LINE_FEED, hex)), [], false).1;
            && a.Ok? && b.Ok?
            && var s, t := ShownTexts(TxJson, a.value), ShownTexts(TxJson, b.value);
               && |s| == |t| == 7 && s[5] != t[5]
               && forall i | 0 <= i < 7 :: s[i].Ok? && t[i].Ok? && Escaped(s[i].value) == Escaped(t[i].value)
  {
    hide ParseTx, PrintDoc, Example, T.HexLower, Escaped, ShownTexts, ExampleTexts, Small;
    AllSmall();
    EscapedSmall();
    ExampleReviewed(c, path, LINE_FEED);
    ExampleReviewed(c, path, ESCAPED_LINE_FEED);
    TextsLookTheSame(T.HexLower(c.publicKey(path).value));
  }

  lemma {:induction false} TextsLookTheSame(hex: Bytes)
    ensures var x, y := ExampleTexts(LINE_FEED, hex), ExampleTexts(ESCAPED_LINE_FEED, hex);
            |x| == |y| == 7 && x[5] != y[5] && forall i | 0 <= i < 7 :: Escaped(x[i]) == Escaped(y[i])
  {
    hide Escaped, Print;
    SameOnScreen();
    var x, y := ExampleTexts(LINE_FEED, hex), ExampleTexts(ESCAPED_LINE_FEED, hex);
    assert forall i | 0 <= i < 7 && i != 5 :: x[i] == y[i];
  }

  lemma {:induction false} SameOnScreen()
    ensures var a, b := "arg 1: " + Print(LINE_FEED, []), "arg 1: " + Print(ESCAPED_LINE_FEED, []);
            a != b && Escaped(a) == Escaped(b)
  {
    hide Escaped;
    var p, q := "[\n]", "[\\x0A]";
    assert Print(LINE_FEED, []) == p;
    assert Print(ESCAPED_LINE_FEED, []) == q;
    EscapedCat("arg 1: ", p);
    EscapedCat("arg 1: ", q);
    EscapedPlain(q);
    EscapedCat("[", "\n]");
    EscapedCat("\n", "]");
    EscapedPlain("[");
    EscapedPlain("]");
    assert p == "[" + "\n]" && "\n]" == "\n" + "]";
    NewLine();
    assert q == "[" + ("\\x0A" + "]");
    assert ("arg 1: " + p)[8] == '\n' && ("arg 1: " + q)[8] == '\\';
  }

  lemma {:induction false} NewLine()
    ensures Escaped("\n") == "\\x0A"
  {
    assert "\n"[1..] == [] && '\n' as int == 10;
    assert ByteText('\n') == "\\x0A";
    assert ByteText('\n') + Escaped([]) == ByteText('\n');
  }
}
