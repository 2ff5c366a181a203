/**
 The review of a structured transfer: it is blind exactly when the request names a token of its own, and it
 says exactly what the request asks for.
 */
module TransferReview {
  import opened Base
  import opened Errors
  import opened Syntax
  import opened JsmnSpec
  import opened Lookups
  import opened Nodes
  import opened ItemSpec
  import opened Review
  import opened ClearSigning
  import opened Signers
  import opened TransferSpec
  import opened Template
  import opened TemplateLookups
  import opened ParserSpec
  import opened Acceptance
  import R = RenderSpec
  import J = Json
  import Integrity
  import ReviewProof

  // ---- The name of the capability --------------------------------------------------------------

  lemma {:induction false} FirstDot(a: Bytes, rest: Bytes)
    requires '.' !in a
    ensures IndexOf(a + ("." + rest), '.') == |a|
  {
    var s := a + ("." + rest);
    assert forall k | 0 <= k < |a| :: s[k] == a[k] && a[k] in a;
    assert s[|a|] == '.';
  }

  lemma {:induction false} NoDots(v: Bytes)
    requires forall c | c in v :: IsPactIdent(c)
    ensures '.' !in v
  {
  }

  function Suffix(txType: nat): Bytes { if txType == TRANSFER_CROSSCHAIN then ".TRANSFER_XCHAIN" else ".TRANSFER" }

  /** A token's capability is named `namespace.module.TRANSFER`, or `TRANSFER_XCHAIN`. */
  lemma {:induction false} TokenName(f: Fields, txType: nat)
    requires FieldsAllowed(f, txType) && UsesNamespace(f)
    ensures SplitNamespace(CapabilityName(f, txType)) == (Some(f[NAMESPACE]), f[MODULE] + Suffix(txType))
  {
    hide IsPactIdent, FieldAllowed, SplitNamespace;
    AllowedNames(f, txType);
    NoDots(f[NAMESPACE]);
    var rest := f[MODULE] + Suffix(txType);
    assert CapabilityName(f, txType) == f[NAMESPACE] + ("." + rest);
    assert rest[|f[MODULE]|] == '.';
    Splits(f[NAMESPACE], rest);
  }

  lemma {:induction false} Splits(ns: Bytes, rest: Bytes)
    requires '.' !in ns && '.' in rest
    ensures SplitNamespace(ns + ("." + rest)) == (Some(ns), rest)
  {
    hide IndexOf;
    var name := ns + ("." + rest);
    FirstDot(ns, rest);
    assert name[..|ns|] == ns && name[|ns| + 1..] == rest;
  }

  lemma {:induction false} AllowedNames(f: Fields, txType: nat)
    requires FieldsAllowed(f, txType)
    ensures (forall c | c in f[NAMESPACE] :: IsPactIdent(c)) && (forall c | c in f[MODULE] :: IsPactIdent(c))
  {
    assert FieldAllowed(NAMESPACE, f[NAMESPACE], txType) && FieldAllowed(MODULE, f[MODULE], txType);
  }

  /** No name of the module `coin` has a namespace. */
  lemma {:induction false} OneDot(name: Bytes)
    requires |name| > 4 && name[4] == '.' && forall i | 0 <= i < |name| :: i != 4 ==> name[i] != '.'
    ensures SplitNamespace(name).0 == None
  {
  }

  lemma {:induction false} CoinNames()
    ensures SplitNamespace("coin.TRANSFER").0 == None && SplitNamespace("coin.TRANSFER_XCHAIN").0 == None
    ensures SplitNamespace("coin.GAS").0 == None && SplitNamespace("coin.ROTATE").0 == None
  {
    hide SplitNamespace;
    OneDot("coin.TRANSFER");
    OneDot("coin.TRANSFER_XCHAIN");
    OneDot("coin.GAS");
    OneDot("coin.ROTATE");
  }

  // ---- The signer entry ------------------------------------------------------------------------

  function TransferCap(f: Fields, txType: nat, addr: Bytes): Value {
    CapTree(ArgsTree(f, txType, addr), CapabilityName(f, txType))
  }

  function GasCap(): Value { CapTree(Arr([], []), "coin.GAS") }

  lemma {:induction false} EntryIs(f: Fields, txType: nat, addr: Bytes)
    ensures ClistOf(SignerTree(f, txType, addr)) == [TransferCap(f, txType, addr), GasCap()]
    ensures Get(SignerTree(f, txType, addr), "pubKey") == Some(Str(addr))
  {
    hide ArgsTree, CapTree, Child, CapabilityName, Print;
    SignerChildren(f, txType, addr);
    var clist := ClistTree(f, txType, addr);
    ArrayText(clist);
    assert Kids(clist) == [TransferCap(f, txType, addr), GasCap()];
  }

  lemma {:induction false} ArrayText(v: Value)
    requires v.Arr? || v.Obj?
    ensures !IsNullText(v)
  {
    ReviewProof.NotNullText(v);
  }

  lemma {:induction false} CapIs(args: Value, name: Bytes)
    ensures var cap := CapTree(args, name); cap.Obj? && NameOf(cap) == name && ArgsOf(cap) == Kids(args)
    ensures Get(CapTree(args, name), "args") == Some(args) && Get(CapTree(args, name), "name") == Some(Str(name))
  {
    hide Child;
    CapChildren(args, name);
  }

  lemma {:induction false} ArgsAre(f: Fields, txType: nat, addr: Bytes)
    ensures Kids(ArgsTree(f, txType, addr)) ==
            [Str(Account(addr)), Str(Account(f[RECIPIENT])), Prim(f[AMOUNT])] +
            (if txType == TRANSFER_CROSSCHAIN then [Str(f[RECIPIENT_CHAIN])] else [])
  {
    hide Account;
  }

  lemma {:induction false} GasClear()
    ensures IsGas(GasCap()) && CapLines(GasCap()) == []
  {
    hide Kids;
    CapIs(Arr([], []), "coin.GAS");
  }

  /** Without a token of its own, the transfer is one of coins, which the review shows in full. */
  lemma {:induction false} CoinClear(f: Fields, txType: nat, addr: Bytes)
    requires !UsesNamespace(f)
    ensures var cap := TransferCap(f, txType, addr);
            && IsClear(cap) && (IsXchain(cap) <==> txType == TRANSFER_CROSSCHAIN) &&
              (IsTransfer(cap) <==> txType != TRANSFER_CROSSCHAIN)
            && ArgsOf(cap) == Kids(ArgsTree(f, txType, addr))
  {
    hide CapTree, ArgsTree, Kids, NameOf, ArgsOf;
    CapIs(ArgsTree(f, txType, addr), CapabilityName(f, txType));
    ArgsAre(f, txType, addr);
    assert CapabilityName(f, txType) ==
           if txType == TRANSFER_CROSSCHAIN then "coin.TRANSFER_XCHAIN" else "coin.TRANSFER";
  }

  /** A token's transfer is a capability the review cannot verify. */
  lemma {:induction false} TokenBlind(f: Fields, txType: nat, addr: Bytes)
    requires FieldsAllowed(f, txType) && UsesNamespace(f)
    ensures var cap := TransferCap(f, txType, addr); !IsClear(cap) && CapLines(cap) == UnverifiedLines(cap, true)
  {
    hide CapTree, ArgsTree, Kids, NameOf, ArgsOf, UnverifiedLines, CapabilityName, SplitNamespace;
    CapIs(ArgsTree(f, txType, addr), CapabilityName(f, txType));
    TokenName(f, txType);
    CoinNames();
  }

  // ---- Blind or clear --------------------------------------------------------------------------

  predicate MetaInOrder(names: seq<Bytes>) {
    |names| == 6 && names[0] == "creationTime" && names[1] == "ttl" && names[2] == "gasLimit" &&
    names[3] == "chainId" && names[4] == "gasPrice" && names[5] == "sender"
  }

  lemma {:induction false} MetaKeys(f: Fields, addr: Bytes)
    ensures MetaInOrder(Integrity.KeyNames(MetaTree(f, addr).members))
  {
    hide Account;
  }

  lemma {:induction false} KeywordsAreMeta(names: seq<Bytes>)
    requires MetaInOrder(names)
    ensures MetaNames(names)
  {
    assert |names[0]| == 12 && |names[1]| == 3 && |names[2]| == 8 && names[2][3] == 'L' && |names[3]| == 7 &&
           |names[4]| == 8 && names[4][3] == 'P' && |names[5]| == 6;
    forall i | 0 <= i < 6 ensures names[i] == META_KEYWORDS[..6][i] { }
    forall n | n in names ensures n in META_KEYWORDS[..6] {
      var i :| 0 <= i < 6 && names[i] == n;
      assert META_KEYWORDS[..6][i] == n;
    }
  }

  lemma {:induction false} TreeRecognised(f: Fields, txType: nat, addr: Bytes)
    ensures MetaRecognised(Tree(f, txType, addr))
  {
    hide Tree, MetaTree, Child, MetaNames, MetaInOrder;
    RootChildren(f, txType, addr);
    MetaIsObj(f, addr);
    MetaKeys(f, addr);
    KeywordsAreMeta(Integrity.KeyNames(MetaTree(f, addr).members));
  }

  lemma {:induction false} MetaIsObj(f: Fields, addr: Bytes)
    ensures MetaTree(f, addr).Obj?
  {
    hide Account;
  }

  /** The scope of the template's one signer is clear unless the request names a token. */
  lemma {:induction false} ScopeIs(f: Fields, txType: nat, addr: Bytes)
    requires FieldsAllowed(f, txType)
    ensures ClearScope(SignerTree(f, txType, addr)) <==> !UsesNamespace(f)
    ensures CapabilitiesLines(SignerTree(f, txType, addr)) == CapLines(TransferCap(f, txType, addr))
  {
    hide TransferCap, GasCap, SignerTree, ClistOf, IsClear, CapLines, UnverifiedLines, UsesNamespace;
    EntryIs(f, txType, addr);
    GasClear();
    ClearGas();
    if UsesNamespace(f) { TokenBlind(f, txType, addr); } else { CoinClear(f, txType, addr); }
    var caps := ClistOf(SignerTree(f, txType, addr));
    assert caps[0] == TransferCap(f, txType, addr) && caps[1] == GasCap();
    TwoCaps(TransferCap(f, txType, addr), GasCap());
  }

  lemma {:induction false} ClearGas()
    ensures IsClear(GasCap())
  {
    hide NameOf, ArgsOf;
    GasClear();
  }

  lemma {:induction false} TwoCaps(a: Value, b: Value)
    ensures CapsLines([a, b]) == CapLines(a) + CapLines(b)
  {
    hide CapLines;
    assert [a, b][1..] == [b] && [b][1..] == [];
    assert CapsLines([b]) == CapLines(b) + CapsLines([]);
    assert CapLines(b) + [] == CapLines(b);
  }

  // ---- What is granted -------------------------------------------------------------------------

  /** What the transfer's lines say is granted. */
  lemma {:induction false} GrantedIs(f: Fields, txType: nat, addr: Bytes)
    requires FieldsAllowed(f, txType)
    ensures var cap := TransferCap(f, txType, addr);
            Granted(CapLines(cap)) ==
            if UsesNamespace(f) then Shown(Capability, CapName, cap) + Shown(Title.Namespace, CapNamespace, cap)
            else if txType == TRANSFER_CROSSCHAIN then Payment(Kids(ArgsTree(f, txType, addr)), true)
            else Payment(Kids(ArgsTree(f, txType, addr)), false)
  {
    hide TransferCap, UsesNamespace, ArgsTree, Kids, Payment, Granted, CapLines, TransferLines, UnverifiedLines,
      NameOf, ArgsOf;
    var cap := TransferCap(f, txType, addr);
    ArgsAre(f, txType, addr);
    if UsesNamespace(f) {
      TokenBlind(f, txType, addr);
      TokenGrants(f, txType, addr);
    } else {
      CoinClear(f, txType, addr);
      CoinLines(cap);
      TransferGrants(ArgsOf(cap), txType == TRANSFER_CROSSCHAIN);
    }
  }

  lemma {:induction false} CoinLines(cap: Value)
    requires IsTransfer(cap) || IsXchain(cap)
    ensures |ArgsOf(cap)| == (if IsXchain(cap) then 4 else 3) &&
            CapLines(cap) == TransferLines(ArgsOf(cap), IsXchain(cap))
  {
    hide TransferLines, NameOf, ArgsOf, UnverifiedLines;
  }

  lemma {:induction false} TokenGrants(f: Fields, txType: nat, addr: Bytes)
    requires FieldsAllowed(f, txType) && UsesNamespace(f)
    ensures var cap := TransferCap(f, txType, addr);
            Granted(UnverifiedLines(cap, true)) == Shown(Capability, CapName, cap) +
              Shown(Title.Namespace, CapNamespace, cap)
  {
    hide CapTree, ArgsTree, NameOf, UsesNamespace, Granted, CapabilityName, SplitNamespace, Fits;
    var cap := TransferCap(f, txType, addr);
    CapIs(ArgsTree(f, txType, addr), CapabilityName(f, txType));
    TokenName(f, txType);
    var a, b, c := Plain(Title.Warning, CapNotVerified), Shown(Capability, CapName, cap),
      Shown(Title.Namespace, CapNamespace, cap);
    var d := [Line(Arguments, UnknownText, cap, Fits(cap))];
    GrantedCat(a, b);
    GrantedCat(a + b, c);
    GrantedCat(a + b + c, d);
    GrantedOne(Title.Warning, CapNotVerified, NONE);
    GrantedOne(Capability, CapName, cap);
    GrantedOne(Title.Namespace, CapNamespace, cap);
    ArgumentsNotGranted(cap);
  }

  lemma {:induction false} ArgumentsNotGranted(cap: Value)
    ensures Granted([Line(Arguments, UnknownText, cap, Fits(cap))]) == []
  {
    hide Fits;
    assert [Line(Arguments, UnknownText, cap, Fits(cap))][1..] == [];
  }

  // ---- What is shown ---------------------------------------------------------------------------

  /** The title and the text of each item that says what is granted, in order. */
  function Says(j: J.Json, r: ParserSpec.Review): seq<(Title, Result<Bytes, ItemsError>)> {
    var g := GrantItems(r.items);
    seq(|g|, i requires 0 <= i < |g| => (g[i].title, R.Rendered(j, g[i], r.context)))
  }

  lemma {:induction false} TextShown(j: J.Json, item: Item, line: Line, c: R.Context)
    requires StandsFor(j, item, line) && 0 < |Text(line.value)| < 200
    ensures line.render == Std ==> R.Rendered(j, item, c) == Ok(Text(line.value))
    ensures line.render == AmountText ==> R.Rendered(j, item, c) == Ok("KDA " + Text(line.value))
  {
    hide Node, Print;
    if Reads(item.render) { NodeTells(j, item.token, line.value); }
  }

  lemma {:induction false} NameShown(j: J.Json, item: Item, line: Line, c: R.Context, ns: Bytes, rest: Bytes)
    requires StandsFor(j, item, line) && line.value.Obj? && Get(line.value, "name").Some?
    requires SplitNamespace(Text(Get(line.value, "name").value)) == (Some(ns), rest) && 0 < |ns| < 200 &&
             0 < |rest| < 200
    ensures line.render == CapName ==> R.Rendered(j, item, c) == Ok(rest)
    ensures line.render == CapNamespace ==> R.Rendered(j, item, c) == Ok(ns)
  {
    hide Node, Print, J.JsonData.GetResult, SplitNamespace, Child;
    if Reads(item.render) {
      NodeGet(j, item.token, line.value, "name");
      NodeTells(j, j.GetResult(item.token, "name").value, Get(line.value, "name").value);
    }
  }

  function Suffixed(f: Fields, txType: nat): Bytes { f[MODULE] + Suffix(txType) }

  /** A token: the capability by its full name, after its namespace. */
  function TokenSays(f: Fields, txType: nat): seq<(Title, Result<Bytes, ItemsError>)> {
    [(Capability, Ok(Suffixed(f, txType))), (Title.Namespace, Ok(f[NAMESPACE]))]
  }

  /** Coins: who pays whom how much and, across chains, where. */
  function CoinSays(f: Fields, txType: nat, addr: Bytes): seq<(Title, Result<Bytes, ItemsError>)> {
    [(From, Ok("k:" + addr)), (To, Ok("k:" + f[RECIPIENT])), (Amount, Ok("KDA " + f[AMOUNT]))] +
    (if txType == TRANSFER_CROSSCHAIN then [(ToChain, Ok(f[RECIPIENT_CHAIN]))] else [])
  }

  lemma {:induction false} SaysToken(j: J.Json, r: ParserSpec.Review, f: Fields, txType: nat, addr: Bytes)
    requires FieldsInRange(f) && FieldsAllowed(f, txType) && UsesNamespace(f)
    requires var cap := TransferCap(f, txType, addr);
             Mirrors(j, GrantItems(r.items), Shown(Capability, CapName, cap) +
               Shown(Title.Namespace, CapNamespace, cap))
    ensures Says(j, r) == TokenSays(f, txType)
  {
    hide GrantItems, StandsFor, FieldsAllowed, CapTree, ArgsTree, SplitNamespace, CapabilityName, R.Rendered;
    var cap, g := TransferCap(f, txType, addr), GrantItems(r.items);
    CapIs(ArgsTree(f, txType, addr), CapabilityName(f, txType));
    TokenName(f, txType);
    TitleIs(j, g[0], Line(Capability, CapName, cap, true));
    TitleIs(j, g[1], Line(Title.Namespace, CapNamespace, cap, true));
    NameShown(j, g[0], Line(Capability, CapName, cap, true), r.context, f[NAMESPACE], Suffixed(f, txType));
    NameShown(j, g[1], Line(Title.Namespace, CapNamespace, cap, true), r.context, f[NAMESPACE], Suffixed(f, txType));
  }

  lemma {:induction false} TitleIs(j: J.Json, item: Item, line: Line)
    requires StandsFor(j, item, line)
    ensures item.title == line.title
  {
    hide Node;
  }

  lemma {:induction false} CoinTexts(f: Fields, txType: nat, addr: Bytes)
    requires FieldsInRange(f) && FieldsAllowed(f, txType) && |addr| == 64
    ensures Text(Str(Account(addr))) == "k:" + addr && Text(Str(Account(f[RECIPIENT]))) == "k:" + f[RECIPIENT]
    ensures NumberOf(Prim(f[AMOUNT])) == Prim(f[AMOUNT]) && Text(Prim(f[AMOUNT])) == f[AMOUNT] && 0 < |f[AMOUNT]| <= 32
    ensures txType == TRANSFER_CROSSCHAIN ==> 0 < |f[RECIPIENT_CHAIN]| <= 2
  {
    assert FieldAllowed(AMOUNT, f[AMOUNT], txType) && FieldAllowed(RECIPIENT_CHAIN, f[RECIPIENT_CHAIN], txType);
  }

  lemma {:induction false} SaysCoin(j: J.Json, r: ParserSpec.Review, f: Fields, txType: nat, addr: Bytes)
    requires FieldsInRange(f) && FieldsAllowed(f, txType) && |addr| == 64
    requires var kids, cross := Kids(ArgsTree(f, txType, addr)), txType == TRANSFER_CROSSCHAIN;
             |kids| == (if cross then 4 else 3) && Mirrors(j, GrantItems(r.items), Payment(kids, cross))
    ensures Says(j, r) == CoinSays(f, txType, addr)
  {
    hide GrantItems, StandsFor, FieldsAllowed, ArgsTree, R.Rendered, Kids, Text, Account, NumberOf;
    var g, kids := GrantItems(r.items), Kids(ArgsTree(f, txType, addr));
    ArgsAre(f, txType, addr);
    CoinTexts(f, txType, addr);
    var lines := Payment(kids, txType == TRANSFER_CROSSCHAIN);
    assert lines[0] == Line(From, Std, Str(Account(addr)), true) &&
           lines[1] == Line(To, Std, Str(Account(f[RECIPIENT])), true);
    assert lines[2] == Line(Amount, AmountText, Prim(f[AMOUNT]), true);
    forall i | 0 <= i < 3 ensures g[i].title == lines[i].title { TitleIs(j, g[i], lines[i]); }
    TextShown(j, g[0], lines[0], r.context);
    TextShown(j, g[1], lines[1], r.context);
    TextShown(j, g[2], lines[2], r.context);
    if txType == TRANSFER_CROSSCHAIN {
      TitleIs(j, g[3], lines[3]);
      ChainText(f[RECIPIENT_CHAIN]);
      TextShown(j, g[3], lines[3], r.context);
    }
  }

  lemma {:induction false} ChainText(s: Bytes)
    ensures Text(Str(s)) == s
  {
  }

  // ---- The review of a request -----------------------------------------------------------------

  lemma {:induction false} OneSigner(f: Fields, txType: nat, addr: Bytes, hex: Bytes, k: nat)
    requires Get(Tree(f, txType, addr), "signers").Some? && Get(Tree(f, txType, addr), "signers").value.Arr?
    requires TheDevice(Get(Tree(f, txType, addr), "signers").value.elems, hex, k)
    ensures k == 0 && Get(Tree(f, txType, addr), "signers").value.elems[0].value == SignerTree(f, txType, addr)
  {
    hide Tree, SignerTree, Child, KeysPlain, Names;
    RootChildren(f, txType, addr);
  }

  /** A review of the template says what the request asks for. */
  lemma {:induction false} ReviewSays(j: J.Json, f: Fields, txType: nat, addr: Bytes, r: ParserSpec.Review, k: nat)
    requires FieldsInRange(f) && FieldsAllowed(f, txType) && |addr| == 64
    requires Reviews(j, Tree(f, txType, addr), addr, r, k)
    ensures NeedsBlind(r.items) <==> UsesNamespace(f)
    ensures Says(j, r) == if UsesNamespace(f) then TokenSays(f, txType) else CoinSays(f, txType, addr)
  {
    hide NamesPlain, Tree, SignerTree, Child, KeysPlain, Names, TheDevice, NeedsBlind, MetaRecognised,
      ClearScope, Mirrors, GrantItems, Granted, CapabilitiesLines, Stated, ClistOf, TransferCap, UsesNamespace,
      FieldsInRange, FieldsAllowed, CapLines, Says, TokenSays, CoinSays, ArgsTree, Payment;
    OneSigner(f, txType, addr, addr, k);
    TreeRecognised(f, txType, addr);
    ScopeIs(f, txType, addr);
    GrantedIs(f, txType, addr);
    ArgsAre(f, txType, addr);
    if UsesNamespace(f) { SaysToken(j, r, f, txType, addr); } else { SaysCoin(j, r, f, txType, addr); }
  }

  /**
   Whatever an accepted request holds, its review is blind exactly if namespace and module are both given; and
   it says the token's full capability and namespace, or who pays whom how much and where: that and nothing else.
   */
  lemma {:induction false} TransferSays(c: Crypto, path: Path, msg: Bytes, template: Bytes, expert: bool)
    requires ParseTx(c, path, TxTransfer, msg, template, expert).1.Ok?
    ensures ReadRequest(msg).Ok? && c.publicKey(path).Some?
    ensures var p, (txType, f) := ParseTx(c, path, TxTransfer, msg, template, expert).1.value, ReadRequest(msg).value;
            && Integrity.ReadJson(p.text).Ok?
            && (NeedsBlind(p.review.items) <==> UsesNamespace(f))
            && Says(Integrity.ReadJson(p.text).value, p.review) ==
               if UsesNamespace(f) then TokenSays(f, txType) else CoinSays(f, txType, HexLower(c.publicKey(path).value))
  {
    hide TransferSpec.Build, ReadRequest, ReviewText, Reviews, UsesNamespace, FieldsInRange, FieldsAllowed, Tree,
      Says, TokenSays, CoinSays, NeedsBlind, Integrity.ReadJson, HexLower, TellsFields;
    BuiltRequest(msg, c.publicKey(path));
    var (txType, f) := ReadRequest(msg).value;
    var addr := HexLower(c.publicKey(path).value);
    var j := TemplateRead(msg, c.publicKey(path).value, txType, f);
    var p := ParseTx(c, path, TxTransfer, msg, template, expert).1.value;
    TreeIsObject(f, txType, addr);
    var k := TreeReviewed(c, path, p.text, expert, Tree(f, txType, addr));
    ReviewSays(j, f, txType, addr, p.review, k);
  }

  lemma {:induction false} BuiltRequest(msg: Bytes, key: Option<Key32>)
    requires TransferSpec.Build(msg, key).Ok?
    ensures ReadRequest(msg).Ok? && key.Some?
  {
    hide ReadRequest, Format;
  }

  /** The review of a text whose tree is known. */
  lemma {:induction false} TreeReviewed(c: Crypto, path: Path, text: Bytes, expert: bool, root: Value) returns (k: nat)
    requires Integrity.ReadJson(text).Ok? && ReviewText(c, path, text, expert).Ok? && root.Obj?
    requires Located(Integrity.ReadJson(text).value, Ref(root, 0, 0))
    ensures c.publicKey(path).Some?
    ensures Reviews(Integrity.ReadJson(text).value, root, HexLower(c.publicKey(path).value),
                    ReviewText(c, path, text, expert).value, k)
  {
    hide Integrity.ReadJson, Located, Reviews, TxReview, Shows, HexLower;
    MakeNode(Integrity.ReadJson(text).value, Ref(root, 0, 0));
    k := AcceptedDocument(Integrity.ReadJson(text).value, root, c.publicKey(path), c.blake2b(text), expert);
  }
}
