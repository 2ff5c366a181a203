/**
 Which structured transfers are accepted, stated on the fields of the request: the template that is built is never
 refused for anything else.
 */
module RequestAcceptance {
  import opened Base
  import opened Errors
  import opened Syntax
  import opened JsmnSpec
  import opened Lookups
  import opened Nodes
  import opened ItemSpec
  import opened Review
  import opened Signers
  import opened TransferSpec
  import opened Template
  import opened TemplateLookups
  import opened ParserSpec
  import opened TransferReview
  import opened ReviewProof
  import opened RenderSpec
  import opened Showable
  import J = Json
  import TR = TemplateReading
  import ClearSigning
  import FeeSpec
  import Framing
  import Integrity

  /** The fields the review reads as numbers: coins in a strict form, times and gas limit as plain digits. */
  predicate NumbersFit(f: Fields) {
    (UsesNamespace(f) || IsAmount(f[AMOUNT])) && Digits(f[CREATION_TIME]) && Digits(f[TTL]) && Digits(f[GAS_LIMIT])
  }

  /** The fields the review can show: a network, and a fee within the caps that fits the screen buffer. */
  predicate TextsFit(f: Fields) {
    f[NETWORK] != [] && FeeSpec.MaxFee(f[GAS_LIMIT], f[GAS_PRICE], FEE_ROOM).Some?
  }

  // ---- The fields ------------------------------------------------------------------------------

  predicate Solid(s: Bytes) { s != [] && !J.HasBackslash(s) }

  lemma {:induction false} PlainUnescaped(s: Bytes)
    requires TR.Plain(s)
    ensures !J.HasBackslash(s)
  {
  }

  lemma {:induction false} DigitsSolid(v: Bytes)
    requires AfterDigits(v) == Some([])
    ensures v != [] && v != "null"
  {
    assert "null"[0] == 'n' && !IsDigit('n');
  }

  lemma {:induction false} DecimalGiven(v: Bytes)
    requires IsDecimal(v)
    ensures v != []
  {
  }

  lemma {:induction false} FieldsGiven(f: Fields, txType: nat)
    requires FieldsAllowed(f, txType)
    ensures f[AMOUNT] != [] && f[CREATION_TIME] != [] && f[TTL] != [] && f[GAS_LIMIT] != []
    ensures !J.HasBackslash(f[NETWORK]) && !J.HasBackslash(f[RECIPIENT]) && Solid(f[CHAIN_ID]) && f[CHAIN_ID] != "null"
    ensures !J.HasBackslash(f[NAMESPACE]) && !J.HasBackslash(f[MODULE]) && !J.HasBackslash(f[RECIPIENT_CHAIN])
    ensures txType == TRANSFER_CROSSCHAIN ==> f[RECIPIENT_CHAIN] != []
  {
    hide IsDecimal, AfterDigits, TR.Plain, J.HasBackslash;
    TR.AllowedHarmless(f, txType);
    PlainUnescaped(f[NETWORK]);
    PlainUnescaped(f[RECIPIENT]);
    PlainUnescaped(f[RECIPIENT_CHAIN]);
    PlainUnescaped(f[CHAIN_ID]);
    PlainUnescaped(f[NAMESPACE]);
    PlainUnescaped(f[MODULE]);
    assert FieldAllowed(AMOUNT, f[AMOUNT], txType) && FieldAllowed(CREATION_TIME, f[CREATION_TIME], txType);
    assert FieldAllowed(TTL, f[TTL], txType) && FieldAllowed(GAS_LIMIT, f[GAS_LIMIT], txType);
    assert FieldAllowed(CHAIN_ID, f[CHAIN_ID], txType);
    assert FieldAllowed(RECIPIENT_CHAIN, f[RECIPIENT_CHAIN], txType);
    DecimalGiven(f[AMOUNT]);
    DecimalGiven(f[CREATION_TIME]);
    DecimalGiven(f[TTL]);
    DecimalGiven(f[GAS_LIMIT]);
    DigitsSolid(f[CHAIN_ID]);
    if txType == TRANSFER_CROSSCHAIN { DigitsSolid(f[RECIPIENT_CHAIN]); }
  }

  lemma {:induction false} AccountSolid(key: Bytes)
    requires !J.HasBackslash(key)
    ensures Solid(Account(key)) && |Account(key)| == 2 + |key|
  {
  }

  // ---- No item is refused but for the numbers --------------------------------------------------

  /** The template's tree stands at token 0. */
  ghost predicate Stands(j: J.Json, f: Fields, txType: nat, addr: Bytes) {
    Node(j, 0, Tree(f, txType, addr)) && FieldsInRange(f) && FieldsAllowed(f, txType) && |addr| == 64 &&
    !J.HasBackslash(addr)
  }

  lemma {:induction false} NetworkPasses(j: J.Json, f: Fields, txType: nat, addr: Bytes)
    requires Stands(j, f, txType, addr)
    ensures NetworkItems(j).failure == None
  {
    hide Node, Tree, J.JsonData.GetResult, J.JsonData.IsNull, Child, FieldsAllowed, J.HasBackslash, ShownUnescaped;
    FieldsGiven(f, txType);
    TreeIsObject(f, txType, addr);
    RootChildren(f, txType, addr);
    NodeGet(j, 0, Tree(f, txType, addr), "networkId");
    StrShown(j, j.GetResult(0, "networkId").value, f[NETWORK]);
  }

  lemma {:induction false} ScopePasses(j: J.Json, signer: nat, keyTok: nat)
    ensures ScopeItems(j, signer, keyTok).failure == None
  {
  }

  lemma {:induction false} GasPasses(j: J.Json, at: nat)
    requires Node(j, at, TransferReview.GasCap())
    ensures CapItems(j, at) == NOTHING
  {
    hide Node, KindOfCap, Child, NameOf, ArgsOf, J.JsonData.GetResult;
    CapIs(Arr([], []), "coin.GAS");
    CapKindIs(j, at, TransferReview.GasCap());
  }

  lemma {:induction false} AmountPasses(j: J.Json, args: nat, f: Fields, txType: nat, addr: Bytes)
    requires Node(j, args, ArgsTree(f, txType, addr)) && FieldsAllowed(f, txType) && !J.HasBackslash(addr)
    ensures |j.Elements(args)| == (if txType == TRANSFER_CROSSCHAIN then 4 else 3)
    ensures TransferItems(j, j.Elements(args), txType == TRANSFER_CROSSCHAIN).failure == None <==> IsAmount(f[AMOUNT])
  {
    hide Node, J.JsonData.Elements, IsAmount, FieldsAllowed, J.HasBackslash, ShownUnescaped, Account, Print,
      ReceiverItems;
    var v, list := ArgsTree(f, txType, addr), j.Elements(args);
    FieldsGiven(f, txType);
    NodeElems(j, args, v);
    AccountSolid(addr);
    AccountSolid(f[RECIPIENT]);
    assert v.elems[0].value == Str(Account(addr)) && v.elems[1].value == Str(Account(f[RECIPIENT])) &&
           v.elems[2].value == Prim(f[AMOUNT]);
    StrShown(j, list[0], Account(addr));
    StrShown(j, list[1], Account(f[RECIPIENT]));
    NodeTells(j, list[2], Prim(f[AMOUNT]));
    ReceiverPasses(j, list[1]);
    if txType == TRANSFER_CROSSCHAIN { StrShown(j, list[3], f[RECIPIENT_CHAIN]); }
  }

  lemma {:induction false} ReceiverPasses(j: J.Json, to: nat)
    ensures ReceiverItems(j, to).failure == None
  {
  }

  lemma {:induction false} TransferPasses(j: J.Json, at: nat, f: Fields, txType: nat, addr: Bytes)
    requires Node(j, at, TransferReview.TransferCap(f, txType, addr))
    requires FieldsAllowed(f, txType) && !J.HasBackslash(addr)
    ensures CapItems(j, at).failure == None <==> UsesNamespace(f) || IsAmount(f[AMOUNT])
  {
    hide Node, KindOfCap, Child, NameOf, ArgsOf, J.JsonData.GetResult, J.JsonData.Elements, IsAmount, UsesNamespace,
      FieldsAllowed, TransferItems, CapTree, CapabilityName, ArgsTree, J.HasBackslash, CapLines, UnverifiedLines;
    var cap := TransferReview.TransferCap(f, txType, addr);
    CapIs(ArgsTree(f, txType, addr), CapabilityName(f, txType));
    CapKindIs(j, at, cap);
    CapArgs(j, at, cap);
    AmountPasses(j, j.GetResult(at, "args").value, f, txType, addr);
    if UsesNamespace(f) { TokenBlind(f, txType, addr); } else { CoinClear(f, txType, addr); }
  }

  lemma {:induction false} CapsPass(j: J.Json, at: nat, f: Fields, txType: nat, addr: Bytes)
    requires Node(j, at, SignerTree(f, txType, addr)) && FieldsAllowed(f, txType) && !J.HasBackslash(addr)
    ensures TransfersItems(j, at).failure == None <==> UsesNamespace(f) || IsAmount(f[AMOUNT])
  {
    hide Node, Child, J.JsonData.GetResult, J.JsonData.Elements, IsAmount, UsesNamespace, FieldsAllowed, CapItems,
      TransferReview.TransferCap, TransferReview.GasCap, J.HasBackslash, ValidClist, ClistOf, Text, ArgsTree, CapTree,
      CapabilityName;
    var entry, v := SignerTree(f, txType, addr), ClistTree(f, txType, addr);
    EntryIs(f, txType, addr);
    SignerChildren(f, txType, addr);
    ClistIs(j, at, entry);
    var clist := ValidClist(j, at).value;
    NodeElems(j, clist, v);
    ClistElems(f, txType, addr);
    var caps := j.Elements(clist);
    TransferPasses(j, caps[0], f, txType, addr);
    GasPasses(j, caps[1]);
    assert caps[1..][1..] == [];
    assert CapsItems(j, caps[1..]) == Then(CapItems(j, caps[1]), CapsItems(j, []));
    ThenPasses(CapItems(j, caps[0]), CapsItems(j, caps[1..]));
  }

  lemma {:induction false} ClistElems(f: Fields, txType: nat, addr: Bytes)
    ensures var v := ClistTree(f, txType, addr);
            && v.Arr? && |v.elems| == 2
            && v.elems[0].value == TransferReview.TransferCap(f, txType, addr)
            && v.elems[1].value == TransferReview.GasCap()
  {
    hide ArgsTree, CapTree, CapabilityName;
  }

  lemma {:induction false} FieldInteger(j: J.Json, at: nat, meta: Value, field: Bytes, s: Bytes)
    requires Node(j, at, meta) && meta.Obj? && Child(meta, Down.Key(field)) == Some(Prim(s)) && s != []
    ensures IntegerIfGiven(j, at, field) <==> Digits(s)
  {
    hide Node, Child, J.JsonData.GetResult, Digits, PlainInteger;
    NodeGet(j, at, meta, field);
    PrimInteger(j, j.GetResult(at, field).value, s);
  }

  lemma {:induction false} ChainPasses(j: J.Json, at: nat, f: Fields, txType: nat, addr: Bytes)
    requires j.GetResult(0, "meta") == Ok(at) && Node(j, at, MetaTree(f, addr)) && FieldsAllowed(f, txType)
    ensures ChainItems(j).failure == None
  {
    hide Node, Child, J.JsonData.GetResult, J.JsonData.IsNull, FieldsAllowed, MetaTree, ShownUnescaped, J.HasBackslash;
    FieldsGiven(f, txType);
    MetaIsObj(f, addr);
    MetaChildren(f, addr);
    NodeGet(j, at, MetaTree(f, addr), "chainId");
    StrShown(j, j.GetResult(at, "chainId").value, f[CHAIN_ID]);
  }

  lemma {:induction false} FeePasses(j: J.Json, at: nat, f: Fields, addr: Bytes)
    requires j.GetResult(0, "meta") == Ok(at) && Node(j, at, MetaTree(f, addr)) && !J.HasBackslash(addr)
    ensures GasItems(j).failure == None && FeeItems(j).failure == None
  {
    hide Node, Child, J.JsonData.GetResult, J.JsonData.IsNull, MetaTree, ShownUnescaped, J.HasBackslash, Account;
    MetaIsObj(f, addr);
    MetaChildren(f, addr);
    NodeGet(j, at, MetaTree(f, addr), "sender");
    AccountSolid(addr);
    StrShown(j, j.GetResult(at, "sender").value, Account(addr));
  }

  lemma {:induction false} MetaPasses(j: J.Json, f: Fields, txType: nat, addr: Bytes)
    requires Stands(j, f, txType, addr)
    ensures MetaItems(j).failure == None <==> Digits(f[CREATION_TIME]) && Digits(f[TTL]) && Digits(f[GAS_LIMIT])
  {
    hide Node, Tree, Child, J.JsonData.GetResult, J.JsonData.IsNull, FieldsAllowed, MetaTree, ChainItems, GasItems,
      FeeItems, Digits, IntegerIfGiven, ValidateMeta, MetaRecognised, J.HasBackslash, Account, Print;
    var root, meta := Tree(f, txType, addr), MetaTree(f, addr);
    FieldsGiven(f, txType);
    TreeIsObject(f, txType, addr);
    RootChildren(f, txType, addr);
    MetaIsObj(f, addr);
    MetaChildren(f, addr);
    NodeGet(j, 0, root, "meta");
    var at := j.GetResult(0, "meta").value;
    NodeTells(j, at, meta);
    NodeGet(j, at, meta, "sender");
    TreeRecognised(f, txType, addr);
    RecognisedIs(j, root);
    FieldInteger(j, at, meta, "creationTime", f[CREATION_TIME]);
    FieldInteger(j, at, meta, "ttl", f[TTL]);
    FieldInteger(j, at, meta, "gasLimit", f[GAS_LIMIT]);
    ChainPasses(j, at, f, txType, addr);
    FeePasses(j, at, f, addr);
    ThenPasses(GasItems(j), FeeItems(j));
    ThenPasses(ChainItems(j), Then(GasItems(j), FeeItems(j)));
  }

  /** The review of the template's one signer is refused for its numbers only. */
  lemma {:induction false} ItemsPass(j: J.Json, at: nat, f: Fields, txType: nat, addr: Bytes)
    requires Stands(j, f, txType, addr) && Node(j, at, SignerTree(f, txType, addr))
    ensures TxItems(j, at, 1).failure == None <==> NumbersFit(f)
  {
    hide Node, Tree, SignerTree, Child, J.JsonData.GetResult, FieldsAllowed, NetworkItems, ScopeItems, TransfersItems,
      MetaItems, UsesNamespace, IsAmount, Digits, Then, J.HasBackslash, ClistOf;
    EntryIs(f, txType, addr);
    SignerIsObj(f, txType, addr);
    NodeGet(j, at, SignerTree(f, txType, addr), "pubKey");
    var key := j.GetResult(at, "pubKey").value;
    TxSections(j, at, 1);
    NetworkPasses(j, f, txType, addr);
    ScopePasses(j, at, key);
    CapsPass(j, at, f, txType, addr);
    MetaPasses(j, f, txType, addr);
    KeyPasses(key);
    ThenPasses(Say(Title.Signing, SigningText), NetworkItems(j));
    ThenPasses(StartItems(j), KeyItems(key, 1));
    ThenPasses(TransfersItems(j, at), MetaItems(j));
    ThenPasses(ScopeItems(j, at, key), Then(TransfersItems(j, at), MetaItems(j)));
    ThenPasses(OpeningItems(j, key, 1), Then(ScopeItems(j, at, key), Then(TransfersItems(j, at), MetaItems(j))));
    LengthsPass(Sections(j, at, key, 1));
  }

  lemma {:induction false} SignerIsObj(f: Fields, txType: nat, addr: Bytes)
    ensures SignerTree(f, txType, addr).Obj?
  {
  }

  lemma {:induction false} KeyPasses(key: nat)
    ensures KeyItems(key, 1).failure == None
  {
  }

  lemma {:induction false} LengthsPass(b: Build)
    ensures WithLengths(b).failure == b.failure
  {
  }

  // ---- The template's lines --------------------------------------------------------------------

  lemma {:induction false} FineStr(title: Title, s: Bytes)
    requires s != [] && |s| < VALUE_BUF
    ensures Fine(Shown(title, Std, Str(s)), 1, true) && Fine(Shown(title, Std, Prim(s)), 1, true)
  {
    FineOne(Line(title, Std, Str(s), true));
    PrimText(s);
    FineOne(Line(title, Std, Prim(s), true));
  }

  lemma {:induction false} PrimText(s: Bytes)
    ensures Text(Prim(s)) == s
  {
  }

  lemma {:induction false} NetworkFine(f: Fields, txType: nat, addr: Bytes)
    requires FieldsInRange(f)
    ensures Fine(NetworkLines(Tree(f, txType, addr)), 1, f[NETWORK] != [])
  {
    hide Tree, Child, Fine, IsNullText;
    RootChildren(f, txType, addr);
    assert |f[NETWORK]| <= 20;
    if IsNullText(Str(f[NETWORK])) {
      FineNone();
      FineMore([], 0, 1, true);
      NullGiven(f[NETWORK]);
    } else {
      NetworkLine(f[NETWORK]);
    }
  }

  lemma {:induction false} NullGiven(s: Bytes)
    requires IsNullText(Str(s))
    ensures s != []
  {
  }

  lemma {:induction false} NetworkLine(s: Bytes)
    requires |s| <= 20
    ensures Fine(Shown(OnNetwork, Std, Str(s)), 1, s != [])
  {
    FineOne(Line(OnNetwork, Std, Str(s), true));
  }

  lemma {:induction false} OpeningFine(f: Fields, txType: nat, addr: Bytes)
    requires FieldsInRange(f) && |addr| == 64
    ensures Fine(OpeningLines(Tree(f, txType, addr), Str(addr), 1), 4, f[NETWORK] != [])
  {
    hide Tree, NetworkLines, Fine, FieldsInRange;
    NetworkFine(f, txType, addr);
    FinePlain(Title.Signing, SigningText);
    FinePlain(Title.Requiring, RequiringText);
    FineStr(OfKey, addr);
    var net := NetworkLines(Tree(f, txType, addr));
    var who := Plain(Title.Requiring, RequiringText) + Shown(OfKey, Std, Str(addr));
    FineCat(Plain(Title.Requiring, RequiringText), 1, true, Shown(OfKey, Std, Str(addr)), 1, true);
    FineCat(Plain(Title.Signing, SigningText), 1, true, net, 1, f[NETWORK] != []);
    FineCat(Plain(Title.Signing, SigningText) + net, 2, f[NETWORK] != [], who, 2, true);
    assert [] + who == who;
  }

  lemma {:induction false} ScopeFine(entry: Value, addr: Bytes)
    requires |addr| == 64
    ensures Fine(ScopeLines(entry, Str(addr)), 1, true)
  {
    hide ClistOf, NameOf, KeyAmong, Fine;
    FineStr(UnscopedSigner, addr);
    FineStr(KeyNotInTransfer, addr);
    FineNone();
    FineMore([], 0, 1, true);
  }

  /** Coins: who pays whom how much and where. */
  lemma {:induction false} CoinFine(f: Fields, txType: nat, addr: Bytes)
    requires FieldsInRange(f) && FieldsAllowed(f, txType) && |addr| == 64 && !UsesNamespace(f)
    ensures Fine(CapLines(TransferReview.TransferCap(f, txType, addr)), 6, true)
  {
    hide TransferReview.TransferCap, CapLines, FieldsInRange, FieldsAllowed, UsesNamespace, ArgsTree, Kids, ArgsOf,
      NameOf, TransferLines;
    var cap := TransferReview.TransferCap(f, txType, addr);
    CoinClear(f, txType, addr);
    TransferReview.ArgsAre(f, txType, addr);
    CoinLines(cap);
    TransferFine(f, txType, addr, ArgsOf(cap));
  }

  lemma {:induction false} TransferFine(f: Fields, txType: nat, addr: Bytes, args: seq<Value>)
    requires FieldsInRange(f) && FieldsAllowed(f, txType) && |addr| == 64
    requires args == [Str(Account(addr)), Str(Account(f[RECIPIENT])), Prim(f[AMOUNT])] +
                     (if txType == TRANSFER_CROSSCHAIN then [Str(f[RECIPIENT_CHAIN])] else [])
    ensures Fine(TransferLines(args, txType == TRANSFER_CROSSCHAIN), 6, true)
  {
    hide FieldsAllowed, Fine, Principal.IsPrincipal, Account, Text;
    var cross := txType == TRANSFER_CROSSCHAIN;
    FieldsGiven(f, txType);
    AccountLength(addr);
    AccountLength(f[RECIPIENT]);
    assert |f[AMOUNT]| <= 32 && |f[RECIPIENT_CHAIN]| <= 2;
    var render := if cross then CrossTransferText else TransferText;
    var to, chain, warn := Shown(To, Std, args[1]), if cross then Shown(ToChain, Std, args[3]) else [],
                           if Principal.IsPrincipal(Text(args[1])) then [] else Plain(Title.Warning, NotPrincipal);
    FinePlain(Title.Transfer, render);
    FineStr(From, Account(addr));
    FineStr(To, Account(f[RECIPIENT]));
    AmountFine(f[AMOUNT]);
    FineNone();
    FineMore([], 0, 1, true);
    if cross { FineStr(ToChain, f[RECIPIENT_CHAIN]); }
    FinePlain(Title.Warning, NotPrincipal);
    var a := Plain(Title.Transfer, render) + Shown(From, Std, args[0]);
    FineCat(Plain(Title.Transfer, render), 1, true, Shown(From, Std, args[0]), 1, true);
    FineCat(a, 2, true, to, 1, true);
    FineCat(a + to, 3, true, Shown(Amount, AmountText, NumberOf(args[2])), 1, true);
    FineCat(a + to + Shown(Amount, AmountText, NumberOf(args[2])), 4, true, chain, 1, true);
    FineCat(a + to + Shown(Amount, AmountText, NumberOf(args[2])) + chain, 5, true, warn, 1, true);
  }

  lemma {:induction false} AccountLength(key: Bytes)
    ensures |Account(key)| == 2 + |key|
  {
  }

  lemma {:induction false} AmountFine(s: Bytes)
    requires s != [] && |s| <= 32
    ensures Fine(Shown(Amount, AmountText, NumberOf(Prim(s))), 1, true)
  {
    PrimText(s);
    FineOne(Line(Amount, AmountText, Prim(s), true));
  }

  /** A token: its capability, its namespace and its arguments. */
  lemma {:induction false} TokenFine(f: Fields, txType: nat, addr: Bytes)
    requires FieldsInRange(f) && FieldsAllowed(f, txType) && UsesNamespace(f)
    ensures Fine(CapLines(TransferReview.TransferCap(f, txType, addr)), 6, true)
  {
    hide FieldsAllowed, FieldsInRange, Fine, CapTree, ArgsTree, NameOf, UsesNamespace, CapabilityName,
      SplitNamespace, Fits, CapLines, Child;
    var cap := TransferReview.TransferCap(f, txType, addr);
    CapIs(ArgsTree(f, txType, addr), CapabilityName(f, txType));
    TokenName(f, txType);
    TokenBlind(f, txType, addr);
    var a, b, c := Plain(Title.Warning, CapNotVerified), Shown(Capability, CapName, cap),
                   Shown(Title.Namespace, CapNamespace, cap);
    var d := [Line(Arguments, UnknownText, cap, Fits(cap))];
    NameFine(f, txType, cap);
    FinePlain(Title.Warning, CapNotVerified);
    FineCat(a, 1, true, b, 1, true);
    FineCat(a + b, 2, true, c, 1, true);
    FineCat(a + b + c, 3, true, d, 1, true);
    FineMore(a + b + c + d, 4, 6, true);
  }

  lemma {:induction false} NameFine(f: Fields, txType: nat, cap: Value)
    requires FieldsInRange(f) && UsesNamespace(f)
    requires cap.Obj? && Get(cap, "name").Some? && Get(cap, "args").Some?
    requires SplitNamespace(NameOf(cap)) == (Some(f[NAMESPACE]), f[MODULE] + Suffix(txType))
    ensures Fine(Shown(Capability, CapName, cap), 1, true) && Fine(Shown(Title.Namespace, CapNamespace, cap), 1, true)
    ensures Fine([Line(Arguments, UnknownText, cap, Fits(cap))], 1, true)
  {
    hide SplitNamespace, NameOf, Fits, Child, Fine;
    FineOne(Line(Capability, CapName, cap, true));
    FineOne(Line(Title.Namespace, CapNamespace, cap, true));
    FineOne(Line(Arguments, UnknownText, cap, Fits(cap)));
  }

  lemma {:induction false} MetaFine(f: Fields, txType: nat, addr: Bytes)
    requires FieldsInRange(f) && FieldsAllowed(f, txType) && |addr| == 64
    ensures Fine(MetaLines(Tree(f, txType, addr)), 4, FeeSpec.MaxFee(f[GAS_LIMIT], f[GAS_PRICE], FEE_ROOM).Some?)
  {
    hide FieldsAllowed, Fine, Tree, MetaTree, Child, MetaRecognised, FeeSpec.MaxFee, Account, Text;
    var meta := MetaTree(f, addr);
    FieldsGiven(f, txType);
    RootChildren(f, txType, addr);
    MetaIsObj(f, addr);
    MetaChildren(f, addr);
    TreeRecognised(f, txType, addr);
    AccountLength(addr);
    assert |f[CHAIN_ID]| <= 2 && |f[GAS_LIMIT]| <= 10 && |f[GAS_PRICE]| <= 20;
    ChainText(f[CHAIN_ID]);
    FineStr(OnChain, f[CHAIN_ID]);
    FineStr(PayingAccount, Account(addr));
    GasFine(f, meta);
    var ok := FeeSpec.MaxFee(f[GAS_LIMIT], f[GAS_PRICE], FEE_ROOM).Some?;
    var a, b, c := ChainLines(meta), Shown(UsingGas, GasText, meta), Shown(Title.MaxFee, MaxFeeText, meta);
    FineCat(a, 1, true, b, 1, true);
    FineCat(a + b, 2, true, c, 1, ok);
    FineCat(a + b + c, 3, ok, PayerLines(meta), 1, true);
  }

  lemma {:induction false} GasFine(f: Fields, meta: Value)
    requires meta.Obj? && Get(meta, "gasLimit") == Some(Prim(f[GAS_LIMIT])) &&
             Get(meta, "gasPrice") == Some(Prim(f[GAS_PRICE])) && |f[GAS_LIMIT]| <= 10 && |f[GAS_PRICE]| <= 20
    ensures Fine(Shown(UsingGas, GasText, meta), 1, true)
    ensures Fine(Shown(Title.MaxFee, MaxFeeText, meta), 1,
                 FeeSpec.MaxFee(f[GAS_LIMIT], f[GAS_PRICE], FEE_ROOM).Some?)
  {
    hide Child, FeeSpec.MaxFee, Fine;
    PrimText(f[GAS_LIMIT]);
    PrimText(f[GAS_PRICE]);
    FineOne(Line(UsingGas, GasText, meta, true));
    FineOne(Line(Title.MaxFee, MaxFeeText, meta, true));
  }

  /** The review of the template can be shown exactly if its texts fit. */
  lemma {:induction false} ReviewFine(f: Fields, txType: nat, addr: Bytes)
    requires FieldsInRange(f) && FieldsAllowed(f, txType) && |addr| == 64
    ensures Fine(ReviewLines(Tree(f, txType, addr), SignerTree(f, txType, addr), 1), 16, TextsFit(f))
  {
    hide FieldsAllowed, FieldsInRange, Fine, Tree, SignerTree, OpeningLines, ScopeLines, CapabilitiesLines, MetaLines,
      Child, CapLines, TransferReview.TransferCap, UsesNamespace, FeeSpec.MaxFee, ClistOf;
    var root, entry := Tree(f, txType, addr), SignerTree(f, txType, addr);
    EntryIs(f, txType, addr);
    ScopeIs(f, txType, addr);
    OpeningFine(f, txType, addr);
    ScopeFine(entry, addr);
    if UsesNamespace(f) { TokenFine(f, txType, addr); } else { CoinFine(f, txType, addr); }
    MetaFine(f, txType, addr);
    var net, fee := f[NETWORK] != [], FeeSpec.MaxFee(f[GAS_LIMIT], f[GAS_PRICE], FEE_ROOM).Some?;
    var a, b, c, d := OpeningLines(root, Str(addr), 1), ScopeLines(entry, Str(addr)), CapabilitiesLines(entry),
                      MetaLines(root);
    FineCat(a, 4, net, b, 1, true);
    FineCat(a + b, 5, net, c, 6, true);
    FineCat(a + b + c, 11, net, d, 4, fee);
    FineNone();
    FineMore([], 0, 1, true);
    FinePlain(Title.Warning, TxTooLarge);
    var more := if exists l | l in Lines(root, entry, 1) :: !l.canDisplay then Plain(Title.Warning, TxTooLarge) else [];
    FineCat(a + b + c + d, 15, net && fee, more, 1, true);
  }

  // ---- What expert mode adds -------------------------------------------------------------------

  /** The added lines: a payload that is code, the validity window, the hash and the address. */
  function ExpertLines(f: Fields): seq<Line> {
    Plain(Payload, ExecText) + (Shown(Created, Std, Prim(f[CREATION_TIME])) + Shown(Title.Ttl, Std, Prim(f[TTL]))) +
    (Plain(TransactionHash, HashText) + Plain(SignForAddress, SignForAddrText))
  }

  lemma {:induction false} ExpertFine(f: Fields, txType: nat)
    requires FieldsInRange(f) && FieldsAllowed(f, txType)
    ensures Fine(ExpertLines(f), 5, true)
  {
    hide FieldsAllowed, Fine;
    FieldsGiven(f, txType);
    assert |f[CREATION_TIME]| <= 12 && |f[TTL]| <= 20;
    var a, b, c := Plain(Payload, ExecText), Shown(Created, Std, Prim(f[CREATION_TIME])),
                   Shown(Title.Ttl, Std, Prim(f[TTL]));
    FinePlain(Payload, ExecText);
    FineStr(Created, f[CREATION_TIME]);
    FineStr(Title.Ttl, f[TTL]);
    FinePlain(TransactionHash, HashText);
    FinePlain(SignForAddress, SignForAddrText);
    FineCat(b, 1, true, c, 1, true);
    FineCat(a, 1, true, b + c, 2, true);
    FineCat(Plain(TransactionHash, HashText), 1, true, Plain(SignForAddress, SignForAddrText), 1, true);
    FineCat(a + (b + c), 3, true, Plain(TransactionHash, HashText) + Plain(SignForAddress, SignForAddrText), 2, true);
  }

  lemma {:induction false} PayloadIs(j: J.Json, f: Fields, txType: nat, addr: Bytes)
    requires Stands(j, f, txType, addr)
    ensures PayloadItems(j) == Say(Payload, ExecText)
  {
    hide Node, Tree, Child, J.JsonData.GetResult, ExecTree, FieldsAllowed, J.HasBackslash;
    var root, exec := Tree(f, txType, addr), ExecTree(f, txType, addr);
    TreeIsObject(f, txType, addr);
    RootChildren(f, txType, addr);
    NodeGet(j, 0, root, "payload");
    ExecGiven(exec);
    NodeGet(j, j.GetResult(0, "payload").value, Obj([], [M("exec", exec)]), "exec");
  }

  lemma {:induction false} ExecGiven(exec: Value)
    ensures Get(Obj([], [M("exec", exec)]), "exec") == Some(exec)
  {
    NamedOne("exec", exec, "exec");
  }

  lemma {:induction false} TimesMatch(j: J.Json, f: Fields, txType: nat, addr: Bytes)
    requires Stands(j, f, txType, addr)
    ensures ValidateMeta(j).Ok? && TimeItems(j).failure == None
    ensures Mirrors(j, TimeItems(j).items,
                    Shown(Created, Std, Prim(f[CREATION_TIME])) + Shown(Title.Ttl, Std, Prim(f[TTL])))
  {
    hide Node, Tree, MetaTree, Child, J.JsonData.GetResult, FieldsAllowed, J.HasBackslash, ValidateMeta,
      MetaRecognised, Mirrors;
    var root, meta := Tree(f, txType, addr), MetaTree(f, addr);
    TreeIsObject(f, txType, addr);
    RootChildren(f, txType, addr);
    MetaIsObj(f, addr);
    MetaChildren(f, addr);
    TreeRecognised(f, txType, addr);
    RecognisedIs(j, root);
    NodeGet(j, 0, root, "meta");
    var at := j.GetResult(0, "meta").value;
    NodeGet(j, at, meta, "creationTime");
    NodeGet(j, at, meta, "ttl");
    var created, ttl := j.GetResult(at, "creationTime").value, j.GetResult(at, "ttl").value;
    MirrorsShow(j, Created, Std, created, Prim(f[CREATION_TIME]));
    MirrorsShow(j, Title.Ttl, Std, ttl, Prim(f[TTL]));
    MirrorsCat(j, Show(Created, Std, created).items, Show(Title.Ttl, Std, ttl).items,
               Shown(Created, Std, Prim(f[CREATION_TIME])), Shown(Title.Ttl, Std, Prim(f[TTL])));
  }

  lemma {:induction false} ExpertMatches(j: J.Json, f: Fields, txType: nat, addr: Bytes)
    requires Stands(j, f, txType, addr)
    ensures var b := Then(ExpertMeta(j), ExpertItems()); b.failure == None && Mirrors(j, b.items, ExpertLines(f))
  {
    hide Stands, PayloadItems, TimeItems, ValidateMeta, Mirrors;
    PayloadIs(j, f, txType, addr);
    TimesMatch(j, f, txType, addr);
    MirrorsSay(j, Payload, ExecText);
    MirrorsSay(j, TransactionHash, HashText);
    MirrorsSay(j, SignForAddress, SignForAddrText);
    var times := Shown(Created, Std, Prim(f[CREATION_TIME])) + Shown(Title.Ttl, Std, Prim(f[TTL]));
    MirrorsCat(j, Say(Payload, ExecText).items, TimeItems(j).items, Plain(Payload, ExecText), times);
    MirrorsCat(j, Say(TransactionHash, HashText).items, Say(SignForAddress, SignForAddrText).items,
               Plain(TransactionHash, HashText), Plain(SignForAddress, SignForAddrText));
    MirrorsCat(j, ExpertMeta(j).items, ExpertItems().items, Plain(Payload, ExecText) + times,
               Plain(TransactionHash, HashText) + Plain(SignForAddress, SignForAddrText));
  }

  // ---- The device's entry ----------------------------------------------------------------------

  lemma {:induction false} SameName(s: Bytes)
    ensures EqualIgnoringCase(s, s)
  {
  }

  lemma {:induction false} NoAddr(f: Fields, txType: nat, addr: Bytes)
    ensures Get(SignerTree(f, txType, addr), "addr") == None
  {
    hide ClistTree;
    var clist := [M("clist", ClistTree(f, txType, addr))];
    NamedOne("clist", ClistTree(f, txType, addr), "addr");
    NamedCons("pubKey", Str(addr), clist, "addr");
  }

  lemma {:induction false} EntryNamed(f: Fields, txType: nat, addr: Bytes)
    requires !J.HasBackslash(addr)
    ensures TheDevice([E(SignerTree(f, txType, addr))], addr, 0)
  {
    hide SignerTree, Child, J.HasBackslash, EqualIgnoringCase;
    EntryIs(f, txType, addr);
    SignerIsObj(f, txType, addr);
    NoAddr(f, txType, addr);
    SameName(addr);
    assert Text(Str(addr)) == addr;
  }

  lemma {:induction false} NamePlain(f: Fields, txType: nat)
    requires FieldsAllowed(f, txType)
    ensures !J.HasBackslash(CapabilityName(f, txType))
  {
    hide FieldsAllowed;
    FieldsGiven(f, txType);
  }

  lemma {:induction false} GasNamePlain()
    ensures !J.HasBackslash("coin.GAS")
  {
    assert forall i | 0 <= i < 8 :: "coin.GAS"[i] != '\\';
  }

  lemma {:induction false} EntryPlain(f: Fields, txType: nat, addr: Bytes)
    requires FieldsAllowed(f, txType)
    ensures NamesPlain(SignerTree(f, txType, addr)) && Get(SignerTree(f, txType, addr), "clist").Some?
    ensures forall c | c in Kids(Get(SignerTree(f, txType, addr), "clist").value) :: c.Obj?
  {
    hide SignerTree, Child, J.HasBackslash, FieldsAllowed, NameOf, ArgsOf, ArgsTree, CapabilityName, CapTree, ClistOf,
      ClistTree;
    EntryIs(f, txType, addr);
    SignerChildren(f, txType, addr);
    ClistElems(f, txType, addr);
    NamePlain(f, txType);
    CapIs(ArgsTree(f, txType, addr), CapabilityName(f, txType));
    CapIs(Arr([], []), "coin.GAS");
    GasNamePlain();
    assert ClistOf(SignerTree(f, txType, addr)) ==
           [TransferReview.TransferCap(f, txType, addr), TransferReview.GasCap()];
  }

  lemma {:induction false} DeviceStands(j: J.Json, f: Fields, txType: nat, addr: Bytes)
    requires Stands(j, f, txType, addr)
    ensures j.GetResult(0, "verifiers").Err?
    ensures FindDeviceSigner(j, addr).Ok? && FindDeviceSigner(j, addr).value.1 == 1
    ensures Node(j, FindDeviceSigner(j, addr).value.0, SignerTree(f, txType, addr))
  {
    hide Node, Tree, SignerTree, Child, J.JsonData.GetResult, FieldsAllowed, J.HasBackslash, FindDeviceSigner,
      TheDevice, NamesPlain, Kids;
    var root := Tree(f, txType, addr);
    TreeIsObject(f, txType, addr);
    RootChildren(f, txType, addr);
    NodeGet(j, 0, root, "verifiers");
    EntryNamed(f, txType, addr);
    EntryPlain(f, txType, addr);
    DeviceIsFound(j, root, addr, 0);
  }

  // ---- When a request is accepted --------------------------------------------------------------

  lemma {:induction false} ItemsMirror(j: J.Json, at: nat, f: Fields, txType: nat, addr: Bytes)
    requires Stands(j, f, txType, addr) && Node(j, at, SignerTree(f, txType, addr))
    requires TxItems(j, at, 1).failure == None
    ensures Mirrors(j, TxItems(j, at, 1).items, ReviewLines(Tree(f, txType, addr), SignerTree(f, txType, addr), 1))
  {
    hide Node, Tree, SignerTree, Mirrors, ReviewLines, TxItems, FieldsAllowed, ClistOf;
    TreeIsObject(f, txType, addr);
    SignerIsObj(f, txType, addr);
    EntryIs(f, txType, addr);
    ReviewMirrors(j, Tree(f, txType, addr), at, SignerTree(f, txType, addr), 1);
  }

  /** The items of the review and, in expert mode, those added to it. */
  lemma {:induction false} ReviewShows(j: J.Json, r: ParserSpec.Review, at: nat, f: Fields, txType: nat, addr: Bytes,
      expert: bool)
    requires Stands(j, f, txType, addr) && Node(j, at, SignerTree(f, txType, addr)) && ContextFits(r.context)
    requires TxItems(j, at, 1).failure == None
    requires r.items == TxItems(j, at, 1).items + if expert then Then(ExpertMeta(j), ExpertItems()).items else []
    ensures Shows(j, r) <==> TextsFit(f)
  {
    hide Node, Tree, SignerTree, Mirrors, ReviewLines, TxItems, FieldsInRange, FieldsAllowed, ExpertMeta, ExpertItems,
      ExpertLines, Fine, TextsFit, ContextFits, Shows, Then, J.HasBackslash;
    var lines := ReviewLines(Tree(f, txType, addr), SignerTree(f, txType, addr), 1);
    ItemsMirror(j, at, f, txType, addr);
    ReviewFine(f, txType, addr);
    var more, added := if expert then Then(ExpertMeta(j), ExpertItems()).items else [],
                       if expert then ExpertLines(f) else [];
    FineNone();
    MirrorsNone(j);
    FineMore([], 0, 5, true);
    ExpertMatches(j, f, txType, addr);
    ExpertFine(f, txType);
    FineCat(lines, 16, TextsFit(f), added, 5, true);
    MirrorsCat(j, TxItems(j, at, 1).items, more, lines, added);
    ItemsShow(j, r, lines + added, 21, TextsFit(f));
  }

  lemma {:induction false} FewItems(j: J.Json, at: nat, f: Fields, txType: nat, addr: Bytes)
    requires Stands(j, f, txType, addr) && Node(j, at, SignerTree(f, txType, addr))
    requires TxItems(j, at, 1).failure == None
    ensures |TxItems(j, at, 1).items| <= 16 && |Then(ExpertMeta(j), ExpertItems()).items| <= 5
  {
    hide Node, Tree, SignerTree, ReviewLines, TxItems, FieldsInRange, FieldsAllowed, ExpertMeta, ExpertItems,
      ExpertLines, TextsFit, Then, StandsFor, Shaped, LineShows, J.HasBackslash;
    ItemsMirror(j, at, f, txType, addr);
    ReviewFine(f, txType, addr);
    ExpertMatches(j, f, txType, addr);
    ExpertFine(f, txType);
  }

  /** The template is reviewed exactly if its numbers and texts fit and the hash can be computed. */
  lemma {:induction false} TemplateReviewed(j: J.Json, f: Fields, txType: nat, key: Key32, digest: Option<Key32>,
      expert: bool)
    requires Stands(j, f, txType, HexLower(key))
    ensures Validated(j, TxReview(j, Some(key), digest, expert)).Ok? <==> NumbersFit(f) && TextsFit(f) && digest.Some?
  {
    hide Stands, SignerTree, TxItems, FindDeviceSigner, ExpertMeta, ExpertItems, Then, NumbersFit, TextsFit, Shows,
      J.JsonData.GetResult, HashShown, Node, HexLower;
    var addr := HexLower(key);
    DeviceStands(j, f, txType, addr);
    var at := FindDeviceSigner(j, addr).value.0;
    ItemsPass(j, at, f, txType, addr);
    if TxItems(j, at, 1).failure == None && digest.Some? {
      FewItems(j, at, f, txType, addr);
      ExpertMatches(j, f, txType, addr);
      var r := TxReview(j, Some(key), digest, expert);
      assert [] + TxItems(j, at, 1).items == TxItems(j, at, 1).items;
      assert TxItems(j, at, 1).items + [] == TxItems(j, at, 1).items;
      ReviewShows(j, r.value, at, f, txType, addr, expert);
    }
  }

  lemma {:induction false} TemplateStands(msg: Bytes, key: Key32, txType: nat, f: Fields) returns (j: J.Json)
    requires ReadRequest(msg) == Ok((txType, f))
    ensures TransferSpec.Build(msg, Some(key)).Ok?
    ensures Integrity.ReadJson(TransferSpec.Build(msg, Some(key)).value) == Ok(j)
    ensures Stands(j, f, txType, HexLower(key))
  {
    hide TransferSpec.Build, ReadRequest, Tree, Located, FieldsInRange, FieldsAllowed, Integrity.ReadJson, HexLower,
      TellsFields, Node, TR.Plain, J.HasBackslash;
    j := TemplateRead(msg, key, txType, f);
    TR.HexPlain(key);
    PlainUnescaped(HexLower(key));
    MakeNode(j, Ref(Tree(f, txType, HexLower(key)), 0, 0));
  }

  /**
   A structured transfer is reviewed exactly if the request is one that `build` accepts, the device has its key
   and the template's hash, and the request's numbers and texts fit.
   */
  lemma {:induction false} TransferAccepted(c: Crypto, path: Path, msg: Bytes, template: Bytes, expert: bool)
    ensures ParseTx(c, path, TxTransfer, msg, template, expert).1.Ok? <==>
            && ReadRequest(msg).Ok? && c.publicKey(path).Some?
            && var (txType, f) := ReadRequest(msg).value;
            && NumbersFit(f) && TextsFit(f)
            && c.blake2b(PrintDoc(TemplateDoc(f, txType, HexLower(c.publicKey(path).value)))).Some?
  {
    hide TransferSpec.Build, ReadRequest, NumbersFit, TextsFit, Integrity.ReadJson, HexLower, Stands, TxReview,
      PrintDoc, Shows, Tree;
    var key := c.publicKey(path);
    if TransferSpec.Build(msg, key).Ok? { BuiltRequest(msg, key); }
    if ReadRequest(msg).Ok? && key.Some? {
      var (txType, f) := ReadRequest(msg).value;
      BuildFits(msg, key.value);
      var j := TemplateStands(msg, key.value, txType, f);
      var text := PrintDoc(TemplateDoc(f, txType, HexLower(key.value)));
      TemplateReviewed(j, f, txType, key.value, c.blake2b(text), expert);
    }
  }

  /** With blind signing switched off, exactly if besides it names no token; and the review is blind if it does. */
  lemma {:induction false} TransferParsed(c: Crypto, path: Path, msg: Bytes, template: Bytes, expert: bool,
      blindOn: bool)
    ensures TxParse(c, path, TxTransfer, msg, template, expert, blindOn).1.Ok? <==>
            && ParseTx(c, path, TxTransfer, msg, template, expert).1.Ok? && ReadRequest(msg).Ok?
            && (blindOn || !UsesNamespace(ReadRequest(msg).value.1))
    ensures var r := TxParse(c, path, TxTransfer, msg, template, expert, blindOn).1;
            r.Ok? ==> ReadRequest(msg).Ok? && (r.value.1 <==> UsesNamespace(ReadRequest(msg).value.1))
  {
    hide ParseTx, ReadRequest, NeedsBlind, UsesNamespace;
    if ParseTx(c, path, TxTransfer, msg, template, expert).1.Ok? {
      TransferSays(c, path, msg, template, expert);
      RequestGiven(msg);
    }
  }

  lemma {:induction false} RequestGiven(msg: Bytes)
    requires ReadRequest(msg).Ok?
    ensures msg != []
  {
    hide ReadFields, FieldsInRange, FieldsAllowed;
    var r := ReadRequest(msg);
    assert msg == [] ==> r == ReadRequest([]);
  }

  // ---- Requests that are read and refused ------------------------------------------------------

  function Sample(network: Bytes, gasLimit: Bytes): Fields {
    [seq(64, _ => 'a'), "", network, "1.0", "", "", "1", gasLimit, "1", "0", "", "1"]
  }

  function SampleRequest(network: Bytes, gasLimit: Bytes): Bytes
    requires |network| <= 20 && |gasLimit| <= 10
  {
    [TRANSFER as char] + Framing.Encode(Sample(network, gasLimit))
  }

  lemma {:induction false} SampleAllowed(network: Bytes, gasLimit: Bytes)
    requires (network == "" || network == "testnet04") && (gasLimit == "1" || gasLimit == "1.5")
    ensures FieldsInRange(Sample(network, gasLimit)) && FieldsAllowed(Sample(network, gasLimit), TRANSFER)
  {
    hide AfterDigits, IsDecimal, IsJsonNumber;
    OneIsNumber();
    OneHalfIsDecimal();
    assert forall c | c in "testnet04" :: IsNetworkByte(c);
    var f := Sample(network, gasLimit);
    forall i | 0 <= i < FIELDS ensures FieldAllowed(i, f[i], TRANSFER) { }
  }

  lemma {:induction false} OneIsNumber()
    ensures IsDecimal("1") && IsJsonNumber("1") && AfterDigits("0") == Some([])
  {
    assert "1"[1..] == "" && "0"[1..] == "";
    assert DigitRun("1") == 1 && DigitRun("0") == 1 && ExponentAt("1") == 1;
    assert "1"[..1] == "1";
  }

  lemma {:induction false} OneHalfIsDecimal()
    ensures IsDecimal("1.5") && IsDecimal("1.0") && '.' in "1.0"
  {
    assert "1.5"[1..] == ".5" && "1.0"[1..] == ".0" && ".5"[1..] == "5" && ".0"[1..] == "0";
    assert "5"[1..] == "" && "0"[1..] == "";
    assert DigitRun(".5") == 0 && DigitRun(".0") == 0 && DigitRun("5") == 1 && DigitRun("0") == 1;
    assert DigitRun("1.5") == 1 && DigitRun("1.0") == 1;
    assert "1.0"[1] == '.';
  }

  lemma {:induction false} SampleRead(network: Bytes, gasLimit: Bytes)
    requires (network == "" || network == "testnet04") && (gasLimit == "1" || gasLimit == "1.5")
    ensures ReadRequest(SampleRequest(network, gasLimit)) == Ok((TRANSFER, Sample(network, gasLimit)))
  {
    hide Framing.Encode, FieldsAllowed, FieldsInRange;
    SampleAllowed(network, gasLimit);
    var f, input := Sample(network, gasLimit), SampleRequest(network, gasLimit);
    assert input[1..] == Framing.Encode(f);
    Framing.ReadsEncoded(input, 1, f);
  }

  /** A gas limit of 1.5, or no network: `build` reads the request, and the review refuses it. */
  lemma {:induction false} ReadAndRefused(c: Crypto, path: Path, template: Bytes, expert: bool)
    ensures ReadRequest(SampleRequest("testnet04", "1.5")).Ok? && ReadRequest(SampleRequest("", "1")).Ok?
    ensures ParseTx(c, path, TxTransfer, SampleRequest("testnet04", "1.5"), template, expert).1.Err?
    ensures ParseTx(c, path, TxTransfer, SampleRequest("", "1"), template, expert).1.Err?
  {
    hide ParseTx, ReadRequest, SampleRequest, HexLower, PrintDoc, FeeSpec.MaxFee, IsAmount;
    SampleRead("testnet04", "1.5");
    SampleRead("", "1");
    TransferAccepted(c, path, SampleRequest("testnet04", "1.5"), template, expert);
    TransferAccepted(c, path, SampleRequest("", "1"), template, expert);
    assert !IsDigit("1.5"[1]);
  }
}
