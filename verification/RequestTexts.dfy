/** The whole review of an accepted structured transfer: every title and every text, from the fields of the request. */
module RequestTexts {
  import opened Base
  import opened Errors
  import opened Syntax
  import opened JsmnSpec
  import opened Lookups
  import opened Nodes
  import opened ItemSpec
  import opened Review
  import opened TransferSpec
  import opened Template
  import opened TemplateLookups
  import opened ParserSpec
  import opened TransferReview
  import opened ReviewProof
  import opened RenderSpec
  import opened Showable
  import opened ItemTexts
  import opened RequestAcceptance
  import J = Json
  import JsonAcceptance
  import ReviewTexts
  import ClearSigning
  import FeeSpec
  import D = Decimal
  import Integrity
  import Notations
  import Principal
  import TR = TemplateReading

  // ---- What is said ----------------------------------------------------------------------------

  type Saying = (Title, Bytes)

  function OpeningSays(f: Fields, addr: Bytes): seq<Saying> {
    [(Title.Signing, "Transaction")] + (if f[NETWORK] == "null" then [] else [(OnNetwork, f[NETWORK])]) +
    [(Title.Requiring, "Capabilities"), (OfKey, addr)]
  }

  /** Coins: who pays whom how much and, across chains, where. */
  function PaymentSays(f: Fields, txType: nat, addr: Bytes): seq<Saying> {
    [(Title.Transfer, if txType == 2 then "Cross-chain Transfer" else "Normal Transfer"), (From, "k:" + addr),
     (To, "k:" + f[RECIPIENT]), (Amount, "KDA " + f[AMOUNT])] +
    (if txType == 2 then [(ToChain, f[RECIPIENT_CHAIN])] else [])
  }

  /** The arguments of a token's capability. */
  function ArgumentTexts(f: Fields, txType: nat, addr: Bytes): seq<Bytes> {
    ["arg 1: \"k:" + addr + "\"", "arg 2: \"k:" + f[RECIPIENT] + "\"", "arg 3: " + f[AMOUNT]] +
    (if txType == 2 then ["arg 4: \"" + f[RECIPIENT_CHAIN] + "\""] else [])
  }

  /** A token: its capability, which is not verified, the namespace and the arguments. */
  function TokenScope(f: Fields, txType: nat, addr: Bytes): seq<Saying> {
    [(Title.Warning, CAP_NOT_VERIFIED_TEXT),
     (Capability, f[MODULE] + if txType == 2 then ".TRANSFER_XCHAIN" else ".TRANSFER"),
     (Title.Namespace, f[NAMESPACE]), (Arguments, Commas(ArgumentTexts(f, txType, addr)))]
  }

  function MetaSays(f: Fields, addr: Bytes, fee: Bytes): seq<Saying> {
    [(OnChain, f[CHAIN_ID]), (UsingGas, "at most " + f[GAS_LIMIT] + " at price " + f[GAS_PRICE]),
     (Title.MaxFee, "KDA " + fee), (PayingAccount, "k:" + addr)]
  }

  function ExpertSays(f: Fields, addr: Bytes, hash: Bytes): seq<Saying> {
    [(Payload, "exec (code)"), (Created, f[CREATION_TIME]), (Title.Ttl, f[TTL]), (TransactionHash, hash),
     (SignForAddress, addr)]
  }

  function RequestSays(f: Fields, txType: nat, addr: Bytes, fee: Bytes): seq<Saying> {
    OpeningSays(f, addr) + (if UsesNamespace(f) then TokenScope(f, txType, addr) else PaymentSays(f, txType, addr)) +
    MetaSays(f, addr, fee)
  }

  // ---- Lines that can say one thing only -------------------------------------------------------

  ghost predicate OnlySays(line: Line, c: Context, text: Bytes) {
    forall t: Bytes :: LineSays(line, c, t) ==> t == text
  }

  ghost predicate Spoken(lines: seq<Line>, says: seq<Saying>, c: Context) {
    |lines| == |says| &&
    forall i | 0 <= i < |lines| ::
      lines[i].canDisplay && lines[i].title == says[i].0 && OnlySays(lines[i], c, says[i].1)
  }

  lemma {:induction false} SpokenCat(a: seq<Line>, x: seq<Saying>, b: seq<Line>, y: seq<Saying>, c: Context)
    requires Spoken(a, x, c) && Spoken(b, y, c)
    ensures Spoken(a + b, x + y, c)
  {
    hide OnlySays;
  }

  lemma {:induction false} SpokenNone(c: Context)
    ensures Spoken([], [], c)
  {
  }

  lemma {:induction false} SpokenOne(line: Line, text: Bytes, c: Context)
    requires line.canDisplay && OnlySays(line, c, text)
    ensures Spoken([line], [(line.title, text)], c)
  {
    hide OnlySays;
  }

  lemma {:induction false} SaysText(title: Title, v: Value, c: Context)
    ensures Spoken(Shown(title, Std, v), [(title, Text(v))], c)
    ensures Spoken(Shown(title, AmountText, v), [(title, "KDA " + Text(v))], c)
  {
    hide Text;
    SpokenOne(Line(title, Std, v, true), Text(v), c);
    SpokenOne(Line(title, AmountText, v, true), "KDA " + Text(v), c);
  }

  lemma {:induction false} SaysFixed(title: Title, c: Context)
    ensures Spoken(Plain(title, SigningText), [(title, "Transaction")], c)
    ensures Spoken(Plain(title, RequiringText), [(title, "Capabilities")], c)
    ensures Spoken(Plain(title, TransferText), [(title, "Normal Transfer")], c)
    ensures Spoken(Plain(title, CrossTransferText), [(title, "Cross-chain Transfer")], c)
    ensures Spoken(Plain(title, CapNotVerified), [(title, CAP_NOT_VERIFIED_TEXT)], c)
    ensures Spoken(Plain(title, ExecText), [(title, "exec (code)")], c)
  {
    SpokenOne(Line(title, SigningText, NONE, true), "Transaction", c);
    SpokenOne(Line(title, RequiringText, NONE, true), "Capabilities", c);
    SpokenOne(Line(title, TransferText, NONE, true), "Normal Transfer", c);
    SpokenOne(Line(title, CrossTransferText, NONE, true), "Cross-chain Transfer", c);
    SpokenOne(Line(title, CapNotVerified, NONE, true), CAP_NOT_VERIFIED_TEXT, c);
    SpokenOne(Line(title, ExecText, NONE, true), "exec (code)", c);
  }

  lemma {:induction false} SaysContext(title: Title, c: Context)
    requires c.address.Some?
    ensures Spoken(Plain(title, HashText), [(title, c.hash)], c)
    ensures Spoken(Plain(title, SignForAddrText), [(title, c.address.value)], c)
  {
    SpokenOne(Line(title, HashText, NONE, true), c.hash, c);
    SpokenOne(Line(title, SignForAddrText, NONE, true), c.address.value, c);
  }

  // ---- Who signs -------------------------------------------------------------------------------

  lemma {:induction false} OpeningSpoken(f: Fields, txType: nat, addr: Bytes, c: Context)
    ensures Spoken(OpeningLines(Tree(f, txType, addr), Str(addr), 1), OpeningSays(f, addr), c)
  {
    hide Tree, Child, Spoken;
    RootChildren(f, txType, addr);
    SaysFixed(Title.Signing, c);
    SaysFixed(Title.Requiring, c);
    SaysText(OnNetwork, Str(f[NETWORK]), c);
    SaysText(OfKey, Str(addr), c);
    SpokenNone(c);
    var net, said := NetworkLines(Tree(f, txType, addr)),
                     if f[NETWORK] == "null" then [] else [(OnNetwork, f[NETWORK])];
    SpokenCat(Plain(Title.Requiring, RequiringText), [(Title.Requiring, "Capabilities")], Shown(OfKey, Std, Str(addr)),
      [(OfKey, addr)], c);
    SpokenCat(Plain(Title.Signing, SigningText), [(Title.Signing, "Transaction")], net, said, c);
    var who := Plain(Title.Requiring, RequiringText) + Shown(OfKey, Std, Str(addr));
    assert [(Title.Requiring, "Capabilities")] + [(OfKey, addr)] == [(Title.Requiring, "Capabilities"), (OfKey, addr)];
    SpokenCat(Plain(Title.Signing, SigningText) + net, [(Title.Signing, "Transaction")] + said, who,
      [(Title.Requiring, "Capabilities"), (OfKey, addr)], c);
    assert [] + who == who;
  }

  /** The signer's key is the sender of its transfer of coins. */
  lemma {:induction false} NoScopeLine(f: Fields, txType: nat, addr: Bytes)
    requires FieldsAllowed(f, txType)
    ensures ScopeLines(SignerTree(f, txType, addr), Str(addr)) == []
  {
    hide FieldsAllowed, CapTree, ArgsTree, NameOf, ArgsOf, Kids, SignerTree, CapabilityName, UsesNamespace;
    var cap, gas := TransferReview.TransferCap(f, txType, addr), TransferReview.GasCap();
    EntryIs(f, txType, addr);
    CapIs(ArgsTree(f, txType, addr), CapabilityName(f, txType));
    CapIs(Arr([], []), "coin.GAS");
    TransferReview.ArgsAre(f, txType, addr);
    assert ArgsOf(cap)[0] == Str(Account(addr)) && Text(Str(Account(addr))) == "k:" + addr;
    assert ArgsOf(cap)[0] in ArgsOf(cap) && NamesKey("k:" + addr, addr);
    assert ClistOf(SignerTree(f, txType, addr))[0] == cap;
  }

  // ---- What is granted -------------------------------------------------------------------------

  lemma {:induction false} RecipientPrincipal(f: Fields, txType: nat)
    requires FieldsInRange(f) && FieldsAllowed(f, txType)
    ensures Principal.IsPrincipal(Account(f[RECIPIENT]))
  {
    assert FieldAllowed(RECIPIENT, f[RECIPIENT], txType);
    var account := Account(f[RECIPIENT]);
    assert account[0] == 'k' && account[1] == ':' && account[2..] == f[RECIPIENT];
  }

  lemma {:induction false} PaymentSpoken(f: Fields, txType: nat, addr: Bytes, args: seq<Value>, c: Context)
    requires FieldsInRange(f) && FieldsAllowed(f, txType)
    requires args == [Str(Account(addr)), Str(Account(f[RECIPIENT])), Prim(f[AMOUNT])] +
                     (if txType == TRANSFER_CROSSCHAIN then [Str(f[RECIPIENT_CHAIN])] else [])
    ensures Spoken(TransferLines(args, txType == TRANSFER_CROSSCHAIN), PaymentSays(f, txType, addr), c)
  {
    hide FieldsAllowed, FieldsInRange, Spoken, Principal.IsPrincipal;
    var cross := txType == TRANSFER_CROSSCHAIN;
    var render, name := if cross then CrossTransferText else TransferText,
                        if cross then "Cross-chain Transfer" else "Normal Transfer";
    RecipientPrincipal(f, txType);
    SaysFixed(Title.Transfer, c);
    SaysText(From, args[0], c);
    SaysText(To, args[1], c);
    SaysText(Amount, NumberOf(args[2]), c);
    SpokenNone(c);
    var a, x := Plain(Title.Transfer, render) + Shown(From, Std, args[0]),
                [(Title.Transfer, name)] + [(From, "k:" + addr)];
    SpokenCat(Plain(Title.Transfer, render), [(Title.Transfer, name)], Shown(From, Std, args[0]), [(From, "k:" + addr)],
      c);
    SpokenCat(a, x, Shown(To, Std, args[1]), [(To, "k:" + f[RECIPIENT])], c);
    var b, y := a + Shown(To, Std, args[1]), x + [(To, "k:" + f[RECIPIENT])];
    SpokenCat(b, y, Shown(Amount, AmountText, NumberOf(args[2])), [(Amount, "KDA " + f[AMOUNT])], c);
    var d, z := b + Shown(Amount, AmountText, NumberOf(args[2])), y + [(Amount, "KDA " + f[AMOUNT])];
    var chain, said := if cross then Shown(ToChain, Std, args[3]) else [],
                       if cross then [(ToChain, f[RECIPIENT_CHAIN])] else [];
    if cross { SaysText(ToChain, args[3], c); }
    SpokenCat(d, z, chain, said, c);
    assert Text(args[1]) == Account(f[RECIPIENT]);
    assert TransferLines(args, cross) == d + chain;
    assert PaymentSays(f, txType, addr) == z + said;
  }

  // ---- A token ---------------------------------------------------------------------------------

  lemma {:induction false} TokenQualifies(f: Fields, txType: nat)
    requires FieldsAllowed(f, txType) && UsesNamespace(f)
    ensures Qualifies(CapabilityName(f, txType), f[NAMESPACE], f[MODULE] + Suffix(txType))
    ensures TwoDots(CapabilityName(f, txType))
  {
    hide FieldAllowed, IsPactIdent;
    AllowedNames(f, txType);
    NoDots(f[NAMESPACE]);
    var rest := f[MODULE] + Suffix(txType);
    var name := f[NAMESPACE] + ("." + rest);
    assert rest[|f[MODULE]|] == '.' && CapabilityName(f, txType) == name;
    assert name[|f[NAMESPACE]|] == '.' && name[|f[NAMESPACE]| + 1 + |f[MODULE]|] == '.';
  }

  lemma {:induction false} NameSpoken(cap: Value, namespace: Bytes, rest: Bytes, c: Context)
    requires Qualifies(NameOf(cap), namespace, rest) && TwoDots(NameOf(cap))
    ensures OnlySays(Line(Capability, CapName, cap, true), c, rest)
    ensures OnlySays(Line(Title.Namespace, CapNamespace, cap, true), c, namespace)
  {
    hide NameOf, TwoDots, Qualifies;
    forall t: Bytes | LineSays(Line(Capability, CapName, cap, true), c, t) ensures t == rest {
      var a :| Qualifies(NameOf(cap), a, t);
      OneNamespace(NameOf(cap), a, namespace, t, rest);
    }
    forall t: Bytes | LineSays(Line(Title.Namespace, CapNamespace, cap, true), c, t) ensures t == namespace {
      var x :| Qualifies(NameOf(cap), t, x);
      OneNamespace(NameOf(cap), t, namespace, x, rest);
    }
  }

  lemma {:induction false} PrintStr(s: Bytes)
    ensures Print(Str(s), []) == "\"" + s + "\"" && Print(Prim(s), []) == s
  {
  }

  /** The arguments as they are numbered. */
  lemma {:induction false} ArgumentsAre(f: Fields, txType: nat, addr: Bytes, args: seq<Value>)
    requires args == [Str(Account(addr)), Str(Account(f[RECIPIENT])), Prim(f[AMOUNT])] +
                     (if txType == TRANSFER_CROSSCHAIN then [Str(f[RECIPIENT_CHAIN])] else [])
    ensures Numbered(args, 0) == ArgumentTexts(f, txType, addr)
  {
    hide Print;
    PrintStr(Account(addr));
    PrintStr(Account(f[RECIPIENT]));
    PrintStr(f[AMOUNT]);
    PrintStr(f[RECIPIENT_CHAIN]);
    var a, b, d := args[1..], args[1..][1..], args[1..][1..][1..];
    assert "arg " + ['1'] + ": " + ("\"" + Account(addr) + "\"") == "arg 1: \"k:" + addr + "\"";
    assert "arg " + ['2'] + ": " + ("\"" + Account(f[RECIPIENT]) + "\"") == "arg 2: \"k:" + f[RECIPIENT] + "\"";
    assert "arg " + ['3'] + ": " + f[AMOUNT] == "arg 3: " + f[AMOUNT];
    assert "arg " + ['4'] + ": " + ("\"" + f[RECIPIENT_CHAIN] + "\"") == "arg 4: \"" + f[RECIPIENT_CHAIN] + "\"";
    assert d == if txType == TRANSFER_CROSSCHAIN then [Str(f[RECIPIENT_CHAIN])] else [];
    assert Numbered(d, 3) == if txType == 2 then ["arg 4: \"" + f[RECIPIENT_CHAIN] + "\""] else [];
    assert Numbered(b, 2) == ["arg 3: " + f[AMOUNT]] + Numbered(d, 3);
    assert Numbered(a, 1) == ["arg 2: \"k:" + f[RECIPIENT] + "\""] + Numbered(b, 2);
  }

  lemma {:induction false} ArgumentsFit(f: Fields, txType: nat, addr: Bytes)
    requires FieldsInRange(f) && |addr| == 64
    ensures Fits(TransferReview.TransferCap(f, txType, addr))
  {
    hide ArgsTree, CapTree, CapabilityName, Print, Len, FieldsInRange;
    var args := ArgsTree(f, txType, addr);
    CapIs(args, CapabilityName(f, txType));
    TransferReview.ArgsAre(f, txType, addr);
    ArgsMeasure(f, txType, addr);
    PrintLength(args, []);
    ArgsIsArray(f, txType, addr);
  }

  lemma {:induction false} ArgsIsArray(f: Fields, txType: nat, addr: Bytes)
    ensures ArgsTree(f, txType, addr).Arr?
  {
  }

  lemma {:induction false} ArgumentsSpoken(f: Fields, txType: nat, addr: Bytes, c: Context)
    requires FieldsInRange(f) && |addr| == 64
    ensures OnlySays(Line(Arguments, UnknownText, TransferReview.TransferCap(f, txType, addr), true), c,
                     Commas(ArgumentTexts(f, txType, addr)))
  {
    hide ArgsTree, CapTree, CapabilityName, FieldsInRange, Numbered, Commas, Kids, ArgumentTexts, Fits;
    CapIs(ArgsTree(f, txType, addr), CapabilityName(f, txType));
    TransferReview.ArgsAre(f, txType, addr);
    ArgumentsFit(f, txType, addr);
    ArgumentsAre(f, txType, addr, Kids(ArgsTree(f, txType, addr)));
  }

  lemma {:induction false} TokenSpoken(f: Fields, txType: nat, addr: Bytes, c: Context)
    requires FieldsInRange(f) && FieldsAllowed(f, txType) && UsesNamespace(f) && |addr| == 64
    ensures Spoken(CapLines(TransferReview.TransferCap(f, txType, addr)), TokenScope(f, txType, addr), c)
  {
    hide FieldsAllowed, FieldsInRange, Spoken, CapTree, ArgsTree, NameOf, UsesNamespace, CapabilityName, OnlySays,
      SplitNamespace, Fits, CapLines, Commas, ArgumentTexts, Qualifies, TwoDots, Child;
    var cap := TransferReview.TransferCap(f, txType, addr);
    CapIs(ArgsTree(f, txType, addr), CapabilityName(f, txType));
    TokenName(f, txType);
    TokenBlind(f, txType, addr);
    TokenQualifies(f, txType);
    NameSpoken(cap, f[NAMESPACE], f[MODULE] + Suffix(txType), c);
    ArgumentsFit(f, txType, addr);
    ArgumentsSpoken(f, txType, addr, c);
    SaysFixed(Title.Warning, c);
    var text := Commas(ArgumentTexts(f, txType, addr));
    SpokenOne(Line(Capability, CapName, cap, true), f[MODULE] + Suffix(txType), c);
    SpokenOne(Line(Title.Namespace, CapNamespace, cap, true), f[NAMESPACE], c);
    SpokenOne(Line(Arguments, UnknownText, cap, true), text, c);
    var a, x := Plain(Title.Warning, CapNotVerified), [(Title.Warning, CAP_NOT_VERIFIED_TEXT)];
    var b, y := Shown(Capability, CapName, cap), [(Capability, f[MODULE] + Suffix(txType))];
    var d, z := Shown(Title.Namespace, CapNamespace, cap), [(Title.Namespace, f[NAMESPACE])];
    SpokenCat(a, x, b, y, c);
    SpokenCat(a + b, x + y, d, z, c);
    SpokenCat(a + b + d, x + y + z, [Line(Arguments, UnknownText, cap, true)], [(Arguments, text)], c);
    assert TokenScope(f, txType, addr) == x + y + z + [(Arguments, text)];
  }

  // ---- meta ------------------------------------------------------------------------------------

  lemma {:induction false} GasSpoken(f: Fields, meta: Value, fee: Bytes, c: Context)
    requires Get(meta, "gasLimit") == Some(Prim(f[GAS_LIMIT])) && Get(meta, "gasPrice") == Some(Prim(f[GAS_PRICE]))
    requires IsFee(fee, f[GAS_LIMIT], f[GAS_PRICE])
    ensures OnlySays(Line(UsingGas, GasText, meta, true), c,
                     "at most " + f[GAS_LIMIT] + " at price " + f[GAS_PRICE])
    ensures OnlySays(Line(Title.MaxFee, MaxFeeText, meta, true), c, "KDA " + fee)
  {
    hide Child, IsFee;
    forall t: Bytes | LineSays(Line(Title.MaxFee, MaxFeeText, meta, true), c, t) ensures t == "KDA " + fee {
      OneFee(t[4..], fee, f[GAS_LIMIT], f[GAS_PRICE]);
      assert t == t[..4] + t[4..] && t[..4] == "KDA ";
    }
  }

  lemma {:induction false} ChainKnown(f: Fields, txType: nat)
    requires FieldsAllowed(f, txType)
    ensures f[CHAIN_ID] != "null"
  {
    hide FieldsAllowed;
    FieldsGiven(f, txType);
  }

  lemma {:induction false} MetaSpoken(f: Fields, txType: nat, addr: Bytes, fee: Bytes, c: Context)
    requires FieldsAllowed(f, txType) && IsFee(fee, f[GAS_LIMIT], f[GAS_PRICE])
    ensures Spoken(MetaLines(Tree(f, txType, addr)), MetaSays(f, addr, fee), c)
  {
    hide FieldsAllowed, Spoken, Tree, MetaTree, Child, MetaRecognised, OnlySays, IsFee;
    var meta := MetaTree(f, addr);
    RootChildren(f, txType, addr);
    MetaIsObj(f, addr);
    MetaChildren(f, addr);
    TreeRecognised(f, txType, addr);
    ChainKnown(f, txType);
    SaysText(OnChain, Str(f[CHAIN_ID]), c);
    SaysText(PayingAccount, Str(Account(addr)), c);
    GasSpoken(f, meta, fee, c);
    var gas := "at most " + f[GAS_LIMIT] + " at price " + f[GAS_PRICE];
    SpokenOne(Line(UsingGas, GasText, meta, true), gas, c);
    SpokenOne(Line(Title.MaxFee, MaxFeeText, meta, true), "KDA " + fee, c);
    var a, b, d, e := ChainLines(meta), Shown(UsingGas, GasText, meta), Shown(Title.MaxFee, MaxFeeText, meta),
                      PayerLines(meta);
    var x, y, z := [(OnChain, f[CHAIN_ID])], [(UsingGas, gas)], [(Title.MaxFee, "KDA " + fee)];
    SpokenCat(a, x, b, y, c);
    SpokenCat(a + b, x + y, d, z, c);
    SpokenCat(a + b + d, x + y + z, e, [(PayingAccount, "k:" + addr)], c);
    assert MetaSays(f, addr, fee) == x + y + z + [(PayingAccount, "k:" + addr)];
  }

  lemma {:induction false} ExpertSpoken(f: Fields, addr: Bytes, c: Context)
    requires c.address == Some(addr)
    ensures Spoken(ExpertLines(f), ExpertSays(f, addr, c.hash), c)
  {
    hide Spoken;
    SaysFixed(Payload, c);
    SaysText(Created, Prim(f[CREATION_TIME]), c);
    SaysText(Title.Ttl, Prim(f[TTL]), c);
    SaysContext(TransactionHash, c);
    SaysContext(SignForAddress, c);
    var a, b, d := Plain(Payload, ExecText), Shown(Created, Std, Prim(f[CREATION_TIME])),
                   Shown(Title.Ttl, Std, Prim(f[TTL]));
    var x, y, z := [(Payload, "exec (code)")], [(Created, f[CREATION_TIME])], [(Title.Ttl, f[TTL])];
    var hash, key := [(TransactionHash, c.hash)], [(SignForAddress, addr)];
    SpokenCat(b, y, d, z, c);
    SpokenCat(a, x, b + d, y + z, c);
    SpokenCat(Plain(TransactionHash, HashText), hash, Plain(SignForAddress, SignForAddrText), key, c);
    SpokenCat(a + (b + d), x + (y + z), Plain(TransactionHash, HashText) + Plain(SignForAddress, SignForAddrText),
      hash + key, c);
    assert ExpertSays(f, addr, c.hash) == x + (y + z) + (hash + key);
  }

  // ---- The whole review ------------------------------------------------------------------------

  lemma {:induction false} NothingHidden(lines: seq<Line>, says: seq<Saying>, c: Context)
    requires Spoken(lines, says, c)
    ensures !exists l | l in lines :: !l.canDisplay
  {
    hide OnlySays;
    forall l | l in lines ensures l.canDisplay {
      var i :| 0 <= i < |lines| && lines[i] == l;
    }
  }

  lemma {:induction false} ReviewSpoken(f: Fields, txType: nat, addr: Bytes, fee: Bytes, c: Context)
    requires FieldsInRange(f) && FieldsAllowed(f, txType) && |addr| == 64
    requires IsFee(fee, f[GAS_LIMIT], f[GAS_PRICE])
    ensures Spoken(ReviewLines(Tree(f, txType, addr), SignerTree(f, txType, addr), 1),
                   RequestSays(f, txType, addr, fee), c)
  {
    hide FieldsAllowed, FieldsInRange, Spoken, Tree, SignerTree, OpeningLines, ScopeLines, CapabilitiesLines, MetaLines,
      Child, CapLines, TransferReview.TransferCap, UsesNamespace, ClistOf, IsFee, OpeningSays, PaymentSays, TokenScope,
      MetaSays;
    var root, entry := Tree(f, txType, addr), SignerTree(f, txType, addr);
    EntryIs(f, txType, addr);
    ScopeIs(f, txType, addr);
    NoScopeLine(f, txType, addr);
    OpeningSpoken(f, txType, addr, c);
    CapSpoken(f, txType, addr, c);
    MetaSpoken(f, txType, addr, fee, c);
    var a, b, d := OpeningLines(root, Str(addr), 1), CapabilitiesLines(entry), MetaLines(root);
    var x, y, z := OpeningSays(f, addr),
                   if UsesNamespace(f) then TokenScope(f, txType, addr) else PaymentSays(f, txType, addr),
                   MetaSays(f, addr, fee);
    SpokenCat(a, x, b, y, c);
    SpokenCat(a + b, x + y, d, z, c);
    assert Lines(root, entry, 1) == a + b + d by { assert a + [] == a; }
    NothingHidden(a + b + d, x + y + z, c);
    assert a + b + d + [] == a + b + d;
  }

  lemma {:induction false} CapSpoken(f: Fields, txType: nat, addr: Bytes, c: Context)
    requires FieldsInRange(f) && FieldsAllowed(f, txType) && |addr| == 64
    ensures Spoken(CapLines(TransferReview.TransferCap(f, txType, addr)),
                   if UsesNamespace(f) then TokenScope(f, txType, addr) else PaymentSays(f, txType, addr), c)
  {
    hide TransferReview.TransferCap, CapLines, FieldsInRange, FieldsAllowed, UsesNamespace, ArgsTree, Kids, ArgsOf,
      NameOf, TransferLines, Spoken, PaymentSays, TokenScope;
    if UsesNamespace(f) {
      TokenSpoken(f, txType, addr, c);
    } else {
      var cap := TransferReview.TransferCap(f, txType, addr);
      CoinClear(f, txType, addr);
      TransferReview.ArgsAre(f, txType, addr);
      CoinLines(cap);
      PaymentSpoken(f, txType, addr, ArgsOf(cap), c);
    }
  }

  /** The screens say this, one after the other, and nothing else. */
  predicate ScreensSay(j: J.Json, r: ParserSpec.Review, says: seq<Saying>) {
    |r.items| == |says| && forall i | 0 <= i < |r.items| ::
      r.items[i].title == says[i].0 && Rendered(j, r.items[i], r.context) == Ok(says[i].1)
  }

  lemma {:induction false} SpokenScreens(j: J.Json, r: ParserSpec.Review, lines: seq<Line>, says: seq<Saying>)
    requires ReviewTexts.Speaks(j, r.items, lines, r.context) && Spoken(lines, says, r.context)
    ensures ScreensSay(j, r, says)
  {
    hide LineSays, Rendered;
    forall i | 0 <= i < |r.items| ensures Rendered(j, r.items[i], r.context) == Ok(says[i].1) {
      assert OnlySays(lines[i], r.context, says[i].1);
    }
  }

  lemma {:induction false} FeeGiven(f: Fields) returns (fee: Bytes)
    requires TextsFit(f)
    ensures IsFee(fee, f[GAS_LIMIT], f[GAS_PRICE])
  {
    hide FeeSpec.Parse, FeeSpec.Product;
    fee := FeeSpec.MaxFee(f[GAS_LIMIT], f[GAS_PRICE], FEE_ROOM).value;
    FeeSays(f[GAS_LIMIT], f[GAS_PRICE]);
  }

  lemma {:induction false} LinesAreShaped(f: Fields, txType: nat, addr: Bytes)
    requires FieldsInRange(f) && FieldsAllowed(f, txType) && |addr| == 64
    ensures JsonAcceptance.AllShaped(ReviewLines(Tree(f, txType, addr), SignerTree(f, txType, addr), 1))
    ensures JsonAcceptance.AllShaped(ExpertLines(f))
  {
    hide FieldsInRange, FieldsAllowed, Tree, SignerTree, ReviewLines, TextsFit, Shaped, LineShows, ExpertLines;
    ReviewFine(f, txType, addr);
    ExpertFine(f, txType);
  }

  /** The review of a template says what its request says. */
  lemma {:induction false} TemplateSays(j: J.Json, f: Fields, txType: nat, key: Key32, digest: Key32, expert: bool,
      fee: Bytes)
    requires Stands(j, f, txType, HexLower(key)) && IsFee(fee, f[GAS_LIMIT], f[GAS_PRICE])
    requires Validated(j, TxReview(j, Some(key), Some(digest), expert)).Ok?
    ensures ScreensSay(j, TxReview(j, Some(key), Some(digest), expert).value,
              RequestSays(f, txType, HexLower(key), fee) +
              if expert then ExpertSays(f, HexLower(key), HashShown(digest)) else [])
  {
    hide Stands, SignerTree, TxItems, FindDeviceSigner, ExpertMeta, ExpertItems, Then, Shows, J.JsonData.GetResult,
      HashShown, Node, HexLower, Tree, TxReview, Mirrors, IsFee, RequestSays, ExpertSays, Spoken, ReviewLines,
      ExpertLines, JsonAcceptance.AllShaped, ScreensSay, Rendered;
    var addr := HexLower(key);
    DeviceStands(j, f, txType, addr);
    var (at, n) := FindDeviceSigner(j, addr).value;
    JsonAcceptance.ReviewIs(j, key, Some(digest), expert, at, n);
    var r := TxReview(j, Some(key), Some(digest), expert).value;
    FieldsOf(j, f, txType, addr);
    ItemsMirror(j, at, f, txType, addr);
    ExpertMatches(j, f, txType, addr);
    LinesAreShaped(f, txType, addr);
    var lines, added := ReviewLines(Tree(f, txType, addr), SignerTree(f, txType, addr), 1),
                        if expert then ExpertLines(f) else [];
    var own, more := TxItems(j, at, 1).items, if expert then Then(ExpertMeta(j), ExpertItems()).items else [];
    MirrorsNone(j);
    MirrorsCat(j, own, more, lines, added);
    NoneShaped();
    JsonAcceptance.ShapedCat(lines, added);
    AllRendered(j, r);
    ReviewTexts.MirrorsSpeak(j, r.items, lines + added, r.context);
    ReviewSpoken(f, txType, addr, fee, r.context);
    ExpertSpoken(f, addr, r.context);
    SpokenNone(r.context);
    SpokenCat(lines, RequestSays(f, txType, addr, fee), added,
      if expert then ExpertSays(f, addr, HashShown(digest)) else [], r.context);
    SpokenScreens(j, r, lines + added,
      RequestSays(f, txType, addr, fee) + if expert then ExpertSays(f, addr, HashShown(digest)) else []);
  }

  lemma {:induction false} NoneShaped()
    ensures JsonAcceptance.AllShaped([])
  {
  }

  lemma {:induction false} AllRendered(j: J.Json, r: ParserSpec.Review)
    requires Shows(j, r)
    ensures forall i | 0 <= i < |r.items| :: Rendered(j, r.items[i], r.context).Ok?
  {
    hide Rendered;
  }

  lemma {:induction false} FieldsOf(j: J.Json, f: Fields, txType: nat, addr: Bytes)
    requires Stands(j, f, txType, addr)
    ensures FieldsInRange(f) && FieldsAllowed(f, txType) && |addr| == 64
  {
    hide Node, Tree, FieldsAllowed, FieldsInRange;
  }

  /**
   The whole review of every accepted request, title by title and text by text: what the fields hold, a fee that is
   exactly the gas limit times the gas price, and in expert mode the hash of the template in base64.
   */
  lemma {:induction false} RequestScreens(c: Crypto, path: Path, msg: Bytes, template: Bytes, expert: bool)
    returns (fee: Bytes, hash: Bytes)
    requires ParseTx(c, path, TxTransfer, msg, template, expert).1.Ok?
    ensures ReadRequest(msg).Ok? && c.publicKey(path).Some?
    ensures var p, (txType, f) := ParseTx(c, path, TxTransfer, msg, template, expert).1.value, ReadRequest(msg).value;
            var addr := HexLower(c.publicKey(path).value);
            && IsFee(fee, f[GAS_LIMIT], f[GAS_PRICE])
            && c.blake2b(p.text).Some? && Notations.Base64Spells(hash, c.blake2b(p.text).value)
            && ScreensSay(DocumentOf(p.text), p.review,
                 RequestSays(f, txType, addr, fee) + if expert then ExpertSays(f, addr, hash) else [])
  {
    hide TransferSpec.Build, ReadRequest, NumbersFit, Integrity.ReadJson, HexLower, Stands, TxReview,
      PrintDoc, Shows, Tree, IsFee, ScreensSay, RequestSays, ExpertSays, Notations.Base64Spells, HashShown, TextsFit;
    TransferAccepted(c, path, msg, template, expert);
    var key := c.publicKey(path).value;
    var (txType, f) := ReadRequest(msg).value;
    BuildFits(msg, key);
    var j := TemplateStands(msg, key, txType, f);
    fee := FeeGiven(f);
    var digest := c.blake2b(PrintDoc(TemplateDoc(f, txType, HexLower(key)))).value;
    hash := HashShown(digest);
    Notations.ShowsHash(digest);
    TemplateSays(j, f, txType, key, digest, expert, fee);
  }

  predicate KeyFree(says: seq<Saying>) {
    forall i | 0 <= i < |says| :: says[i].0 != KeyNotInTransfer && says[i].0 != UnscopedSigner
  }

  lemma {:induction false} KeyFreeCat(a: seq<Saying>, b: seq<Saying>)
    requires KeyFree(a) && KeyFree(b)
    ensures KeyFree(a + b)
  {
  }

  lemma {:induction false} PartsKeyFree(f: Fields, txType: nat, addr: Bytes, fee: Bytes, hash: Bytes)
    ensures KeyFree(OpeningSays(f, addr)) && KeyFree(PaymentSays(f, txType, addr)) &&
            KeyFree(TokenScope(f, txType, addr))
    ensures KeyFree(MetaSays(f, addr, fee)) && KeyFree(ExpertSays(f, addr, hash))
  {
    hide ArgumentTexts, Commas;
  }

  lemma {:induction false} KeyNowhere(f: Fields, txType: nat, addr: Bytes, fee: Bytes, hash: Bytes)
    ensures KeyFree(RequestSays(f, txType, addr, fee) + ExpertSays(f, addr, hash))
  {
    hide KeyFree, OpeningSays, PaymentSays, TokenScope, MetaSays, ExpertSays, UsesNamespace;
    PartsKeyFree(f, txType, addr, fee, hash);
    var scope := if UsesNamespace(f) then TokenScope(f, txType, addr) else PaymentSays(f, txType, addr);
    KeyFreeCat(OpeningSays(f, addr), scope);
    KeyFreeCat(OpeningSays(f, addr) + scope, MetaSays(f, addr, fee));
    KeyFreeCat(RequestSays(f, txType, addr, fee), ExpertSays(f, addr, hash));
  }

  /** So no accepted request is reviewed with a warning that the key is not in its transfer. */
  lemma {:induction false} KeyIsFound(c: Crypto, path: Path, msg: Bytes, template: Bytes, expert: bool)
    requires ParseTx(c, path, TxTransfer, msg, template, expert).1.Ok?
    ensures forall i | i in ParseTx(c, path, TxTransfer, msg, template, expert).1.value.review.items ::
              i.title != KeyNotInTransfer && i.title != UnscopedSigner
  {
    hide ParseTx, ReadRequest, RequestSays, ExpertSays, IsFee, Notations.Base64Spells, Rendered, HexLower;
    var fee, hash := RequestScreens(c, path, msg, template, expert);
    var (txType, f) := ReadRequest(msg).value;
    var addr := HexLower(c.publicKey(path).value);
    KeyNowhere(f, txType, addr, fee, hash);
    var a, b := RequestSays(f, txType, addr, fee), ExpertSays(f, addr, hash);
    var says := a + if expert then b else [];
    var items := ParseTx(c, path, TxTransfer, msg, template, expert).1.value.review.items;
    forall i | i in items ensures i.title != KeyNotInTransfer && i.title != UnscopedSigner {
      var k :| 0 <= k < |items| && items[k] == i;
      assert says[k] == (a + b)[k];
    }
  }

  // ---- A bare hash -----------------------------------------------------------------------------

  function HashSays(hash: Bytes, addr: Bytes, expert: bool): seq<Saying> {
    [(Title.Warning, HASH_WARNING_TEXT), (TransactionHash, hash)] +
    (if expert then [(TransactionHash, hash), (SignForAddress, addr)] else [])
  }

  /** The whole review of a bare hash, which it shows in base64. */
  lemma {:induction false} HashScreens(c: Crypto, path: Path, msg: Bytes, template: Bytes, expert: bool)
    returns (hash: Bytes)
    requires ParseTx(c, path, TxHash, msg, template, expert).1.Ok?
    ensures |msg| == HASH_LEN && Notations.Base64Spells(hash, msg) && (expert ==> c.publicKey(path).Some?)
    ensures ScreensSay(ShownDocument(TxHash, []), ParseTx(c, path, TxHash, msg, template, expert).1.value.review,
              HashSays(hash, if expert then HexLower(c.publicKey(path).value) else [], expert))
  {
    hide HashShown, Notations.Base64Spells, HexLower;
    hash := HashShown(msg);
    Notations.ShowsHash(msg);
    HashFits(c.publicKey(path), msg, expert);
  }

  lemma {:induction false} WarningRendered(j: J.Json, item: Item, c: Context)
    requires item.render == HashWarningText
    ensures Rendered(j, item, c) == Ok(HASH_WARNING_TEXT)
  {
    FixedTexts();
  }

  lemma {:induction false} ContextRendered(j: J.Json, item: Item, c: Context)
    requires |c.hash| < VALUE_BUF && (c.address.Some? ==> |c.address.value| < VALUE_BUF)
    ensures item.render == HashText ==> Rendered(j, item, c) == Ok(c.hash)
    ensures item.render == SignForAddrText ==>
              Rendered(j, item, c) == if c.address.Some? then Ok(c.address.value) else Err(Failed)
  {
  }

  lemma {:induction false} HashFits(key: Option<Key32>, msg: Key32, expert: bool)
    requires Shows(J.JsonData([], []), HashReview(msg, key, expert))
    ensures expert ==> key.Some?
    ensures ScreensSay(J.JsonData([], []), HashReview(msg, key, expert),
              HashSays(HashShown(msg), if expert && key.Some? then HexLower(key.value) else [], expert))
  {
    hide HashShown, HexLower, Rendered;
    var j, r := J.JsonData([], []), HashReview(msg, key, expert);
    WarningRendered(j, r.items[0], r.context);
    ContextRendered(j, r.items[1], r.context);
    if expert {
      ContextRendered(j, r.items[2], r.context);
      ContextRendered(j, r.items[3], r.context);
      assert Rendered(j, r.items[3], r.context).Ok?;
    }
  }
}
