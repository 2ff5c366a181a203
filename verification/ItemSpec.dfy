/**
 The review of a transaction as a list: which items are shown, in which order, or why the transaction is
 refused.
 */
module ItemSpec {
  import opened Base
  import opened Errors
  import opened JsmnSpec
  import opened Json
  import opened Principal

  const MAX_ITEMS := 100

  datatype Title =
    | Signing | OnNetwork | Requiring | OfKey | UnscopedSigner | Warning | Caution | OnChain | UsingGas | Transfer
    | From | To | Amount | ToChain | Rotate | Arguments | Capability | Namespace | TransactionHash | SignForAddress
    | Signers | KeyNotInTransfer | Payload | PactId | Step | MaxFee | PayingAccount | Created | Ttl

  datatype Render =
    | NoRender | Std | WarningText | HashWarningText | CautionText | TxTooLarge | SigningText | RequiringText
    | AmountText | TransferText | CrossTransferText | RotateText | GasText | HashText | UnknownText | SignForAddrText
    | SignersText | MaxFeeText | RotateWarning | NotPrincipal | CapNotVerified | CapName | CapNamespace | ExecText
    | ContText

  /** A slot of the review. */
  datatype Item = Item(title: Title, render: Render, token: nat, canDisplay: bool)

  datatype ItemsError = LengthZero | DataTooLarge | TooManyItems | Failed | BadCharacters | BadMeta

  /** The renderers that read the token of their item. */
  predicate Reads(r: Render) {
    r in {Std, AmountText, RotateText, GasText, UnknownText, MaxFeeText, CapName, CapNamespace}
  }

  // ---- Lists of items that may end in a refusal ------------------------------------------------

  datatype Build = Build(items: seq<Item>, failure: Option<ItemsError>)

  const NOTHING := Build([], None)

  function Refuse(e: ItemsError): Build { Build([], Some(e)) }

  function Show(title: Title, render: Render, token: nat): Build { Build([Item(title, render, token, true)], None) }

  /** An item whose renderer reads no token. */
  function Say(title: Title, render: Render): Build { Show(title, render, 0) }

  /** `a`, then `b` unless `a` ended in a refusal. */
  function Then(a: Build, b: Build): Build {
    if a.failure.Some? then a else Build(a.items + b.items, b.failure)
  }

  // ---- Texts -----------------------------------------------------------------------------------

  /** `(0|[1-9][0-9]*)(.[0-9]{1,12})?` */
  predicate IsAmount(v: Bytes) {
    var dot := IndexOf(v, '.');
    var whole := v[..dot];
    whole != [] && Digits(whole) && (whole == "0" || whole[0] != '0') &&
    (dot == |v| || var frac := v[dot + 1..]; frac != [] && Digits(frac) && |frac| <= 12)
  }

  /** Where `c` first occurs in `v`; the length of `v` if it does not. */
  function IndexOf(v: Bytes, c: char): (i: nat)
    ensures i <= |v| && (i < |v| ==> v[i] == c) && forall k | 0 <= k < i :: v[k] != c
  {
    if v == [] || v[0] == c then 0 else 1 + IndexOf(v[1..], c)
  }

  /** The namespace of `namespace.module.NAME`, if the name has one, and the rest. */
  function SplitNamespace(name: Bytes): (Option<Bytes>, Bytes) {
    var dot := IndexOf(name, '.');
    if dot < |name| && '.' in name[dot + 1..] then (Some(name[..dot]), name[dot + 1..]) else (None, name)
  }

  function Lower(c: char): char { if 'A' <= c <= 'Z' then (c as int + 32) as char else c }

  predicate EqualIgnoringCase(a: Bytes, b: Bytes) {
    |a| == |b| && forall i | 0 <= i < |a| :: Lower(a[i]) == Lower(b[i])
  }

  /** A string without escapes. */
  predicate ShownUnescaped(j: Json, tok: nat) {
    j.Tok(tok).kind == String && !HasBackslash(j.Span(tok))
  }

  /** A number written as plain digits. */
  predicate PlainInteger(j: Json, tok: nat) {
    j.Tok(tok).kind == Primitive && j.Span(tok) != [] && Digits(j.Span(tok))
  }

  // ---- meta ------------------------------------------------------------------------------------

  const META_KEYWORDS: seq<Bytes> := ["creationTime", "ttl", "gasLimit", "chainId", "gasPrice", "sender"]

  /** The names are distinct, and as a set they are the first so many keywords. */
  predicate MetaNames(names: seq<Bytes>) {
    && |names| <= 6
    && (forall a, b | 0 <= a < b < |names| :: names[a] != names[b])
    && (forall n | n in names :: n in META_KEYWORDS[..|names|])
  }

  function Spans(j: Json, toks: seq<nat>): (texts: seq<Bytes>)
    ensures |texts| == |toks| && forall i | 0 <= i < |toks| :: texts[i] == j.Span(toks[i])
  {
    seq(|toks|, i requires 0 <= i < |toks| => j.Span(toks[i]))
  }

  function ValidateMeta(j: Json): Result<(), ParserError> {
    match j.GetResult(0, "meta")
    case Err(e) => Err(e)
    case Ok(meta) =>
      if j.IsNull(meta) then Err(NoData)
      else if j.Tok(meta).kind != Object then Err(InvalidMetaField)
      else if !MetaNames(Spans(j, j.Keys(meta))) then Err(InvalidMetaField)
      else Ok(())
  }

  // ---- Capabilities and signers ----------------------------------------------------------------

  datatype CapKind = Unnamed | TransferCap | XchainCap | RotateCap | GasCap

  function KindOfCap(j: Json, cap: nat): CapKind {
    if j.Tok(cap).kind != Object then Unnamed
    else
      match j.GetResult(cap, "name")
      case Err(_) => Unnamed
      case Ok(t) =>
        if j.Len(t) == 0 then Unnamed
        else if j.Span(t) == "coin.TRANSFER" then TransferCap
        else if j.Span(t) == "coin.TRANSFER_XCHAIN" then XchainCap
        else if j.Span(t) == "coin.ROTATE" then RotateCap
        else if j.Span(t) == "coin.GAS" then GasCap
        else Unnamed
  }

  /** The capability list of a signer entry, if it has one that is not empty. */
  function ValidClist(j: Json, signer: nat): Option<nat> {
    match j.GetResult(signer, "clist")
    case Err(_) => None
    case Ok(clist) => if !j.IsNull(clist) && clist < |j.tokens| && j.Elements(clist) != [] then Some(clist) else None
  }

  function AfterPrefix(text: Bytes): Bytes { if |text| >= 2 && text[..2] == "k:" then text[2..] else text }

  /** An argument of one of `caps` is the key, or the key's account; the search ends at a capability without `args`. */
  predicate KeyInCaps(j: Json, caps: seq<nat>, key: Bytes) {
    caps != [] &&
    match j.GetResult(caps[0], "args")
    case Err(_) => false
    case Ok(args) => (exists a | a in j.Elements(args) :: AfterPrefix(j.Span(a)) == key) || KeyInCaps(j, caps[1..], key)
  }

  predicate KeyInClist(j: Json, signer: nat, keyTok: nat) {
    match ValidClist(j, signer)
    case None => false
    case Some(clist) => KeyInCaps(j, j.Elements(clist), j.Span(keyTok))
  }

  /** Whether the member `field` of an entry is the device key, in any letter case. */
  function FieldNames(j: Json, entry: nat, field: Bytes, hex: Bytes): Result<bool, ParserError> {
    match j.GetResult(entry, field)
    case Err(_) => Ok(false)
    case Ok(v) => if HasBackslash(j.Span(v)) then Err(UnexpectedCharacters) else Ok(EqualIgnoringCase(j.Span(v), hex))
  }

  function NamesDevice(j: Json, entry: nat, hex: Bytes): Result<bool, ParserError> {
    if j.Tok(entry).kind != Object then Ok(false)
    else
      match FieldNames(j, entry, "pubKey", hex)
      case Err(e) => Err(e)
      case Ok(a) =>
        match FieldNames(j, entry, "addr", hex)
        case Err(e) => Err(e)
        case Ok(b) => Ok(a || b)
  }

  /** The entries that name the device key. */
  function DeviceEntries(j: Json, entries: seq<nat>, hex: Bytes): Result<seq<nat>, ParserError> {
    if entries == [] then Ok([])
    else
      match NamesDevice(j, entries[0], hex)
      case Err(e) => Err(e)
      case Ok(named) =>
        match DeviceEntries(j, entries[1..], hex)
        case Err(e) => Err(e)
        case Ok(rest) => Ok((if named then [entries[0]] else []) + rest)
  }

  predicate EscapedName(j: Json, cap: nat) {
    match j.GetResult(cap, "name")
    case Err(_) => false
    case Ok(name) => HasBackslash(j.Span(name))
  }

  /** A capability name of the entry's clist has an escape. */
  predicate EscapedNames(j: Json, entry: nat) {
    match j.GetResult(entry, "clist")
    case Err(_) => false
    case Ok(clist) => j.Tok(clist).kind == Array && exists cap | cap in j.Elements(clist) :: EscapedName(j, cap)
  }

  predicate HasKey(j: Json, entry: nat, hex: Bytes) {
    match j.GetResult(entry, "pubKey")
    case Err(_) => false
    case Ok(pk) => j.Tok(pk).kind == String && j.Span(pk) == hex
  }

  /** The one signer entry that names the device key, and the number of entries. */
  function FindDeviceSigner(j: Json, hex: Bytes): Result<(nat, nat), ParserError> {
    match j.GetResult(0, "signers")
    case Err(_) => Err(SignerNotFound)
    case Ok(signers) =>
      if j.Tok(signers).kind != Array then Err(SignerNotFound)
      else
        match DeviceEntries(j, j.Elements(signers), hex)
        case Err(e) => Err(e)
        case Ok(found) =>
          if found == [] then Err(SignerNotFound)
          else if |found| > 1 then Err(SignerRepeated)
          else if !HasKey(j, found[0], hex) then Err(SignerNotFound)
          else if EscapedNames(j, found[0]) then Err(UnexpectedCharacters)
          else Ok((found[0], |j.Elements(signers)|))
  }

  // ---- The items of a capability ---------------------------------------------------------------

  /** The token of a transfer's amount: a bare number, or the string in `{"decimal": "<number>"}`. */
  function AmountToken(j: Json, amount: nat): Option<nat> {
    match j.Tok(amount).kind
    case Primitive => Some(amount)
    case Object =>
      var keys := j.Keys(amount);
      if |keys| == 1 && j.Tok(keys[0]).kind == String && j.Span(keys[0]) == "decimal" &&
        j.Tok(keys[0] + 1).kind == String
      then Some(keys[0] + 1) else None
    case _ => None
  }

  function CheckAmount(j: Json, args: seq<nat>): Result<nat, ItemsError> {
    if |args| <= 2 then Err(Failed)
    else
      match AmountToken(j, args[2])
      case None => Err(BadCharacters)
      case Some(t) => if IsAmount(j.Span(t)) then Ok(t) else Err(BadCharacters)
  }

  function ReceiverItems(j: Json, to: nat): Build {
    if IsPrincipal(j.Span(to)) then NOTHING else Say(Title.Warning, NotPrincipal)
  }

  /** A transfer with the arguments `args`, three of them or, across chains, four. */
  function TransferItems(j: Json, args: seq<nat>, cross: bool): Build
    requires |args| == if cross then 4 else 3
  {
    match CheckAmount(j, args)
    case Err(e) => Refuse(e)
    case Ok(number) =>
      if !ShownUnescaped(j, args[0]) || !ShownUnescaped(j, args[1]) || (cross && !ShownUnescaped(j, args[3]))
      then Refuse(BadCharacters)
      else
        var shown := [Item(Title.Transfer, if cross then CrossTransferText else TransferText, 0, true),
                      Item(From, Std, args[0], true), Item(To, Std, args[1], true),
                        Item(Amount, AmountText, number, true)];
        Then(Build(shown + (if cross then [Item(ToChain, Std, args[3], true)] else []), None),
          ReceiverItems(j, args[1]))
  }

  function HasNamespace(j: Json, cap: nat): bool {
    match j.GetResult(cap, "name")
    case Err(_) => false
    case Ok(name) => SplitNamespace(j.Span(name)).0.Some?
  }

  /** At most five arguments in at most 256 bytes are shown. */
  predicate Displayable(j: Json, args: nat) {
    |j.Elements(args)| <= 5 && j.Tok(args).end - j.Tok(args).start <= 256
  }

  /** A capability the review cannot verify. */
  function UnverifiedItems(j: Json, cap: nat, args: nat, warn: bool): Build {
    Build((if warn then [Item(Title.Warning, CapNotVerified, 0, true)] else []) +
          [Item(Capability, CapName, cap, true)] +
          (if HasNamespace(j, cap) then [Item(Title.Namespace, CapNamespace, cap, true)] else []) +
          [Item(Arguments, UnknownText, cap, Displayable(j, args))], None)
  }

  function CapItems(j: Json, cap: nat): Build {
    if j.Tok(cap).kind != Object then Refuse(BadCharacters)
    else if KindOfCap(j, cap) == GasCap then NOTHING
    else
      match j.GetResult(cap, "args")
      case Err(_) => Refuse(Failed)
      case Ok(args) =>
        var list := j.Elements(args);
        match KindOfCap(j, cap)
        case TransferCap => if |list| == 3 then TransferItems(j, list, false) else UnverifiedItems(j, cap, args, true)
        case XchainCap => if |list| == 4 then TransferItems(j, list, true) else UnverifiedItems(j, cap, args, true)
        case RotateCap =>
          Then(if |list| == 1 then Show(Title.Rotate, RotateText, cap) else UnverifiedItems(j, cap, args, false),
               Say(Title.Warning, RotateWarning))
        case _ => UnverifiedItems(j, cap, args, true)
  }

  function CapsItems(j: Json, caps: seq<nat>): Build {
    if caps == [] then NOTHING else Then(CapItems(j, caps[0]), CapsItems(j, caps[1..]))
  }

  // ---- The items of a transaction --------------------------------------------------------------

  function NetworkItems(j: Json): Build {
    match j.GetResult(0, "networkId")
    case Err(_) => Refuse(Failed)
    case Ok(t) =>
      if j.IsNull(t) then NOTHING
      else if !ShownUnescaped(j, t) then Refuse(BadCharacters)
      else Show(OnNetwork, Std, t)
  }

  /** A transfer among the capabilities the program looks at: the first `count as u8` of them. */
  predicate HasTransfer(j: Json, clist: nat) {
    exists cap | cap in j.Elements(clist)[..U8(|j.Elements(clist)|)] :: KindOfCap(j, cap) == TransferCap
  }

  function ScopeItems(j: Json, signer: nat, keyTok: nat): Build {
    match ValidClist(j, signer)
    case None => Show(UnscopedSigner, Std, keyTok)
    case Some(clist) =>
      if HasTransfer(j, clist) && !KeyInClist(j, signer, keyTok) then Show(KeyNotInTransfer, Std, keyTok) else NOTHING
  }

  function TransfersItems(j: Json, signer: nat): Build {
    match ValidClist(j, signer)
    case None => Say(Title.Warning, WarningText)
    case Some(clist) => CapsItems(j, j.Elements(clist))
  }

  /** `meta` is there, and not the primitive `null`. */
  function MetaGiven(j: Json): Option<nat> {
    match j.GetResult(0, "meta")
    case Err(_) => None
    case Ok(meta) => if j.IsNull(meta) && j.Tok(meta).kind == Primitive then None else Some(meta)
  }

  predicate IntegerIfGiven(j: Json, meta: nat, field: Bytes) {
    match j.GetResult(meta, field)
    case Err(_) => true
    case Ok(v) => PlainInteger(j, v)
  }

  /** "On Chain", from `meta`. */
  function ChainItems(j: Json): Build {
    match j.GetResult(0, "meta")
    case Err(_) => Refuse(Failed)
    case Ok(meta) =>
      if j.IsNull(meta) then NOTHING
      else
        match j.GetResult(meta, "chainId")
        case Err(_) => Refuse(Failed)
        case Ok(t) =>
          if j.IsNull(t) then NOTHING
          else if !ShownUnescaped(j, t) then Refuse(BadCharacters)
          else Show(OnChain, Std, t)
  }

  function GasItems(j: Json): Build {
    match j.GetResult(0, "meta")
    case Err(_) => Refuse(Failed)
    case Ok(meta) => if j.IsNull(meta) then NOTHING else Show(UsingGas, GasText, meta)
  }

  /** "Max fee" and "Paying account". */
  function FeeItems(j: Json): Build {
    match j.GetResult(0, "meta")
    case Err(_) => Refuse(Failed)
    case Ok(meta) => if j.IsNull(meta) then NOTHING else Then(Show(Title.MaxFee, MaxFeeText, meta), PayerItems(j, meta))
  }

  function PayerItems(j: Json, meta: nat): Build {
    match j.GetResult(meta, "sender")
    case Err(_) => NOTHING
    case Ok(t) => if !ShownUnescaped(j, t) then Refuse(BadCharacters) else Show(PayingAccount, Std, t)
  }

  function RecognisedMetaItems(j: Json): Build {
    match j.GetResult(0, "meta")
    case Err(_) => Refuse(Failed)
    case Ok(meta) =>
      if !IntegerIfGiven(j, meta, "creationTime") || !IntegerIfGiven(j, meta, "ttl") ||
        !IntegerIfGiven(j, meta, "gasLimit")
      then Refuse(BadCharacters)
      else Then(ChainItems(j), Then(GasItems(j), FeeItems(j)))
  }

  function MetaItems(j: Json): Build {
    if MetaGiven(j).Some? && (j.Tok(MetaGiven(j).value).kind != Object ||
      j.GetResult(MetaGiven(j).value, "sender").Err?)
    then Refuse(BadMeta)
    else if ValidateMeta(j).Err? then Say(Title.Caution, CautionText)
    else RecognisedMetaItems(j)
  }

  /** An item that cannot be shown makes the transaction too large. */
  function WithLengths(b: Build): Build {
    if b.failure == None && exists i | i in b.items :: !i.canDisplay then Then(b, Say(Title.Warning, TxTooLarge)) else b
  }

  function StartItems(j: Json): Build { Then(Say(Title.Signing, SigningText), NetworkItems(j)) }

  function KeyItems(key: nat, nsigners: nat): Build {
    Then(if nsigners > 1 then Say(Signers, SignersText) else NOTHING,
    Then(Say(Title.Requiring, RequiringText), Show(OfKey, Std, key)))
  }

  /** Who signs what, before the scope of the signature. */
  function OpeningItems(j: Json, key: nat, nsigners: nat): Build { Then(StartItems(j), KeyItems(key, nsigners)) }

  /** The review of the device's signer entry `signer`, one of `nsigners`. */
  function TxItems(j: Json, signer: nat, nsigners: nat): Build {
    match j.GetResult(signer, "pubKey")
    case Err(_) => Refuse(Failed)
    case Ok(key) =>
      WithLengths(Then(OpeningItems(j, key, nsigners),
                       Then(ScopeItems(j, signer, key), Then(TransfersItems(j, signer), MetaItems(j)))))
  }

  // ---- Expert mode -----------------------------------------------------------------------------

  function ContItems(j: Json, cont: nat): Build {
    Then(Say(Payload, ContText),
      Then(match j.GetResult(cont, "pactId")
           case Err(_) => NOTHING
           case Ok(v) => if ShownUnescaped(j, v) then Show(PactId, Std, v) else Refuse(BadCharacters),
           match j.GetResult(cont, "step")
           case Err(_) => NOTHING
           case Ok(v) => if PlainInteger(j, v) then Show(Title.Step, Std, v) else Refuse(BadCharacters)))
  }

  function PayloadItems(j: Json): Build {
    match j.GetResult(0, "payload")
    case Err(_) => NOTHING
    case Ok(payload) =>
      if j.GetResult(payload, "exec").Ok? then Say(Payload, ExecText)
      else match j.GetResult(payload, "cont") case Err(_) => NOTHING case Ok(cont) => ContItems(j, cont)
  }

  /** The validity window. */
  function TimeItems(j: Json): Build {
    match j.GetResult(0, "meta")
    case Err(_) => Refuse(Failed)
    case Ok(meta) =>
      Then(match j.GetResult(meta, "creationTime") case Err(_) => NOTHING case Ok(v) => Show(Created, Std, v),
           match j.GetResult(meta, "ttl") case Err(_) => NOTHING case Ok(v) => Show(Ttl, Std, v))
  }

  function ExpertMeta(j: Json): Build {
    Then(PayloadItems(j), if ValidateMeta(j).Err? then NOTHING else TimeItems(j))
  }

  function ExpertItems(): Build { Then(Say(TransactionHash, HashText), Say(SignForAddress, SignForAddrText)) }

  function HashItems(): Build { Then(Say(Title.Warning, HashWarningText), Say(TransactionHash, HashText)) }

  // ---- Blind signing ---------------------------------------------------------------------------

  /** The signature is not bounded by a capability list the review shows. */
  predicate NeedsBlind(items: seq<Item>) {
    exists i | i in items :: i.render in {WarningText, TxTooLarge, CautionText, RotateWarning, CapNotVerified}
  }
}
