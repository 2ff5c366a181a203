/**
 The review in terms of the transaction's syntax tree: what an accepted transaction shows, and when it is
 clear-signed.
 */
module Review {
  import opened Base
  import opened Errors
  import opened Syntax
  import opened JsmnSpec
  import opened Json
  import opened Lookups
  import opened Nodes
  import opened ItemSpec
  import Principal
  import Integrity

  /** A line of the review: its title, its renderer and the value the renderer reads. */
  datatype Line = Line(title: Title, render: Render, value: Value, canDisplay: bool)

  const NONE := Prim("")

  function Plain(title: Title, render: Render): seq<Line> { [Line(title, render, NONE, true)] }

  function Shown(title: Title, render: Render, v: Value): seq<Line> { [Line(title, render, v, true)] }

  predicate IsNullText(v: Value) { Text(v) == "null" }

  // ---- Capabilities ----------------------------------------------------------------------------

  function NameOf(cap: Value): Bytes {
    match Get(cap, "name")
    case None => []
    case Some(name) => Text(name)
  }

  function ArgsOf(cap: Value): seq<Value> {
    match Get(cap, "args")
    case None => []
    case Some(args) => Kids(args)
  }

  predicate IsGas(cap: Value) { cap.Obj? && NameOf(cap) == "coin.GAS" }

  /** `coin.TRANSFER` with three arguments, and `coin.TRANSFER_XCHAIN` with four. */
  predicate IsTransfer(cap: Value) { cap.Obj? && NameOf(cap) == "coin.TRANSFER" && |ArgsOf(cap)| == 3 }

  predicate IsXchain(cap: Value) { cap.Obj? && NameOf(cap) == "coin.TRANSFER_XCHAIN" && |ArgsOf(cap)| == 4 }

  /** A capability the review shows in full. */
  predicate IsClear(cap: Value) { IsGas(cap) || IsTransfer(cap) || IsXchain(cap) }

  /** The number of an amount: the primitive itself, or the string in `{"decimal": "<number>"}`. */
  function NumberOf(amount: Value): Value {
    if amount.Obj? && |amount.members| == 1 then amount.members[0].value else amount
  }

  /** Who pays whom how much and, across chains, where. */
  function TransferLines(args: seq<Value>, cross: bool): seq<Line>
    requires |args| == if cross then 4 else 3
  {
    Plain(Title.Transfer, if cross then CrossTransferText else TransferText) +
    Shown(From, Std, args[0]) + Shown(To, Std, args[1]) + Shown(Amount, AmountText, NumberOf(args[2])) +
    (if cross then Shown(ToChain, Std, args[3]) else []) +
    (if Principal.IsPrincipal(Text(args[1])) then [] else Plain(Title.Warning, NotPrincipal))
  }

  predicate Fits(cap: Value) {
    match Get(cap, "args")
    case None => false
    case Some(args) => |Kids(args)| <= 5 && |Text(args)| <= 256
  }

  function UnverifiedLines(cap: Value, warn: bool): seq<Line> {
    (if warn then Plain(Title.Warning, CapNotVerified) else []) +
    Shown(Capability, CapName, cap) +
    (if SplitNamespace(NameOf(cap)).0.Some? then Shown(Title.Namespace, CapNamespace, cap) else []) +
    [Line(Arguments, UnknownText, cap, Fits(cap))]
  }

  function CapLines(cap: Value): seq<Line> {
    if IsGas(cap) then []
    else if IsTransfer(cap) then TransferLines(ArgsOf(cap), false)
    else if IsXchain(cap) then TransferLines(ArgsOf(cap), true)
    else if cap.Obj? && NameOf(cap) == "coin.ROTATE" then
      (if |ArgsOf(cap)| == 1 then Shown(Title.Rotate, RotateText, cap) else UnverifiedLines(cap, false)) +
      Plain(Title.Warning, RotateWarning)
    else UnverifiedLines(cap, true)
  }

  function CapsLines(caps: seq<Value>): seq<Line> {
    if caps == [] then [] else CapLines(caps[0]) + CapsLines(caps[1..])
  }

  // ---- The transaction -------------------------------------------------------------------------

  /** The capabilities of a signer entry; a missing, null or empty clist has none. */
  function ClistOf(entry: Value): seq<Value> {
    match Get(entry, "clist")
    case None => []
    case Some(clist) => if IsNullText(clist) then [] else Kids(clist)
  }

  /** The text is the account of the key, `k:` and the key, or it is the key and no account. */
  predicate NamesKey(text: Bytes, key: Bytes) { text == "k:" + key || (text == key && !("k:" <= text)) }

  /** The search for the signer's key ends at a capability without `args`. */
  predicate KeyAmong(caps: seq<Value>, key: Bytes) {
    caps != [] && Get(caps[0], "args").Some? &&
    ((exists a | a in ArgsOf(caps[0]) :: NamesKey(Text(a), key)) || KeyAmong(caps[1..], key))
  }

  function ScopeLines(entry: Value, key: Value): seq<Line> {
    var caps := ClistOf(entry);
    if caps == [] then Shown(UnscopedSigner, Std, key)
    else if (exists c | c in caps :: c.Obj? && NameOf(c) == "coin.TRANSFER") && !KeyAmong(caps, Text(key))
      then Shown(KeyNotInTransfer, Std, key)
    else []
  }

  function CapabilitiesLines(entry: Value): seq<Line> {
    if ClistOf(entry) == [] then Plain(Title.Warning, WarningText) else CapsLines(ClistOf(entry))
  }

  /** `meta` is an object whose keys are recognised. */
  predicate MetaRecognised(root: Value) {
    match Get(root, "meta")
    case None => false
    case Some(meta) => meta.Obj? && MetaNames(Integrity.KeyNames(meta.members))
  }

  function ChainLines(meta: Value): seq<Line> {
    match Get(meta, "chainId")
    case None => []
    case Some(chain) => if IsNullText(chain) then [] else Shown(OnChain, Std, chain)
  }

  function PayerLines(meta: Value): seq<Line> {
    match Get(meta, "sender")
    case None => []
    case Some(sender) => Shown(PayingAccount, Std, sender)
  }

  function MetaLines(root: Value): seq<Line> {
    if !MetaRecognised(root) then Plain(Title.Caution, CautionText)
    else
      var meta := Get(root, "meta").value;
      ChainLines(meta) + Shown(UsingGas, GasText, meta) + Shown(Title.MaxFee, MaxFeeText, meta) + PayerLines(meta)
  }

  function NetworkLines(root: Value): seq<Line> {
    match Get(root, "networkId")
    case None => []
    case Some(n) => if IsNullText(n) then [] else Shown(OnNetwork, Std, n)
  }

  /** Who signs what, on which network. */
  function OpeningLines(root: Value, key: Value, nsigners: nat): seq<Line> {
    Plain(Title.Signing, SigningText) + NetworkLines(root) +
    ((if nsigners > 1 then Plain(Signers, SignersText) else []) +
     (Plain(Title.Requiring, RequiringText) + Shown(OfKey, Std, key)))
  }

  /** The review of `entry`, one of `nsigners`, before the check for items that cannot be shown. */
  function Lines(root: Value, entry: Value, nsigners: nat): seq<Line> {
    match Get(entry, "pubKey")
    case None => []
    case Some(key) =>
      OpeningLines(root, key, nsigners) + ScopeLines(entry, key) + CapabilitiesLines(entry) + MetaLines(root)
  }

  /** The whole review: a warning is added when an item cannot be shown. */
  function ReviewLines(root: Value, entry: Value, nsigners: nat): seq<Line> {
    var lines := Lines(root, entry, nsigners);
    lines + (if exists l | l in lines :: !l.canDisplay then Plain(Title.Warning, TxTooLarge) else [])
  }

  // ---- An item stands for a line ---------------------------------------------------------------

  ghost predicate StandsFor(j: Json, item: Item, line: Line) {
    item.title == line.title && item.render == line.render && item.canDisplay == line.canDisplay &&
    (Reads(item.render) ==> Node(j, item.token, line.value))
  }

  ghost predicate Mirrors(j: Json, items: seq<Item>, lines: seq<Line>) {
    |items| == |lines| && forall i | 0 <= i < |items| :: StandsFor(j, items[i], lines[i])
  }

  lemma {:induction false} MirrorsCat(j: Json, a: seq<Item>, b: seq<Item>, x: seq<Line>, y: seq<Line>)
    requires Mirrors(j, a, x) && Mirrors(j, b, y)
    ensures Mirrors(j, a + b, x + y)
  {
    hide StandsFor;
  }

  lemma {:induction false} MirrorsOne(j: Json, item: Item, line: Line)
    requires StandsFor(j, item, line)
    ensures Mirrors(j, [item], [line])
  {
    hide StandsFor;
  }

  lemma {:induction false} MirrorsNone(j: Json)
    ensures Mirrors(j, [], [])
  {
  }

  lemma {:induction false} MirrorsSay(j: Json, title: Title, render: Render)
    requires !Reads(render)
    ensures Mirrors(j, Say(title, render).items, Plain(title, render))
  {
    MirrorsOne(j, Item(title, render, 0, true), Line(title, render, NONE, true));
  }

  lemma {:induction false} MirrorsShow(j: Json, title: Title, render: Render, at: nat, v: Value)
    requires Node(j, at, v)
    ensures Mirrors(j, Show(title, render, at).items, Shown(title, render, v))
  {
    hide Node;
    MirrorsOne(j, Item(title, render, at, true), Line(title, render, v, true));
  }

  /** A list that is not refused mirrors the lines. */
  ghost predicate Matches(j: Json, b: Build, lines: seq<Line>) { b.failure == None ==> Mirrors(j, b.items, lines) }

  lemma {:induction false} MatchesThen(j: Json, a: Build, b: Build, x: seq<Line>, y: seq<Line>)
    requires Matches(j, a, x) && Matches(j, b, y)
    ensures Matches(j, Then(a, b), x + y)
  {
    hide Mirrors;
    if a.failure == None && b.failure == None { MirrorsCat(j, a.items, b.items, x, y); }
  }
}
