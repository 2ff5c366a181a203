/** When a JSON transaction is accepted, stated on its syntax tree. */
module JsonAcceptance {
  import opened Base
  import opened Errors
  import opened Syntax
  import opened JsmnSpec
  import opened Json
  import opened Lookups
  import opened Nodes
  import opened ItemSpec
  import opened Review
  import opened ReviewProof
  import opened Signers
  import opened RenderSpec
  import opened ParserSpec
  import opened Showable
  import Integrity
  import Principal
  import TxParser
  import T = TransferSpec

  // ---- What is asked of the tree ---------------------------------------------------------------

  /** A string without escapes. */
  predicate PlainStr(v: Value) { v.Str? && !HasBackslash(v.body) }

  predicate IsDigits(v: Value) { v.Prim? && v.text != [] && Digits(v.text) }

  /** A member is not there, or a number of plain digits. */
  predicate DigitsIfGiven(v: Value, field: Bytes) {
    match Get(v, field)
    case None => true
    case Some(w) => IsDigits(w)
  }

  /** A member is there: `null`, or a string without escapes. */
  predicate NullOrPlain(v: Value, field: Bytes) {
    match Get(v, field)
    case None => false
    case Some(w) => IsNullText(w) || PlainStr(w)
  }

  /** An amount as a bare number, or as `{"decimal": "<number>"}`. */
  predicate AmountFits(v: Value) {
    match v
    case Prim(text) => IsAmount(text)
    case Obj(_, members) =>
      |members| == 1 && members[0].key == "decimal" && members[0].value.Str? && IsAmount(members[0].value.body)
    case _ => false
  }

  predicate TransferFits(args: Value, cross: bool) {
    args.Arr? && |args.elems| == (if cross then 4 else 3) && PlainStr(args.elems[0].value) &&
    PlainStr(args.elems[1].value) && AmountFits(args.elems[2].value) && (cross ==> PlainStr(args.elems[3].value))
  }

  /** A capability that is not refused: gas, a transfer in order, or anything else that has arguments. */
  predicate CapFits(cap: Value) {
    cap.Obj? &&
    (IsGas(cap) ||
     (Get(cap, "args").Some? &&
      (IsTransfer(cap) ==> TransferFits(Get(cap, "args").value, false)) &&
      (IsXchain(cap) ==> TransferFits(Get(cap, "args").value, true))))
  }

  predicate ScopeFits(entry: Value) {
    ClistOf(entry) != [] ==>
      Get(entry, "clist").value.Arr? && forall i | 0 <= i < |ClistOf(entry)| :: CapFits(ClistOf(entry)[i])
  }

  /** No `meta` at all, or one with a sender; and what a recognised one is shown with is in order. */
  predicate MetaFits(root: Value) {
    match Get(root, "meta")
    case None => true
    case Some(meta) =>
      meta == Prim("null") ||
      (meta.Obj? && Get(meta, "sender").Some? &&
       (MetaRecognised(root) ==>
          DigitsIfGiven(meta, "creationTime") && DigitsIfGiven(meta, "ttl") && DigitsIfGiven(meta, "gasLimit") &&
          NullOrPlain(meta, "chainId") && PlainStr(Get(meta, "sender").value)))
  }

  predicate AllShow(lines: seq<Line>) { forall i | 0 <= i < |lines| :: LineShows(lines[i]) }

  /** The entry, one of `n`, can be reviewed: nothing is refused, and fewer than a hundred lines can all be shown. */
  predicate EntryFits(root: Value, entry: Value, n: nat) {
    NamesPlain(entry) && NullOrPlain(root, "networkId") && ScopeFits(entry) && MetaFits(root) &&
    |ReviewLines(root, entry, n)| < MAX_ITEMS && AllShow(ReviewLines(root, entry, n))
  }

  /** What expert mode adds to `own` items is not refused, is not too much and can all be shown. */
  predicate ExpertFits(j: Json, own: nat, c: Context) {
    var b := Then(ExpertMeta(j), ExpertItems());
    b.failure == None && own + |b.items| < MAX_ITEMS && forall i | 0 <= i < |b.items| :: Rendered(j, b.items[i], c).Ok?
  }

  /** Entry `k` is the only one that names the device key `hex`, and it can be reviewed; and there are no verifiers. */
  predicate TreeFits(j: Json, root: Value, hex: Bytes, digest: Key32, expert: bool, k: nat) {
    root.Obj? && Get(root, "verifiers") == None && Get(root, "signers").Some? && Get(root, "signers").value.Arr? &&
    var elems := Get(root, "signers").value.elems;
    TheDevice(elems, hex, k) && EntryFits(root, elems[k].value, |elems|) &&
    (expert ==>
       ExpertFits(j, |ReviewLines(root, elems[k].value, |elems|)|, Context(HashShown(digest), Some(hex), |elems|)))
  }

  // ---- Strings and numbers ---------------------------------------------------------------------

  lemma {:induction false} PlainIs(j: Json, at: nat, v: Value)
    requires Tells(j, at, v)
    ensures ShownUnescaped(j, at) <==> PlainStr(v)
  {
    hide Print;
  }

  lemma {:induction false} DigitsAre(j: Json, at: nat, v: Value)
    requires Tells(j, at, v)
    ensures PlainInteger(j, at) <==> IsDigits(v)
  {
    hide Digits;
    if v.Prim? { PrimIs(v); }
  }

  lemma {:induction false} PrimIs(v: Value)
    requires v.Prim?
    ensures Text(v) == v.text
  {
  }

  lemma {:induction false} FieldDigits(j: Json, at: nat, v: Value, field: Bytes)
    requires Node(j, at, v) && v.Obj?
    ensures IntegerIfGiven(j, at, field) <==> DigitsIfGiven(v, field)
  {
    hide Node, Child, JsonData.GetResult, PlainInteger, IsDigits, Tells;
    NodeGet(j, at, v, field);
    if Get(v, field).Some? {
      NodeTells(j, j.GetResult(at, field).value, Get(v, field).value);
      DigitsAre(j, j.GetResult(at, field).value, Get(v, field).value);
    }
  }

  // ---- Capabilities ----------------------------------------------------------------------------

  lemma {:induction false} AmountIsFit(j: Json, at: nat, v: Value)
    requires Node(j, at, v)
    ensures AmountToken(j, at).Some? && IsAmount(j.Span(AmountToken(j, at).value)) <==> AmountFits(v)
  {
    hide Node, JsonData.Keys, IsAmount, Print;
    NodeTells(j, at, v);
    if v.Obj? {
      NodeKeys(j, at, v);
      if |v.members| == 1 {
        assert Tells(j, j.Keys(at)[0], Str(v.members[0].key));
        NodeTells(j, j.Keys(at)[0] + 1, v.members[0].value);
      }
    }
  }

  lemma {:induction false} TransferIsFit(j: Json, args: nat, v: Value, cross: bool)
    requires Node(j, args, v) && |j.Elements(args)| == (if cross then 4 else 3) == |Kids(v)|
    ensures TransferItems(j, j.Elements(args), cross).failure == None <==> TransferFits(v, cross)
  {
    hide Node, JsonData.Elements, AmountToken, AmountFits, IsAmount, ReceiverItems, ShownUnescaped, PlainStr,
      KeysAndValues, Tells;
    var list := j.Elements(args);
    ReceiverFits(j, list[1]);
    if v.Obj? {
      NodeKids(j, args, v);
      if cross { KeyNoAmount(j, args, v); }
    } else {
      NodeElems(j, args, v);
      forall i | 0 <= i < |list| ensures Tells(j, list[i], v.elems[i].value) {
        NodeTells(j, list[i], v.elems[i].value);
      }
      AmountIsFit(j, list[2], v.elems[2].value);
      PlainIs(j, list[0], v.elems[0].value);
      PlainIs(j, list[1], v.elems[1].value);
      if cross { PlainIs(j, list[3], v.elems[3].value); }
    }
  }

  lemma {:induction false} ReceiverFits(j: Json, to: nat)
    ensures ReceiverItems(j, to).failure == None
  {
    hide Principal.IsPrincipal;
  }

  lemma {:induction false} CapIsFit(j: Json, at: nat, cap: Value)
    requires Node(j, at, cap)
    ensures CapItems(j, at).failure == None <==> CapFits(cap)
  {
    hide Node, JsonData.GetResult, JsonData.Elements, Child, KindOfCap, NameOf, TransferItems, TransferFits,
      HasNamespace, Displayable, Kids;
    CapKindIs(j, at, cap);
    if cap.Obj? {
      CapArgs(j, at, cap);
      if Get(cap, "args").Some? {
        var args, v := j.GetResult(at, "args").value, Get(cap, "args").value;
        if |j.Elements(args)| == 3 { TransferIsFit(j, args, v, false); }
        if |j.Elements(args)| == 4 { TransferIsFit(j, args, v, true); }
      }
    }
  }

  lemma {:induction false} CapsFit(j: Json, ats: seq<nat>)
    ensures CapsItems(j, ats).failure == None <==> forall i | 0 <= i < |ats| :: CapItems(j, ats[i]).failure == None
    decreases |ats|
  {
    hide CapItems;
    if ats != [] {
      CapsFit(j, ats[1..]);
      if forall i | 0 <= i < |ats| :: CapItems(j, ats[i]).failure == None {
        assert forall i | 0 <= i < |ats[1..]| :: ats[1..][i] == ats[i + 1];
      } else {
        var i :| 0 <= i < |ats| && CapItems(j, ats[i]).failure != None;
        assert i > 0 ==> ats[1..][i - 1] == ats[i];
      }
    }
  }

  lemma {:induction false} ScopeIsFit(j: Json, at: nat, entry: Value)
    requires Node(j, at, entry) && entry.Obj?
    ensures TransfersItems(j, at).failure == None <==> ScopeFits(entry)
  {
    hide Node, JsonData.Elements, Child, ValidClist, ClistOf, CapsItems, CapItems, CapFits, KeysAndValues, Tells;
    ClistIs(j, at, entry);
    if ValidClist(j, at).Some? {
      var clist, v := ValidClist(j, at).value, Get(entry, "clist").value;
      var ats := j.Elements(clist);
      CapsFit(j, ats);
      if v.Arr? {
        NodeElems(j, clist, v);
        forall i | 0 <= i < |ats| ensures CapItems(j, ats[i]).failure == None <==> CapFits(Kids(v)[i]) {
          CapIsFit(j, ats[i], Kids(v)[i]);
        }
      } else if v.Obj? {
        FirstIsKey(j, clist, v);
        KeyRefused(j, ats[0]);
      } else {
        NodeLeaf(j, clist, v);
      }
    }
  }

  lemma {:induction false} KeyRefused(j: Json, at: nat)
    requires j.Tok(at).kind == String
    ensures CapItems(j, at).failure != None
  {
  }

  // ---- Network and meta ------------------------------------------------------------------------

  lemma {:induction false} NetworkIsFit(j: Json, root: Value)
    requires Node(j, 0, root) && root.Obj?
    ensures NetworkItems(j).failure == None <==> NullOrPlain(root, "networkId")
  {
    hide Node, JsonData.GetResult, JsonData.IsNull, Child, ShownUnescaped, PlainStr, Tells;
    NodeGet(j, 0, root, "networkId");
    if Get(root, "networkId").Some? {
      var at, v := j.GetResult(0, "networkId").value, Get(root, "networkId").value;
      NodeTells(j, at, v);
      PlainIs(j, at, v);
    }
  }

  lemma {:induction false} ChainIsFit(j: Json, at: nat, meta: Value)
    requires j.GetResult(0, "meta") == Ok(at) && !j.IsNull(at) && Node(j, at, meta) && meta.Obj?
    ensures ChainItems(j).failure == None <==> NullOrPlain(meta, "chainId")
  {
    hide Node, JsonData.GetResult, JsonData.IsNull, Child, ShownUnescaped, PlainStr, Tells;
    NodeGet(j, at, meta, "chainId");
    if Get(meta, "chainId").Some? {
      var t, v := j.GetResult(at, "chainId").value, Get(meta, "chainId").value;
      NodeTells(j, t, v);
      PlainIs(j, t, v);
    }
  }

  lemma {:induction false} FeeIsFit(j: Json, at: nat, meta: Value)
    requires j.GetResult(0, "meta") == Ok(at) && !j.IsNull(at) && Node(j, at, meta) && meta.Obj?
    requires Get(meta, "sender").Some?
    ensures Then(GasItems(j), FeeItems(j)).failure == None <==> PlainStr(Get(meta, "sender").value)
  {
    hide Node, JsonData.GetResult, JsonData.IsNull, Child, ShownUnescaped, PlainStr, Tells;
    NodeGet(j, at, meta, "sender");
    var t, v := j.GetResult(at, "sender").value, Get(meta, "sender").value;
    NodeTells(j, t, v);
    PlainIs(j, t, v);
  }

  lemma {:induction false} RecognisedIsFit(j: Json, at: nat, meta: Value)
    requires j.GetResult(0, "meta") == Ok(at) && !j.IsNull(at) && Node(j, at, meta) && meta.Obj?
    requires Get(meta, "sender").Some?
    ensures RecognisedMetaItems(j).failure == None <==>
              DigitsIfGiven(meta, "creationTime") && DigitsIfGiven(meta, "ttl") && DigitsIfGiven(meta, "gasLimit") &&
              NullOrPlain(meta, "chainId") && PlainStr(Get(meta, "sender").value)
  {
    hide Node, JsonData.GetResult, JsonData.IsNull, Child, IntegerIfGiven, DigitsIfGiven, NullOrPlain, PlainStr,
      ChainItems, GasItems, FeeItems, Then;
    FieldDigits(j, at, meta, "creationTime");
    FieldDigits(j, at, meta, "ttl");
    FieldDigits(j, at, meta, "gasLimit");
    ChainIsFit(j, at, meta);
    FeeIsFit(j, at, meta);
    ThenPasses(ChainItems(j), Then(GasItems(j), FeeItems(j)));
  }

  lemma {:induction false} NullIs(v: Value)
    ensures Text(v) == "null" && v.Prim? <==> v == Prim("null")
  {
    if v.Prim? { PrimIs(v); }
  }

  lemma {:induction false} MetaIsFit(j: Json, root: Value)
    requires Node(j, 0, root) && root.Obj?
    ensures MetaItems(j).failure == None <==> MetaFits(root)
  {
    hide Node, JsonData.GetResult, JsonData.IsNull, Child, ValidateMeta, MetaRecognised, RecognisedMetaItems,
      DigitsIfGiven, NullOrPlain, PlainStr, Print, Text;
    RecognisedIs(j, root);
    NodeGet(j, 0, root, "meta");
    if Get(root, "meta").None? {
      NoMeta(root);
    } else {
      var at, meta := j.GetResult(0, "meta").value, Get(root, "meta").value;
      NodeTells(j, at, meta);
      NullIs(meta);
      if meta.Obj? {
        NotNullText(meta);
        NodeGet(j, at, meta, "sender");
        if Get(meta, "sender").Some? { RecognisedIsFit(j, at, meta); }
      } else {
        NoObject(root);
      }
    }
  }

  lemma {:induction false} NoMeta(root: Value)
    requires Get(root, "meta").None?
    ensures !MetaRecognised(root)
  {
  }

  lemma {:induction false} NoObject(root: Value)
    requires Get(root, "meta").Some? && !Get(root, "meta").value.Obj?
    ensures !MetaRecognised(root)
  {
  }

  // ---- The entry -------------------------------------------------------------------------------

  lemma {:induction false} ScopeNeverRefused(j: Json, at: nat, key: nat, n: nat)
    ensures ScopeItems(j, at, key).failure == None && KeyItems(key, n).failure == None
  {
    hide ValidClist, HasTransfer, KeyInClist;
  }

  lemma {:induction false} EntryIsFit(j: Json, root: Value, at: nat, entry: Value, n: nat)
    requires Node(j, 0, root) && root.Obj? && Node(j, at, entry) && entry.Obj? && Get(entry, "pubKey").Some?
    ensures TxItems(j, at, n).failure == None <==>
              NullOrPlain(root, "networkId") && ScopeFits(entry) && MetaFits(root)
  {
    hide Node, JsonData.GetResult, Child, NetworkItems, ScopeItems, TransfersItems, MetaItems, NullOrPlain, ScopeFits,
      MetaFits, Then, KeyItems;
    NodeGet(j, at, entry, "pubKey");
    var key := j.GetResult(at, "pubKey").value;
    NetworkIsFit(j, root);
    ScopeIsFit(j, at, entry);
    MetaIsFit(j, root);
    ScopeNeverRefused(j, at, key, n);
    TxSections(j, at, n);
    ThenPasses(Say(Title.Signing, SigningText), NetworkItems(j));
    ThenPasses(StartItems(j), KeyItems(key, n));
    ThenPasses(TransfersItems(j, at), MetaItems(j));
    ThenPasses(ScopeItems(j, at, key), Then(TransfersItems(j, at), MetaItems(j)));
    ThenPasses(OpeningItems(j, key, n), Then(ScopeItems(j, at, key), Then(TransfersItems(j, at), MetaItems(j))));
    LengthsKept(Sections(j, at, key, n));
  }

  lemma {:induction false} LengthsKept(b: Build)
    ensures WithLengths(b).failure == b.failure
  {
  }

  // ---- The lines can be read -------------------------------------------------------------------

  predicate AllShaped(lines: seq<Line>) { forall i | 0 <= i < |lines| :: Shaped(lines[i]) }

  lemma {:induction false} ShapedCat(a: seq<Line>, b: seq<Line>)
    requires AllShaped(a) && AllShaped(b)
    ensures AllShaped(a + b)
  {
    hide Shaped;
  }

  lemma {:induction false} CapShaped(cap: Value)
    requires CapFits(cap)
    ensures AllShaped(CapLines(cap))
  {
    hide NameOf, ArgsOf, Child, TransferFits, TransferLines, UnverifiedLines, AllShaped;
    NoneShaped();
    if IsTransfer(cap) || IsXchain(cap) { TransferShaped(ArgsOf(cap), IsXchain(cap)); }
    if !IsGas(cap) {
      UnverifiedShaped(cap, true);
      UnverifiedShaped(cap, false);
      RotateShaped(cap);
      ShapedCat(if |ArgsOf(cap)| == 1 then Shown(Title.Rotate, RotateText, cap) else UnverifiedLines(cap, false),
                Plain(Title.Warning, RotateWarning));
    }
  }

  lemma {:induction false} TransferShaped(args: seq<Value>, cross: bool)
    requires |args| == if cross then 4 else 3
    ensures AllShaped(TransferLines(args, cross))
  {
    hide Principal.IsPrincipal, Text, NumberOf;
  }

  lemma {:induction false} UnverifiedShaped(cap: Value, warn: bool)
    requires cap.Obj? && Get(cap, "args").Some?
    ensures AllShaped(UnverifiedLines(cap, warn))
  {
    hide NameOf, Child, SplitNamespace, Fits;
  }

  lemma {:induction false} RotateShaped(cap: Value)
    requires cap.Obj?
    ensures AllShaped(Shown(Title.Rotate, RotateText, cap)) && AllShaped(Plain(Title.Warning, RotateWarning))
  {
  }

  lemma {:induction false} CapsShaped(caps: seq<Value>)
    requires forall i | 0 <= i < |caps| :: CapFits(caps[i])
    ensures AllShaped(CapsLines(caps))
    decreases |caps|
  {
    hide CapLines, AllShaped, CapFits;
    if caps == [] {
      NoneShaped();
    } else {
      CapShaped(caps[0]);
      CapsShaped(caps[1..]);
      ShapedCat(CapLines(caps[0]), CapsLines(caps[1..]));
    }
  }

  lemma {:induction false} NoneShaped()
    ensures AllShaped([]) && AllShaped(Plain(Title.Warning, WarningText)) &&
            AllShaped(Plain(Title.Warning, TxTooLarge))
  {
  }

  lemma {:induction false} OthersShaped(root: Value, entry: Value, key: Value, n: nat)
    ensures AllShaped(OpeningLines(root, key, n)) && AllShaped(ScopeLines(entry, key)) && AllShaped(MetaLines(root))
  {
    hide Child, ClistOf, KeyAmong, MetaNames, NameOf, IsNullText;
  }

  lemma {:induction false} LinesShaped(root: Value, entry: Value, n: nat)
    requires ScopeFits(entry)
    ensures AllShaped(ReviewLines(root, entry, n))
  {
    hide Child, ClistOf, OpeningLines, ScopeLines, MetaLines, CapsLines, AllShaped, CapFits;
    NoneShaped();
    if ClistOf(entry) != [] { CapsShaped(ClistOf(entry)); }
    if Get(entry, "pubKey").Some? {
      var key := Get(entry, "pubKey").value;
      OthersShaped(root, entry, key, n);
      var a, b, c, d := OpeningLines(root, key, n), ScopeLines(entry, key), CapabilitiesLines(entry), MetaLines(root);
      ShapedCat(a, b);
      ShapedCat(a + b, c);
      ShapedCat(a + b + c, d);
    }
    var lines := Lines(root, entry, n);
    ShapedCat(lines, if exists l | l in lines :: !l.canDisplay then Plain(Title.Warning, TxTooLarge) else []);
  }

  lemma {:induction false} LinesShow(j: Json, items: seq<Item>, lines: seq<Line>, c: Context)
    requires Mirrors(j, items, lines) && AllShaped(lines) && ContextFits(c)
    ensures (forall i | 0 <= i < |items| :: Rendered(j, items[i], c).Ok?) <==> AllShow(lines)
  {
    hide Shaped, LineShows, StandsFor, Rendered, ContextFits;
    forall i | 0 <= i < |lines| ensures Rendered(j, items[i], c).Ok? <==> LineShows(lines[i]) {
      ItemShows(j, items[i], lines[i], c);
    }
  }

  // ---- The device's entry ----------------------------------------------------------------------

  /** The entry of the device, where the scope is fit, is found. */
  lemma {:induction false} FitIsFound(j: Json, root: Value, hex: Bytes, k: nat)
    requires Node(j, 0, root) && root.Obj? && Get(root, "signers").Some? && Get(root, "signers").value.Arr?
    requires TheDevice(Get(root, "signers").value.elems, hex, k)
    requires var entry := Get(root, "signers").value.elems[k].value; NamesPlain(entry) && ScopeFits(entry)
    ensures FindDeviceSigner(j, hex).Ok? && FindDeviceSigner(j, hex).value.1 == |Get(root, "signers").value.elems|
    ensures Node(j, FindDeviceSigner(j, hex).value.0, Get(root, "signers").value.elems[k].value)
  {
    hide Node, Child, KeysPlain, Names, NamesPlain, FindDeviceSigner, CapFits, Kids, ClistOf;
    var entry := Get(root, "signers").value.elems[k].value;
    if Get(entry, "clist").Some? && Get(entry, "clist").value.Arr? { FitCaps(entry); }
    DeviceIsFound(j, root, hex, k);
  }

  lemma {:induction false} FitCaps(entry: Value)
    requires ScopeFits(entry) && Get(entry, "clist").Some? && Get(entry, "clist").value.Arr?
    ensures forall c | c in Kids(Get(entry, "clist").value) :: c.Obj?
  {
    hide Child, Kids;
    var v := Get(entry, "clist").value;
    NotNullText(v);
    assert ClistOf(entry) == Kids(v);
    forall c | c in Kids(v) ensures c.Obj? {
      var i :| 0 <= i < |Kids(v)| && Kids(v)[i] == c;
      assert CapFits(ClistOf(entry)[i]);
    }
  }

  // ---- The review ------------------------------------------------------------------------------

  /** The review of the entry found, and when there is one. */
  lemma {:induction false} ReviewIs(j: Json, key: Key32, digest: Option<Key32>, expert: bool, at: nat, n: nat)
    requires j.GetResult(0, "verifiers").Err? && FindDeviceSigner(j, T.HexLower(key)) == Ok((at, n))
    ensures var own, b := TxItems(j, at, n), Then(ExpertMeta(j), ExpertItems());
            var r := TxReview(j, Some(key), digest, expert);
            && (r.Ok? <==>
                  && own.failure == None && |own.items| < MAX_ITEMS && digest.Some?
                  && (expert ==> b.failure == None && |own.items| + |b.items| < MAX_ITEMS))
            && (r.Ok? ==>
                  && r.value.items == own.items + (if expert then b.items else [])
                  && r.value.context == Context(HashShown(digest.value), Some(T.HexLower(key)), n))
  {
    hide JsonData.GetResult, FindDeviceSigner, TxItems, ExpertMeta, ExpertItems, Then, HashShown, T.HexLower;
    assert [] + TxItems(j, at, n).items == TxItems(j, at, n).items;
    assert TxItems(j, at, n).items + [] == TxItems(j, at, n).items;
  }

  lemma {:induction false} ContextIsFit(j: Json, digest: Key32, key: Key32, hex: Bytes)
    requires FindDeviceSigner(j, hex).Ok?
    ensures ContextFits(Context(HashShown(digest), Some(T.HexLower(key)), FindDeviceSigner(j, hex).value.1))
  {
    hide FindDeviceSigner, RenderSpec.Decimal;
    TxParser.SignersBound(j, hex);
    TxParser.DecimalLength(FindDeviceSigner(j, hex).value.1);
  }

  lemma {:induction false} ShowsSplit(j: Json, r: ParserSpec.Review, own: seq<Item>, more: seq<Item>)
    requires r.items == own + more
    ensures Shows(j, r) <==> (forall i | 0 <= i < |own| :: Rendered(j, own[i], r.context).Ok?) &&
                             (forall i | 0 <= i < |more| :: Rendered(j, more[i], r.context).Ok?)
  {
    hide Rendered;
    if Shows(j, r) {
      forall i | 0 <= i < |own| ensures Rendered(j, own[i], r.context).Ok? { assert own[i] == r.items[i]; }
      forall i | 0 <= i < |more| ensures Rendered(j, more[i], r.context).Ok? { assert more[i] == r.items[|own| + i]; }
    }
  }

  /** The entry of the device, its items and its lines. */
  lemma {:induction false} EntryReviewed(j: Json, root: Value, key: Key32, digest: Option<Key32>, expert: bool,
      at: nat, entry: Value, n: nat)
    requires Node(j, 0, root) && root.Obj? && Node(j, at, entry) && entry.Obj? && Get(entry, "pubKey").Some?
    requires j.GetResult(0, "verifiers").Err? && FindDeviceSigner(j, T.HexLower(key)) == Ok((at, n))
    requires |ClistOf(entry)| < 256 || TxItems(j, at, n).failure != None
    ensures Validated(j, TxReview(j, Some(key), digest, expert)).Ok? <==>
              && NullOrPlain(root, "networkId") && ScopeFits(entry) && MetaFits(root)
              && |ReviewLines(root, entry, n)| < MAX_ITEMS && AllShow(ReviewLines(root, entry, n))
              && digest.Some?
              && (expert ==>
                    ExpertFits(j, |ReviewLines(root, entry, n)|,
                               Context(HashShown(digest.value), Some(T.HexLower(key)), n)))
  {
    hide Node, Mirrors, JsonData.GetResult, Child, ClistOf, FindDeviceSigner, TxItems, ReviewLines, NullOrPlain,
      ScopeFits, MetaFits, AllShow, AllShaped, TxReview, Shows, T.HexLower, HashShown, ContextFits, ExpertMeta,
      ExpertItems, Then, Rendered;
    EntryIsFit(j, root, at, entry, n);
    ReviewIs(j, key, digest, expert, at, n);
    var own, more := TxItems(j, at, n), if expert then Then(ExpertMeta(j), ExpertItems()).items else [];
    if own.failure == None && digest.Some? {
      var lines := ReviewLines(root, entry, n);
      ReviewMirrors(j, root, at, entry, n);
      SameLength(j, own.items, lines);
      LinesShaped(root, entry, n);
      ContextIsFit(j, digest.value, key, T.HexLower(key));
      LinesShow(j, own.items, lines, Context(HashShown(digest.value), Some(T.HexLower(key)), n));
      var r := TxReview(j, Some(key), digest, expert);
      if r.Ok? { ShowsSplit(j, r.value, own.items, more); }
    }
  }

  lemma {:induction false} SameLength(j: Json, items: seq<Item>, lines: seq<Line>)
    requires Mirrors(j, items, lines)
    ensures |items| == |lines|
  {
  }

  /** An accepted review is of an entry that fits. */
  lemma {:induction false} AcceptedFits(j: Json, root: Value, key: Option<Key32>, digest: Option<Key32>, expert: bool)
    returns (k: nat)
    requires Node(j, 0, root) && root.Obj? && Validated(j, TxReview(j, key, digest, expert)).Ok?
    ensures key.Some? && digest.Some? && TreeFits(j, root, T.HexLower(key.value), digest.value, expert, k)
  {
    hide Node, Mirrors, JsonData.GetResult, Child, ClistOf, FindDeviceSigner, TxItems, ReviewLines, NullOrPlain,
      ScopeFits, MetaFits, AllShow, TxReview, Shows, T.HexLower, HashShown, KeysPlain, Names, NamesPlain, ExpertFits;
    ReviewFound(j, key, digest, expert);
    var hex := T.HexLower(key.value);
    var (at, n) := FindDeviceSigner(j, hex).value;
    k := AcceptedReview(j, root, hex, at, n);
    var entry := Get(root, "signers").value.elems[k].value;
    NodeGet(j, 0, root, "verifiers");
    EntryReviewed(j, root, key.value, digest, expert, at, entry, n);
  }

  lemma {:induction false} ReviewFound(j: Json, key: Option<Key32>, digest: Option<Key32>, expert: bool)
    requires TxReview(j, key, digest, expert).Ok?
    ensures j.GetResult(0, "verifiers").Err? && key.Some? && FindDeviceSigner(j, T.HexLower(key.value)).Ok?
    ensures var (at, n) := FindDeviceSigner(j, T.HexLower(key.value)).value; TxItems(j, at, n).failure == None
  {
    hide JsonData.GetResult, FindDeviceSigner, TxItems, ExpertMeta, ExpertItems, Then, HashShown, T.HexLower;
  }

  /** And an entry that fits is accepted. */
  lemma {:induction false} FitsIsAccepted(j: Json, root: Value, key: Key32, digest: Key32, expert: bool, k: nat)
    requires Node(j, 0, root) && TreeFits(j, root, T.HexLower(key), digest, expert, k)
    ensures Validated(j, TxReview(j, Some(key), Some(digest), expert)).Ok?
  {
    hide Node, Mirrors, JsonData.GetResult, Child, ClistOf, FindDeviceSigner, TxItems, ReviewLines, NullOrPlain,
      ScopeFits, MetaFits, AllShow, TxReview, Shows, T.HexLower, HashShown, KeysPlain, Names, NamesPlain, ExpertFits;
    var hex, elems := T.HexLower(key), Get(root, "signers").value.elems;
    var entry := elems[k].value;
    FitIsFound(j, root, hex, k);
    var at := FindDeviceSigner(j, hex).value.0;
    assert Names(entry, hex);
    NamedIsObject(entry, hex);
    NodeGet(j, 0, root, "verifiers");
    EntryIsFit(j, root, at, entry, |elems|);
    SectionsAccepted(j, at, |elems|);
    CapabilityBound(j, root, entry, at, k);
    EntryReviewed(j, root, key, Some(digest), expert, at, entry, |elems|);
  }

  /**
   A JSON text is reviewed exactly if it is the text of a tree that fits, for the device's own key, and the key and
   the hash of the text can be had.
   */
  lemma {:induction false} TextAccepted(c: Crypto, path: Path, text: Bytes, expert: bool)
    requires |text| < UNSET
    ensures ReviewText(c, path, text, expert).Ok? <==>
            && c.publicKey(path).Some? && c.blake2b(text).Some?
            && exists d: Doc, k: nat ::
                 Integrity.Readable(d) && PrintDoc(d) == text &&
                 TreeFits(DocumentOf(text), d.root, T.HexLower(c.publicKey(path).value),
                          c.blake2b(text).value, expert, k)
  {
    hide Integrity.ReadJson, Located, TxReview, Shows, T.HexLower, TreeFits, Integrity.Readable, PrintDoc, Node;
    var key, digest := c.publicKey(path), c.blake2b(text);
    if ReviewText(c, path, text, expert).Ok? {
      ReadsFirst(c, path, text, expert);
      var d := Integrity.ReadTree(text);
      TreeNode(DocumentOf(text), d);
      RootObject(d);
      var k := AcceptedFits(DocumentOf(text), d.root, key, digest, expert);
    }
    if key.Some? && digest.Some? {
      forall d: Doc, k: nat | Integrity.Readable(d) && PrintDoc(d) == text &&
          TreeFits(DocumentOf(text), d.root, T.HexLower(key.value), digest.value, expert, k)
        ensures ReviewText(c, path, text, expert).Ok?
      {
        FitText(c, path, d, expert, k);
      }
    }
  }

  lemma {:induction false} ReadsFirst(c: Crypto, path: Path, text: Bytes, expert: bool)
    requires ReviewText(c, path, text, expert).Ok?
    ensures Integrity.ReadJson(text).Ok?
    ensures Validated(Integrity.ReadJson(text).value,
                      TxReview(Integrity.ReadJson(text).value, c.publicKey(path), c.blake2b(text), expert)).Ok?
  {
    hide Integrity.ReadJson, TxReview, Shows;
  }

  lemma {:induction false} TreeNode(j: Json, d: Doc)
    requires Located(j, Integrity.Root(d))
    ensures Node(j, 0, d.root)
  {
    hide Located;
    MakeNode(j, Integrity.Root(d));
  }

  lemma {:induction false} RootObject(d: Doc)
    requires Integrity.Readable(d)
    ensures d.root.Obj?
  {
  }

  /** The text of a tree that fits is reviewed. */
  lemma {:induction false} FitText(c: Crypto, path: Path, d: Doc, expert: bool, k: nat)
    requires Integrity.Readable(d) && |PrintDoc(d)| < UNSET && c.publicKey(path).Some? && c.blake2b(PrintDoc(d)).Some?
    requires TreeFits(DocumentOf(PrintDoc(d)), d.root, T.HexLower(c.publicKey(path).value),
                      c.blake2b(PrintDoc(d)).value, expert, k)
    ensures ReviewText(c, path, PrintDoc(d), expert).Ok?
  {
    hide Integrity.ReadJson, Located, TxReview, Shows, T.HexLower, TreeFits, PrintDoc, Node, Valid,
      Integrity.SoundKeys;
    var j := DocumentOf(PrintDoc(d));
    Integrity.ReadPrinted(d);
    Integrity.RootLocated(d);
    TreeNode(j, d);
    FitsIsAccepted(j, d.root, c.publicKey(path).value, c.blake2b(PrintDoc(d)).value, expert, k);
  }
}
