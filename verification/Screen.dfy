/**
 What an accepted review shows: a backslash only in arguments, and there the escape of a byte exactly where the
 arguments spell one. So the values of a clear review never look alike.
 */
module Screen {
  import opened Base
  import opened Errors
  import opened Syntax
  import opened JsmnSpec
  import opened Json
  import opened Lookups
  import opened Nodes
  import opened ItemSpec
  import opened Review
  import opened ReviewProof
  import opened ClearSigning
  import opened Signers
  import opened RenderSpec
  import opened ParserSpec
  import opened Display
  import opened Texts
  import opened Spelling
  import opened TemplateBytes
  import Acceptance
  import FeeSpec
  import Integrity
  import RenderProof
  import D = Decimal
  import P = Principal
  import T = TransferSpec
  import TR = TemplateReading

  // ---- Items without a backslash ---------------------------------------------------------------

  /** The items show no arguments, and nothing else with a backslash. */
  predicate NoneEscaped(j: Json, items: seq<Item>) {
    forall i | 0 <= i < |items| :: PiecesMeet(j, items[i], NoBackslash)
  }

  /** The items show no backslash but in arguments. */
  predicate OnlyArgs(j: Json, items: seq<Item>) {
    forall i | 0 <= i < |items| :: ShowsArgs(items[i].render) || PiecesMeet(j, items[i], NoBackslash)
  }

  lemma {:induction false} NoneThen(j: Json, a: Build, b: Build)
    requires NoneEscaped(j, a.items) && (a.failure == None ==> NoneEscaped(j, b.items))
    ensures NoneEscaped(j, Then(a, b).items)
  {
    hide PiecesMeet;
  }

  lemma {:induction false} OnlyThen(j: Json, a: Build, b: Build)
    requires OnlyArgs(j, a.items) && (a.failure == None ==> OnlyArgs(j, b.items))
    ensures OnlyArgs(j, Then(a, b).items)
  {
    hide PiecesMeet;
  }

  lemma {:induction false} NoneIsOnly(j: Json, items: seq<Item>)
    requires NoneEscaped(j, items)
    ensures OnlyArgs(j, items)
  {
    hide PiecesMeet;
  }

  lemma {:induction false} SaysNone(j: Json, title: Title, render: Render, e: ItemsError)
    requires !Reads(render)
    ensures NoneEscaped(j, Say(title, render).items) && NoneEscaped(j, NOTHING.items) && NoneEscaped(j, Refuse(e).items)
  {
  }

  lemma {:induction false} ShowsNone(j: Json, title: Title, at: nat)
    requires !HasBackslash(j.Span(at))
    ensures NoneEscaped(j, Show(title, Std, at).items)
  {
  }

  lemma {:induction false} IntegerNone(j: Json, at: nat)
    requires PlainInteger(j, at)
    ensures !HasBackslash(j.Span(at))
  {
  }

  lemma {:induction false} AmountNone(s: Bytes)
    requires IsAmount(s)
    ensures !HasBackslash(s)
  {
    hide IndexOf;
    var dot := IndexOf(s, '.');
    forall i | 0 <= i < |s| ensures s[i] != '\\' {
      if i < dot { assert s[..dot][i] == s[i]; }
      if i > dot { assert s[dot + 1..][i - dot - 1] == s[i]; }
    }
  }

  lemma {:induction false} NetworkNone(j: Json)
    ensures NoneEscaped(j, NetworkItems(j).items)
  {
    hide JsonData.GetResult, HasBackslash, JsonData.IsNull;
  }

  lemma {:induction false} OpeningNone(j: Json, key: nat, nsigners: nat)
    requires !HasBackslash(j.Span(key))
    ensures NoneEscaped(j, OpeningItems(j, key, nsigners).items)
  {
    hide NetworkItems, NoneEscaped, HasBackslash, Then;
    NetworkNone(j);
    SaysNone(j, Title.Signing, SigningText, Failed);
    SaysNone(j, Signers, SignersText, Failed);
    SaysNone(j, Title.Requiring, RequiringText, Failed);
    ShowsNone(j, OfKey, key);
    NoneThen(j, Say(Title.Requiring, RequiringText), Show(OfKey, Std, key));
    NoneThen(j, if nsigners > 1 then Say(Signers, SignersText) else NOTHING,
             Then(Say(Title.Requiring, RequiringText), Show(OfKey, Std, key)));
    NoneThen(j, Say(Title.Signing, SigningText), NetworkItems(j));
    NoneThen(j, StartItems(j), KeyItems(key, nsigners));
  }

  lemma {:induction false} ScopeNone(j: Json, signer: nat, key: nat)
    requires !HasBackslash(j.Span(key))
    ensures NoneEscaped(j, ScopeItems(j, signer, key).items)
  {
    hide ValidClist, HasTransfer, KeyInClist, HasBackslash;
  }

  lemma {:induction false} TransferNone(j: Json, args: seq<nat>, cross: bool)
    requires |args| == if cross then 4 else 3
    ensures NoneEscaped(j, TransferItems(j, args, cross).items)
  {
    hide AmountToken, IsAmount, HasBackslash, P.IsPrincipal;
    if CheckAmount(j, args).Ok? { AmountNone(j.Span(CheckAmount(j, args).value)); }
  }

  lemma {:induction false} UnverifiedOnly(j: Json, cap: nat, args: nat, warn: bool)
    requires FieldMeets(j, cap, "name", NoBackslash)
    ensures OnlyArgs(j, UnverifiedItems(j, cap, args, warn).items)
  {
    hide FieldMeets, HasNamespace, Displayable;
  }

  lemma {:induction false} CapOnly(j: Json, cap: nat)
    requires FieldMeets(j, cap, "name", NoBackslash)
    ensures OnlyArgs(j, CapItems(j, cap).items)
  {
    hide FieldMeets, JsonData.GetResult, JsonData.Elements, JsonData.Tok, KindOfCap, UnverifiedItems, TransferItems,
      OnlyArgs, NoneEscaped, Then;
    SaysNone(j, Title.Warning, RotateWarning, BadCharacters);
    SaysNone(j, Title.Warning, RotateWarning, Failed);
    NoneIsOnly(j, NOTHING.items);
    NoneIsOnly(j, Refuse(BadCharacters).items);
    NoneIsOnly(j, Refuse(Failed).items);
    NoneIsOnly(j, Say(Title.Warning, RotateWarning).items);
    if j.GetResult(cap, "args").Ok? {
      var args := j.GetResult(cap, "args").value;
      var list := j.Elements(args);
      UnverifiedOnly(j, cap, args, true);
      UnverifiedOnly(j, cap, args, false);
      RotateOnly(j, cap);
      OnlyThen(j, if |list| == 1 then Show(Title.Rotate, RotateText, cap) else UnverifiedItems(j, cap, args, false),
               Say(Title.Warning, RotateWarning));
      if |list| == 3 { TransferNone(j, list, false); NoneIsOnly(j, TransferItems(j, list, false).items); }
      if |list| == 4 { TransferNone(j, list, true); NoneIsOnly(j, TransferItems(j, list, true).items); }
    }
  }

  lemma {:induction false} RotateOnly(j: Json, cap: nat)
    ensures OnlyArgs(j, Show(Title.Rotate, RotateText, cap).items)
  {
  }

  lemma {:induction false} CapsOnly(j: Json, caps: seq<nat>)
    requires forall c | c in caps :: FieldMeets(j, c, "name", NoBackslash)
    ensures OnlyArgs(j, CapsItems(j, caps).items)
    decreases |caps|
  {
    hide CapItems, OnlyArgs, FieldMeets, Then;
    if caps == [] {
      SaysNone(j, Title.Warning, RotateWarning, Failed);
      NoneIsOnly(j, NOTHING.items);
    } else {
      assert caps[0] in caps && forall c | c in caps[1..] :: c in caps;
      CapOnly(j, caps[0]);
      CapsOnly(j, caps[1..]);
      OnlyThen(j, CapItems(j, caps[0]), CapsItems(j, caps[1..]));
    }
  }

  /** The capabilities of the entry have names without escapes. */
  predicate CapsNamed(j: Json, signer: nat) {
    match ValidClist(j, signer)
    case None => true
    case Some(clist) => forall c | c in j.Elements(clist) :: FieldMeets(j, c, "name", NoBackslash)
  }

  lemma {:induction false} TransfersOnly(j: Json, signer: nat)
    requires CapsNamed(j, signer)
    ensures OnlyArgs(j, TransfersItems(j, signer).items)
  {
    hide ValidClist, CapsItems, OnlyArgs, FieldMeets, JsonData.Elements;
    SaysNone(j, Title.Warning, WarningText, Failed);
    NoneIsOnly(j, Say(Title.Warning, WarningText).items);
    if ValidClist(j, signer).Some? { CapsOnly(j, j.Elements(ValidClist(j, signer).value)); }
  }

  /** The gas price, if the fee is to be shown, has no backslash. */
  predicate PriceBare(j: Json) {
    ValidateMeta(j).Ok? && j.GetResult(0, "meta").Ok? ==>
      FieldMeets(j, j.GetResult(0, "meta").value, "gasPrice", NoBackslash)
  }

  lemma {:induction false} GasNone(j: Json)
    requires ValidateMeta(j).Ok? && PriceBare(j)
    requires j.GetResult(0, "meta").Ok? ==> IntegerIfGiven(j, j.GetResult(0, "meta").value, "gasLimit")
    ensures NoneEscaped(j, GasItems(j).items)
  {
    hide JsonData.GetResult, JsonData.IsNull, HasBackslash, PlainInteger, ValidateMeta;
    if j.GetResult(0, "meta").Ok? {
      var meta := j.GetResult(0, "meta").value;
      if j.GetResult(meta, "gasLimit").Ok? { IntegerNone(j, j.GetResult(meta, "gasLimit").value); }
    }
  }

  lemma {:induction false} ChainNone(j: Json)
    ensures NoneEscaped(j, ChainItems(j).items)
  {
    hide JsonData.GetResult, JsonData.IsNull, HasBackslash;
  }

  lemma {:induction false} FeeNone(j: Json)
    ensures NoneEscaped(j, FeeItems(j).items)
  {
    hide JsonData.GetResult, JsonData.IsNull, HasBackslash;
  }

  lemma {:induction false} MetaNone(j: Json)
    requires PriceBare(j)
    ensures NoneEscaped(j, MetaItems(j).items)
  {
    hide JsonData.GetResult, JsonData.IsNull, JsonData.Tok, MetaGiven, ValidateMeta, ChainItems, GasItems, FeeItems,
      IntegerIfGiven, NoneEscaped, Then, PriceBare;
    SaysNone(j, Title.Caution, CautionText, BadMeta);
    SaysNone(j, Title.Caution, CautionText, BadCharacters);
    SaysNone(j, Title.Caution, CautionText, Failed);
    if ValidateMeta(j).Ok? && j.GetResult(0, "meta").Ok? &&
       IntegerIfGiven(j, j.GetResult(0, "meta").value, "gasLimit") {
      ChainNone(j);
      GasNone(j);
      FeeNone(j);
      NoneThen(j, GasItems(j), FeeItems(j));
      NoneThen(j, ChainItems(j), Then(GasItems(j), FeeItems(j)));
    }
  }

  lemma {:induction false} TxOnly(j: Json, signer: nat, key: nat, nsigners: nat)
    requires j.GetResult(signer, "pubKey") == Ok(key) && !HasBackslash(j.Span(key))
    requires CapsNamed(j, signer) && PriceBare(j)
    ensures OnlyArgs(j, TxItems(j, signer, nsigners).items)
  {
    hide JsonData.GetResult, OpeningItems, ScopeItems, TransfersItems, MetaItems, NoneEscaped, OnlyArgs, Then,
      CapsNamed, PriceBare, HasBackslash;
    OpeningNone(j, key, nsigners);
    ScopeNone(j, signer, key);
    TransfersOnly(j, signer);
    MetaNone(j);
    NoneIsOnly(j, OpeningItems(j, key, nsigners).items);
    NoneIsOnly(j, ScopeItems(j, signer, key).items);
    NoneIsOnly(j, MetaItems(j).items);
    OnlyThen(j, TransfersItems(j, signer), MetaItems(j));
    OnlyThen(j, ScopeItems(j, signer, key), Then(TransfersItems(j, signer), MetaItems(j)));
    OnlyThen(j, OpeningItems(j, key, nsigners),
             Then(ScopeItems(j, signer, key), Then(TransfersItems(j, signer), MetaItems(j))));
    SaysNone(j, Title.Warning, TxTooLarge, Failed);
    NoneIsOnly(j, Say(Title.Warning, TxTooLarge).items);
    OnlyThen(j, Sections(j, signer, key, nsigners), Say(Title.Warning, TxTooLarge));
    TxSections(j, signer, nsigners);
  }

  // ---- What expert mode adds -------------------------------------------------------------------

  lemma {:induction false} ContNone(j: Json, cont: nat)
    ensures NoneEscaped(j, ContItems(j, cont).items)
  {
    hide JsonData.GetResult, HasBackslash, PlainInteger, Then, NoneEscaped;
    var id := match j.GetResult(cont, "pactId")
              case Err(_) => NOTHING
              case Ok(v) => if ShownUnescaped(j, v) then Show(PactId, Std, v) else Refuse(BadCharacters);
    var step := match j.GetResult(cont, "step")
                case Err(_) => NOTHING
                case Ok(v) => if PlainInteger(j, v) then Show(Title.Step, Std, v) else Refuse(BadCharacters);
    SaysNone(j, Payload, ContText, BadCharacters);
    if j.GetResult(cont, "pactId").Ok? && ShownUnescaped(j, j.GetResult(cont, "pactId").value) {
      ShowsNone(j, PactId, j.GetResult(cont, "pactId").value);
    }
    if j.GetResult(cont, "step").Ok? && PlainInteger(j, j.GetResult(cont, "step").value) {
      IntegerNone(j, j.GetResult(cont, "step").value);
      ShowsNone(j, Title.Step, j.GetResult(cont, "step").value);
    }
    NoneThen(j, id, step);
    NoneThen(j, Say(Payload, ContText), Then(id, step));
  }

  lemma {:induction false} PayloadNone(j: Json)
    ensures NoneEscaped(j, PayloadItems(j).items)
  {
    hide JsonData.GetResult, ContItems, NoneEscaped;
    SaysNone(j, Payload, ExecText, Failed);
    forall cont: nat ensures NoneEscaped(j, ContItems(j, cont).items) { ContNone(j, cont); }
  }

  lemma {:induction false} TimeNone(j: Json)
    requires ValidateMeta(j).Ok? && MetaItems(j).failure == None
    ensures NoneEscaped(j, TimeItems(j).items)
  {
    hide JsonData.GetResult, JsonData.IsNull, HasBackslash, PlainInteger, Then, NoneEscaped, ChainItems, GasItems,
      FeeItems, MetaGiven, MetaNames;
    var meta := j.GetResult(0, "meta").value;
    SaysNone(j, Payload, ExecText, Failed);
    if j.GetResult(meta, "creationTime").Ok? {
      IntegerNone(j, j.GetResult(meta, "creationTime").value);
      ShowsNone(j, Created, j.GetResult(meta, "creationTime").value);
    }
    if j.GetResult(meta, "ttl").Ok? {
      IntegerNone(j, j.GetResult(meta, "ttl").value);
      ShowsNone(j, Title.Ttl, j.GetResult(meta, "ttl").value);
    }
    NoneThen(j, match j.GetResult(meta, "creationTime") case Err(_) => NOTHING case Ok(v) => Show(Created, Std, v),
             match j.GetResult(meta, "ttl") case Err(_) => NOTHING case Ok(v) => Show(Title.Ttl, Std, v));
  }

  lemma {:induction false} ExpertNone(j: Json)
    requires MetaItems(j).failure == None
    ensures NoneEscaped(j, Then(ExpertMeta(j), ExpertItems()).items) && NoneEscaped(j, ExpertItems().items)
  {
    hide PayloadItems, TimeItems, ValidateMeta, MetaItems, NoneEscaped, Then;
    PayloadNone(j);
    SaysNone(j, TransactionHash, HashText, Failed);
    SaysNone(j, SignForAddress, SignForAddrText, Failed);
    if ValidateMeta(j).Ok? { TimeNone(j); }
    NoneThen(j, PayloadItems(j), if ValidateMeta(j).Err? then NOTHING else TimeItems(j));
    NoneThen(j, Say(TransactionHash, HashText), Say(SignForAddress, SignForAddrText));
    NoneThen(j, ExpertMeta(j), ExpertItems());
  }

  // ---- Arguments only in blind reviews ---------------------------------------------------------

  predicate AnyArgs(items: seq<Item>) { exists i | 0 <= i < |items| :: ShowsArgs(items[i].render) }

  /** Arguments come with a warning. */
  predicate Warned(items: seq<Item>) { AnyArgs(items) ==> NeedsBlind(items) }

  lemma {:induction false} WarnedThen(a: Build, b: Build)
    requires Warned(a.items) && Warned(b.items)
    ensures Warned(Then(a, b).items)
  {
    var s := Then(a, b).items;
    assert forall i | 0 <= i < |a.items| :: s[i] == a.items[i];
    if AnyArgs(s) && a.failure == None {
      assert s == a.items + b.items;
      var i :| 0 <= i < |s| && ShowsArgs(s[i].render);
      if i < |a.items| { assert AnyArgs(a.items); } else { assert b.items[i - |a.items|] == s[i]; }
    }
  }

  lemma {:induction false} NoneWarned(j: Json, items: seq<Item>)
    requires NoneEscaped(j, items)
    ensures !AnyArgs(items)
  {
    hide FieldMeets;
  }

  lemma {:induction false} UnverifiedWarned(j: Json, cap: nat, args: nat)
    ensures Warned(UnverifiedItems(j, cap, args, true).items)
  {
    hide HasNamespace, Displayable;
    assert UnverifiedItems(j, cap, args, true).items[0].render == CapNotVerified;
  }

  lemma {:induction false} RotateWarned(a: Build)
    requires a.failure == None
    ensures Warned(Then(a, Say(Title.Warning, RotateWarning)).items)
  {
    var s := Then(a, Say(Title.Warning, RotateWarning)).items;
    assert s[|a.items|].render == RotateWarning;
  }

  lemma {:induction false} CapWarned(j: Json, cap: nat)
    ensures Warned(CapItems(j, cap).items)
  {
    hide JsonData.GetResult, JsonData.Elements, JsonData.Tok, KindOfCap, UnverifiedItems, TransferItems, NeedsBlind,
      NoneEscaped, AnyArgs;
    SaysNone(j, Title.Warning, RotateWarning, BadCharacters);
    SaysNone(j, Title.Warning, RotateWarning, Failed);
    NoneWarned(j, NOTHING.items);
    NoneWarned(j, Refuse(BadCharacters).items);
    NoneWarned(j, Refuse(Failed).items);
    if j.GetResult(cap, "args").Ok? {
      var args := j.GetResult(cap, "args").value;
      var list := j.Elements(args);
      UnverifiedWarned(j, cap, args);
      Unrefused(j, cap, args);
      RotateWarned(if |list| == 1 then Show(Title.Rotate, RotateText, cap) else UnverifiedItems(j, cap, args, false));
      if |list| == 3 { TransferNone(j, list, false); NoneWarned(j, TransferItems(j, list, false).items); }
      if |list| == 4 { TransferNone(j, list, true); NoneWarned(j, TransferItems(j, list, true).items); }
    }
  }

  lemma {:induction false} Unrefused(j: Json, cap: nat, args: nat)
    ensures UnverifiedItems(j, cap, args, false).failure == None
  {
  }

  lemma {:induction false} CapsWarned(j: Json, caps: seq<nat>)
    ensures Warned(CapsItems(j, caps).items)
    decreases |caps|
  {
    hide CapItems, Warned, Then;
    if caps == [] {
      NothingWarned();
    } else {
      CapWarned(j, caps[0]);
      CapsWarned(j, caps[1..]);
      WarnedThen(CapItems(j, caps[0]), CapsItems(j, caps[1..]));
    }
  }

  lemma {:induction false} NothingWarned()
    ensures Warned([]) && Warned(Say(Title.Warning, WarningText).items) && Warned(Say(Title.Warning, TxTooLarge).items)
  {
  }

  lemma {:induction false} NoneThere(j: Json, items: seq<Item>)
    requires NoneEscaped(j, items)
    ensures Warned(items)
  {
    hide NoneEscaped, AnyArgs;
    NoneWarned(j, items);
  }

  lemma {:induction false} TxWarned(j: Json, signer: nat, key: nat, nsigners: nat)
    requires j.GetResult(signer, "pubKey") == Ok(key) && !HasBackslash(j.Span(key)) && PriceBare(j)
    ensures Warned(TxItems(j, signer, nsigners).items)
  {
    hide JsonData.GetResult, OpeningItems, ScopeItems, MetaItems, NoneEscaped, Then, PriceBare, HasBackslash, Warned,
      CapsItems, ValidClist;
    OpeningNone(j, key, nsigners);
    ScopeNone(j, signer, key);
    MetaNone(j);
    NothingWarned();
    NoneThere(j, OpeningItems(j, key, nsigners).items);
    NoneThere(j, ScopeItems(j, signer, key).items);
    NoneThere(j, MetaItems(j).items);
    if ValidClist(j, signer).Some? { CapsWarned(j, j.Elements(ValidClist(j, signer).value)); }
    WarnedThen(TransfersItems(j, signer), MetaItems(j));
    WarnedThen(ScopeItems(j, signer, key), Then(TransfersItems(j, signer), MetaItems(j)));
    WarnedThen(OpeningItems(j, key, nsigners),
               Then(ScopeItems(j, signer, key), Then(TransfersItems(j, signer), MetaItems(j))));
    WarnedThen(Sections(j, signer, key, nsigners), Say(Title.Warning, TxTooLarge));
    TxSections(j, signer, nsigners);
  }

  // ---- The gas price ---------------------------------------------------------------------------

  lemma {:induction false} FeeThere(j: Json, signer: nat, nsigners: nat)
    requires TxItems(j, signer, nsigners).failure == None && ValidateMeta(j).Ok?
    ensures j.GetResult(0, "meta").Ok?
    ensures Item(Title.MaxFee, MaxFeeText, j.GetResult(0, "meta").value, true) in TxItems(j, signer, nsigners).items
  {
    hide JsonData.GetResult, OpeningItems, ScopeItems, TransfersItems, MetaItems;
    MetaFee(j);
    TxSections(j, signer, nsigners);
    var key := j.GetResult(signer, "pubKey").value;
    var rest := Then(ScopeItems(j, signer, key), Then(TransfersItems(j, signer), MetaItems(j)));
    ThenParts(OpeningItems(j, key, nsigners), rest);
    ThenParts(ScopeItems(j, signer, key), Then(TransfersItems(j, signer), MetaItems(j)));
    ThenParts(TransfersItems(j, signer), MetaItems(j));
  }

  lemma {:induction false} MetaFee(j: Json)
    requires ValidateMeta(j).Ok?
    ensures j.GetResult(0, "meta").Ok?
    ensures MetaItems(j).failure == None ==>
              Item(Title.MaxFee, MaxFeeText, j.GetResult(0, "meta").value, true) in MetaItems(j).items
  {
    hide JsonData.GetResult, JsonData.IsNull, MetaNames, MetaGiven, IntegerIfGiven, ChainItems, PayerItems;
    if MetaItems(j).failure == None {
      var meta := j.GetResult(0, "meta").value;
      ThenParts(ChainItems(j), Then(GasItems(j), FeeItems(j)));
      ThenParts(GasItems(j), FeeItems(j));
      ThenParts(Show(Title.MaxFee, MaxFeeText, meta), PayerItems(j, meta));
      assert Show(Title.MaxFee, MaxFeeText, meta).items[0] == Item(Title.MaxFee, MaxFeeText, meta, true);
      assert FeeItems(j).items == Show(Title.MaxFee, MaxFeeText, meta).items + PayerItems(j, meta).items;
    }
  }

  /** A fee that is shown is a number, and so is the price. */
  lemma {:induction false} PriceShown(j: Json, r: ParserSpec.Review, signer: nat, nsigners: nat)
    requires TxItems(j, signer, nsigners).failure == None && TxItems(j, signer, nsigners).items <= r.items
    requires Shows(j, r)
    ensures PriceBare(j)
  {
    hide JsonData.GetResult, TxItems, ValidateMeta, Rendered;
    if ValidateMeta(j).Ok? {
      FeeThere(j, signer, nsigners);
      var meta := j.GetResult(0, "meta").value;
      var fee := Item(Title.MaxFee, MaxFeeText, meta, true);
      var i :| 0 <= i < |r.items| && r.items[i] == fee;
      FeeIsNumber(j, fee, r.context);
    }
  }

  lemma {:induction false} FeeIsNumber(j: Json, fee: Item, c: Context)
    requires fee.render == MaxFeeText && Rendered(j, fee, c).Ok?
    ensures FieldMeets(j, fee.token, "gasPrice", NoBackslash)
  {
    hide JsonData.GetResult, FeeSpec.Product, D.Read, HasBackslash;
    if j.GetResult(fee.token, "gasPrice").Ok? {
      var price := j.Span(j.GetResult(fee.token, "gasPrice").value);
      FeeSpec.ReadsNumbers(price);
      NumberBare(price);
    }
  }

  lemma {:induction false} NumberBare(s: Bytes)
    requires T.IsJsonNumber(s)
    ensures !HasBackslash(s)
  {
    TR.JsonNumberNumeric(s);
  }

  // ---- The lines that show arguments -----------------------------------------------------------

  /** The lines that show arguments show those of one of `caps`. */
  predicate ArgsOfCaps(lines: seq<Line>, caps: seq<Syntax.Value>) {
    forall i | 0 <= i < |lines| :: ShowsArgs(lines[i].render) ==> lines[i].value in caps
  }

  lemma {:induction false} ArgsCat(a: seq<Line>, b: seq<Line>, caps: seq<Syntax.Value>)
    requires ArgsOfCaps(a, caps) && ArgsOfCaps(b, caps)
    ensures ArgsOfCaps(a + b, caps)
  {
  }

  lemma {:induction false} CapArgLines(cap: Syntax.Value, caps: seq<Syntax.Value>)
    requires cap in caps
    ensures ArgsOfCaps(CapLines(cap), caps)
  {
    hide NameOf, ArgsOf, TransferLines, UnverifiedLines, ArgsOfCaps;
    NoArgLines(caps);
    if IsTransfer(cap) || IsXchain(cap) { TransferArgLines(ArgsOf(cap), IsXchain(cap), caps); }
    UnverifiedArgLines(cap, true, caps);
    UnverifiedArgLines(cap, false, caps);
    RotateArgLines(cap, caps);
    ArgsCat(if |ArgsOf(cap)| == 1 then Shown(Title.Rotate, RotateText, cap) else UnverifiedLines(cap, false),
            Plain(Title.Warning, RotateWarning), caps);
  }

  lemma {:induction false} TransferArgLines(args: seq<Syntax.Value>, cross: bool, caps: seq<Syntax.Value>)
    requires |args| == if cross then 4 else 3
    ensures ArgsOfCaps(TransferLines(args, cross), caps)
  {
    hide P.IsPrincipal, Text, NumberOf;
  }

  lemma {:induction false} UnverifiedArgLines(cap: Syntax.Value, warn: bool, caps: seq<Syntax.Value>)
    requires cap in caps
    ensures ArgsOfCaps(UnverifiedLines(cap, warn), caps)
  {
    hide NameOf, SplitNamespace, Fits;
  }

  lemma {:induction false} RotateArgLines(cap: Syntax.Value, caps: seq<Syntax.Value>)
    requires cap in caps
    ensures ArgsOfCaps(Shown(Title.Rotate, RotateText, cap), caps)
    ensures ArgsOfCaps(Plain(Title.Warning, RotateWarning), caps)
  {
  }

  lemma {:induction false} CapsArgLines(some: seq<Syntax.Value>, caps: seq<Syntax.Value>)
    requires forall c | c in some :: c in caps
    ensures ArgsOfCaps(CapsLines(some), caps)
    decreases |some|
  {
    hide CapLines, ArgsOfCaps;
    if some == [] {
      NoArgLines(caps);
    } else {
      CapArgLines(some[0], caps);
      CapsArgLines(some[1..], caps);
      ArgsCat(CapLines(some[0]), CapsLines(some[1..]), caps);
    }
  }

  lemma {:induction false} NoArgLines(caps: seq<Syntax.Value>)
    ensures ArgsOfCaps([], caps) && ArgsOfCaps(Plain(Title.Warning, WarningText), caps) &&
            ArgsOfCaps(Plain(Title.Warning, TxTooLarge), caps)
  {
  }

  lemma {:induction false} OtherArgLines(root: Syntax.Value, entry: Syntax.Value, key: Syntax.Value, n: nat,
      caps: seq<Syntax.Value>)
    ensures ArgsOfCaps(OpeningLines(root, key, n), caps) && ArgsOfCaps(ScopeLines(entry, key), caps) &&
            ArgsOfCaps(MetaLines(root), caps)
  {
    hide Child, ClistOf, KeyAmong, MetaRecognised, NameOf, IsNullText;
  }

  lemma {:induction false} ReviewArgLines(root: Syntax.Value, entry: Syntax.Value, n: nat)
    ensures ArgsOfCaps(ReviewLines(root, entry, n), ClistOf(entry))
  {
    hide Child, ClistOf, OpeningLines, ScopeLines, MetaLines, CapsLines, ArgsOfCaps;
    var caps := ClistOf(entry);
    NoArgLines(caps);
    CapsArgLines(caps, caps);
    if Get(entry, "pubKey").Some? {
      var key := Get(entry, "pubKey").value;
      OtherArgLines(root, entry, key, n, caps);
      var a, b, c, d := OpeningLines(root, key, n), ScopeLines(entry, key), CapabilitiesLines(entry), MetaLines(root);
      ArgsCat(a, b, caps);
      ArgsCat(a + b, c, caps);
      ArgsCat(a + b + c, d, caps);
    }
    var lines := Lines(root, entry, n);
    ArgsCat(lines, if exists l | l in lines :: !l.canDisplay then Plain(Title.Warning, TxTooLarge) else [], caps);
  }

  // ---- An accepted review ----------------------------------------------------------------------

  lemma {:induction false} CapsAreNamed(j: Json, at: nat, entry: Syntax.Value)
    requires Node(j, at, entry) && entry.Obj? && NamesPlain(entry) && TransfersItems(j, at).failure == None
    ensures CapsNamed(j, at) && forall c | c in ClistOf(entry) :: c.Obj?
  {
    hide Node, JsonData.Elements, JsonData.GetResult, Child, ClistOf, ValidClist, CapsItems, NameOf, HasBackslash, Kids;
    ClistIs(j, at, entry);
    if ValidClist(j, at).Some? {
      var clist, v := ValidClist(j, at).value, Get(entry, "clist").value;
      ClistArray(j, clist, v);
      forall c | c in j.Elements(clist) ensures FieldMeets(j, c, "name", NoBackslash) {
        var i :| 0 <= i < |j.Elements(clist)| && j.Elements(clist)[i] == c;
        NameIs(j, c, Kids(v)[i]);
        assert Kids(v)[i] in ClistOf(entry);
      }
    }
  }

  lemma {:induction false} CapsAreGood(root: Syntax.Value, k: nat)
    requires Integrity.Good(root) && Get(root, "signers").Some? && Get(root, "signers").value.Arr?
    requires k < |Get(root, "signers").value.elems|
    ensures forall c | c in ClistOf(Get(root, "signers").value.elems[k].value) :: Integrity.Good(c)
  {
    hide Integrity.Good, Child, IsNullText, Kids;
    GoodGet(root, "signers");
    var signers := Get(root, "signers").value;
    ArrayKids(signers);
    GoodKid(signers, k);
    var entry := signers.elems[k].value;
    if Get(entry, "clist").Some? {
      GoodGet(entry, "clist");
      var v := Get(entry, "clist").value;
      forall i | 0 <= i < |Kids(v)| ensures Integrity.Good(Kids(v)[i]) { GoodKid(v, i); }
    }
  }

  lemma {:induction false} ArrayKids(v: Syntax.Value)
    requires v.Arr?
    ensures |Kids(v)| == |v.elems| && forall i | 0 <= i < |v.elems| :: Kids(v)[i] == v.elems[i].value
  {
  }

  /**
   Every item of the review can be shown. Its text has a backslash only if it shows the arguments of a capability of
   the entry, and spells an escape exactly if the arguments do.
   */
  ghost predicate OnScreen(j: Json, r: ParserSpec.Review, lines: seq<Line>, caps: seq<Syntax.Value>) {
    forall i | 0 <= i < |r.items| ::
      && Rendered(j, r.items[i], r.context).Ok?
      && (HasBackslash(Rendered(j, r.items[i], r.context).value) ==> ShowsArgs(r.items[i].render))
      && (ShowsArgs(r.items[i].render) ==>
            && i < |lines| && StandsFor(j, r.items[i], lines[i]) && lines[i].value in caps
            && forall full :: Spells(Rendered(j, r.items[i], r.context).value, full) <==> LineSpells(lines[i], full))
  }

  lemma {:induction false} BareItem(j: Json, item: Item, c: Context)
    requires ContextBare(c) && Rendered(j, item, c).Ok? && PiecesMeet(j, item, NoBackslash)
    ensures !HasBackslash(Rendered(j, item, c).value) && !ShowsArgs(item.render)
  {
    hide RenderSpec.Value, HasBackslash, ContextBare, FieldMeets;
    ValueMeets(j, item, c, NoBackslash);
    RenderedIs(j, item, c);
  }

  lemma {:induction false} RenderedIs(j: Json, item: Item, c: Context)
    requires Rendered(j, item, c).Ok?
    ensures RenderSpec.Value(j, item, c) == Rendered(j, item, c)
  {
    hide RenderSpec.Value;
  }

  /** One list of items whose first ones mirror the lines, and whose others show no arguments. */
  lemma {:induction false} ItemsOnScreen(j: Json, r: ParserSpec.Review, own: seq<Item>, lines: seq<Line>,
      caps: seq<Syntax.Value>)
    requires own <= r.items && OnlyArgs(j, own) && NoneEscaped(j, r.items[|own|..])
    requires Mirrors(j, own, lines) && ArgsOfCaps(lines, caps) && forall c | c in caps :: c.Obj? && Integrity.Good(c)
    requires ContextBare(r.context) && Shows(j, r)
    ensures OnScreen(j, r, lines, caps)
  {
    hide StandsFor, PiecesMeet, Integrity.Good, LineSpells, Spells, RenderSpec.Value, Rendered, ContextBare,
      HasBackslash;
    forall i | 0 <= i < |r.items|
      ensures HasBackslash(Rendered(j, r.items[i], r.context).value) ==> ShowsArgs(r.items[i].render)
      ensures ShowsArgs(r.items[i].render) ==>
                && i < |lines| && StandsFor(j, r.items[i], lines[i]) && lines[i].value in caps
                && forall full :: Spells(Rendered(j, r.items[i], r.context).value, full) <==> LineSpells(lines[i], full)
    {
      var item := r.items[i];
      RenderedIs(j, item, r.context);
      assert i >= |own| ==> item == r.items[|own|..][i - |own|];
      if PiecesMeet(j, item, NoBackslash) {
        BareItem(j, item, r.context);
      } else {
        assert item == own[i];
        SameRender(j, item, lines[i]);
        forall full ensures Spells(Rendered(j, item, r.context).value, full) <==> LineSpells(lines[i], full) {
          ItemSpells(j, item, lines[i], r.context, full);
        }
      }
    }
  }

  lemma {:induction false} SameRender(j: Json, item: Item, line: Line)
    requires StandsFor(j, item, line)
    ensures item.render == line.render
  {
    hide Node;
  }

  /** What is added to the items of the entry. */
  lemma {:induction false} ReviewParts(j: Json, key: Option<Key32>, digest: Option<Key32>, expert: bool)
    requires TxReview(j, key, digest, expert).Ok?
    ensures key.Some? && FindDeviceSigner(j, T.HexLower(key.value)).Ok?
    ensures var (at, n) := FindDeviceSigner(j, T.HexLower(key.value)).value;
            var r, own := TxReview(j, key, digest, expert).value, TxItems(j, at, n);
            && own.failure == None && own.items <= r.items && ContextBare(r.context)
            && (r.items[|own.items|..] == [] || r.items[|own.items|..] == Then(ExpertMeta(j), ExpertItems()).items)
  {
    hide JsonData.GetResult, FindDeviceSigner, TxItems, ExpertMeta, ExpertItems, Then, HashShown, T.HexLower, Bare;
    var (at, n) := FindDeviceSigner(j, T.HexLower(key.value)).value;
    assert [] + TxItems(j, at, n).items == TxItems(j, at, n).items;
    HexBare(key.value);
    HashBare(digest.value);
  }

  lemma {:induction false} KeyBare(j: Json, at: nat, entry: Syntax.Value, pk: Key32)
    requires Node(j, at, entry) && entry.Obj? && Get(entry, "pubKey") == Some(Str(T.HexLower(pk)))
    ensures j.GetResult(at, "pubKey").Ok? && !HasBackslash(j.Span(j.GetResult(at, "pubKey").value))
  {
    hide Node, JsonData.GetResult, Child, Print, T.HexLower, Bare;
    NodeGet(j, at, entry, "pubKey");
    NodeTells(j, j.GetResult(at, "pubKey").value, Str(T.HexLower(pk)));
    HexBare(pk);
    BareMeets(T.HexLower(pk), NoBackslash);
  }

  lemma {:induction false} PartsAccepted(j: Json, at: nat, n: nat)
    requires TxItems(j, at, n).failure == None
    ensures TransfersItems(j, at).failure == None && MetaItems(j).failure == None
  {
    hide OpeningItems, ScopeItems, TransfersItems, MetaItems, JsonData.GetResult;
  }

  /** What the accepted review of a document shows. */
  lemma {:induction false} DocumentOnScreen(j: Json, root: Syntax.Value, key: Option<Key32>, digest: Option<Key32>,
      expert: bool) returns (k: nat)
    requires Node(j, 0, root) && root.Obj? && Integrity.Good(root) && Validated(j, TxReview(j, key, digest, expert)).Ok?
    ensures key.Some? && Get(root, "signers").Some? && Get(root, "signers").value.Arr?
    ensures var r, elems := TxReview(j, key, digest, expert).value, Get(root, "signers").value.elems;
            && TheDevice(elems, T.HexLower(key.value), k)
            && OnScreen(j, r, ReviewLines(root, elems[k].value, |elems|), ClistOf(elems[k].value))
            && (AnyArgs(r.items) ==> NeedsBlind(r.items))
  {
    hide Node, Mirrors, TxReview, TxItems, FindDeviceSigner, ReviewLines, Child, ClistOf, T.HexLower, KeysPlain, Names,
      NamesPlain, Integrity.Good, ArgsOfCaps, OnScreen, OnlyArgs, NoneEscaped, Shows, ContextBare, CapsNamed, PriceBare,
      JsonData.GetResult, HasBackslash, TransfersItems, MetaItems, Then, ExpertMeta, ExpertItems, NeedsBlind, AnyArgs;
    ReviewParts(j, key, digest, expert);
    var hex, r := T.HexLower(key.value), TxReview(j, key, digest, expert).value;
    var (at, n) := FindDeviceSigner(j, hex).value;
    k := AcceptedReview(j, root, hex, at, n);
    var entry := Get(root, "signers").value.elems[k].value;
    var own := TxItems(j, at, n).items;
    PartsAccepted(j, at, n);
    CapsAreNamed(j, at, entry);
    CapsAreGood(root, k);
    KeyBare(j, at, entry, key.value);
    PriceShown(j, r, at, n);
    TxOnly(j, at, j.GetResult(at, "pubKey").value, n);
    TxWarned(j, at, j.GetResult(at, "pubKey").value, n);
    ExpertNone(j);
    NoItems(j);
    ReviewArgLines(root, entry, n);
    ItemsOnScreen(j, r, own, ReviewLines(root, entry, n), ClistOf(entry));
    ArgsAhead(j, own, r.items);
  }

  lemma {:induction false} NoItems(j: Json)
    ensures NoneEscaped(j, [])
  {
  }

  lemma {:induction false} ArgsAhead(j: Json, own: seq<Item>, items: seq<Item>)
    requires own <= items && NoneEscaped(j, items[|own|..]) && Warned(own)
    ensures Warned(items)
  {
    hide PiecesMeet;
    NoneWarned(j, items[|own|..]);
    forall i | |own| <= i < |items| ensures !ShowsArgs(items[i].render) {
      assert items[|own|..][i - |own|] == items[i];
    }
    if AnyArgs(items) {
      var i :| 0 <= i < |items| && ShowsArgs(items[i].render);
      assert own[i] == items[i];
      var b :| b in own && IsBlind(b.render);
      assert b in items;
    }
  }

  // ---- From the bytes of a transaction ---------------------------------------------------------

  /** What the review of an accepted text shows, in terms of the text's tree. */
  lemma {:induction false} TextOnScreen(c: Crypto, path: Path, text: Bytes, expert: bool) returns (d: Doc, k: nat)
    requires |text| < UNSET && ReviewText(c, path, text, expert).Ok?
    ensures Integrity.ReadJson(text).Ok? && Integrity.Readable(d) && PrintDoc(d) == text && c.publicKey(path).Some?
    ensures Get(d.root, "signers").Some? && Get(d.root, "signers").value.Arr?
    ensures var j, r := Integrity.ReadJson(text).value, ReviewText(c, path, text, expert).value;
            var elems := Get(d.root, "signers").value.elems;
            && TheDevice(elems, T.HexLower(c.publicKey(path).value), k)
            && OnScreen(j, r, ReviewLines(d.root, elems[k].value, |elems|), ClistOf(elems[k].value))
            && (AnyArgs(r.items) ==> NeedsBlind(r.items))
  {
    hide Integrity.ReadJson, Node, TxReview, Shows, T.HexLower, OnScreen, ReviewLines, ClistOf, Child, TheDevice, Valid,
      Integrity.SoundKeys, AnyArgs, NeedsBlind, PrintDoc;
    d := RenderProof.ReadDocument(text);
    k := DocumentOnScreen(Integrity.ReadJson(text).value, d.root, c.publicKey(path), c.blake2b(text), expert);
  }

  /** The text of each item. */
  function ShownTexts(txType: TxType, p: Parsed): seq<Result<Bytes, ItemsError>> {
    seq(|p.review.items|, i requires 0 <= i < |p.review.items| =>
      Rendered(ShownDocument(txType, p.text), p.review.items[i], p.review.context))
  }

  lemma {:induction false} HashNone(hash: Key32, key: Option<Key32>, expert: bool)
    ensures NoneEscaped(JsonData([], []), HashReview(hash, key, expert).items)
    ensures ContextBare(HashReview(hash, key, expert).context)
  {
    hide HashShown, T.HexLower, Bare;
    HashBare(hash);
    if key.Some? { HexBare(key.value); }
  }

  /** Whatever is accepted, only arguments are shown with a backslash, and none in a clear review. */
  lemma {:induction false} BackslashOnlyInArguments(c: Crypto, path: Path, txType: TxType, msg: Bytes, template: Bytes,
      expert: bool)
    requires |msg| < UNSET && ParseTx(c, path, txType, msg, template, expert).1.Ok?
    ensures var p := ParseTx(c, path, txType, msg, template, expert).1.value;
            forall i | 0 <= i < |p.review.items| ::
              && ShownTexts(txType, p)[i].Ok?
              && (HasBackslash(ShownTexts(txType, p)[i].value) ==>
                    ShowsArgs(p.review.items[i].render) && NeedsBlind(p.review.items))
  {
    hide Integrity.ReadJson, ReviewText, HashReview, Rendered, T.Format, HasBackslash, NeedsBlind, PiecesMeet,
      ContextBare, StandsFor, ReviewLines, ClistOf, LineSpells, Spells, T.ReadRequest;
    var p := ParseTx(c, path, txType, msg, template, expert).1.value;
    var j := ShownDocument(txType, p.text);
    if txType == TxHash {
      HashNone(msg, c.publicKey(path), expert);
      forall i | 0 <= i < |p.review.items|
        ensures ShownTexts(txType, p)[i].Ok? && !HasBackslash(ShownTexts(txType, p)[i].value)
      {
        BareItem(j, p.review.items[i], p.review.context);
      }
    } else {
      if txType == TxTransfer { TemplateShort(msg, c.publicKey(path)); }
      ReadAccepted(c, path, p.text, expert);
      var d, k := TextOnScreen(c, path, p.text, expert);
      forall i | 0 <= i < |p.review.items|
        ensures ShownTexts(txType, p)[i].Ok?
        ensures HasBackslash(ShownTexts(txType, p)[i].value) ==>
                  ShowsArgs(p.review.items[i].render) && NeedsBlind(p.review.items)
      {
        if ShowsArgs(p.review.items[i].render) { assert AnyArgs(p.review.items); }
      }
    }
  }

  lemma {:induction false} ReadAccepted(c: Crypto, path: Path, text: Bytes, expert: bool)
    requires ReviewText(c, path, text, expert).Ok?
    ensures Integrity.ReadJson(text).Ok?
  {
    hide Integrity.ReadJson;
  }

  lemma {:induction false} TemplateShort(msg: Bytes, key: Option<Key32>)
    ensures T.Build(msg, key).Ok? ==> |T.Build(msg, key).value| <= T.TEMPLATE_BUF
  {
    hide T.ReadRequest, T.Pieces, T.Join;
  }

  // ---- Bytes -----------------------------------------------------------------------------------

  lemma {:induction false} ReadsBuffer(text: Bytes)
    ensures DocumentOf(text).buf == text || DocumentOf(text).buf == []
  {
  }

  /** What is shown of bytes is bytes. */
  lemma {:induction false} ShownBytes(c: Crypto, path: Path, txType: TxType, msg: Bytes, expert: bool, i: nat)
    requires AllBytes(msg) && ParseTx(c, path, txType, msg, [], expert).1.Ok?
    requires i < |ParseTx(c, path, txType, msg, [], expert).1.value.review.items|
    ensures var r := ShownTexts(txType, ParseTx(c, path, txType, msg, [], expert).1.value)[i];
            r.Ok? ==> AllBytes(r.value)
  {
    hide Integrity.ReadJson, TxReview, HashReview, Rendered, T.Build, AllBytes, PiecesMeet, ContextBare, Shows;
    var p := ParseTx(c, path, txType, msg, [], expert).1.value;
    var j := ShownDocument(txType, p.text);
    if txType == TxHash {
      HashNone(msg, c.publicKey(path), expert);
      NoBytes();
    } else {
      if txType == TxTransfer { BuiltBytes(msg, c.publicKey(path)); }
      ReadsBuffer(p.text);
      NoBytes();
      ReviewParts(Integrity.ReadJson(p.text).value, c.publicKey(path), c.blake2b(p.text), expert);
    }
    BytesInSpans(j);
    if Rendered(j, p.review.items[i], p.review.context).Ok? {
      RenderedIs(j, p.review.items[i], p.review.context);
      ValueMeets(j, p.review.items[i], p.review.context, OnlyBytes);
    }
  }

  lemma {:induction false} NoBytes()
    ensures AllBytes([])
  {
  }

  // ---- Clear reviews do not look alike ---------------------------------------------------------

  /** A transaction, and who reads it. */
  datatype Signing = Signing(c: Crypto, path: Path, txType: TxType, msg: Bytes, expert: bool) {
    function Result(): Base.Result<Parsed, ParserError> { ParseTx(c, path, txType, msg, [], expert).1 }

    /** It is accepted, and not for blind signing. */
    predicate Clear() {
      AllBytes(msg) && |msg| < UNSET && Result().Ok? && !NeedsBlind(Result().value.review.items)
    }
  }

  /**
   A value of one clear review and a value of another, or of the same, have the same text on the screen only if they
   are the same bytes.
   */
  lemma {:induction false} ClearTextsDiffer(a: Signing, i: nat, b: Signing, k: nat)
    requires a.Clear() && i < |a.Result().value.review.items|
    requires b.Clear() && k < |b.Result().value.review.items|
    ensures ShownTexts(a.txType, a.Result().value)[i].Ok? && ShownTexts(b.txType, b.Result().value)[k].Ok?
    ensures Escaped(ShownTexts(a.txType, a.Result().value)[i].value) ==
            Escaped(ShownTexts(b.txType, b.Result().value)[k].value) ==>
              ShownTexts(a.txType, a.Result().value)[i] == ShownTexts(b.txType, b.Result().value)[k]
  {
    hide ParseTx, Escaped, Spells, HasBackslash, NeedsBlind, ShownTexts, AllBytes;
    BackslashOnlyInArguments(a.c, a.path, a.txType, a.msg, [], a.expert);
    BackslashOnlyInArguments(b.c, b.path, b.txType, b.msg, [], b.expert);
    ShownBytes(a.c, a.path, a.txType, a.msg, a.expert, i);
    ShownBytes(b.c, b.path, b.txType, b.msg, b.expert, k);
    ShownLength(a.txType, a.Result().value);
    ShownLength(b.txType, b.Result().value);
    var v, w := ShownTexts(a.txType, a.Result().value)[i].value, ShownTexts(b.txType, b.Result().value)[k].value;
    BareSpellsNothing(v);
    BareSpellsNothing(w);
    if v != w { LooksDifferent(v, w); }
  }

  lemma {:induction false} ShownLength(txType: TxType, p: Parsed)
    ensures |ShownTexts(txType, p)| == |p.review.items|
  {
  }

  lemma {:induction false} BareSpellsNothing(s: Bytes)
    requires !HasBackslash(s)
    ensures !Spells(s, true)
  {
    NoneSpelled(s, true);
  }
}
