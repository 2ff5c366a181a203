/** The parsed transaction: its tokens, its review items and the hash shown. */
module TxParser {
  import opened Base
  import opened Errors
  import opened Json
  import opened ItemSpec
  import opened ItemLookups
  import opened Items
  import opened RenderSpec
  import opened Rendering
  import opened ParserSpec
  import Acceptance
  import Integrity
  import JsmnSpec
  import Jsmn
  import T = TransferSpec
  import Transfer
  import P = Principal

  // ---- What the renderers rely on --------------------------------------------------------------

  /** An item that shows arguments shows at most five. */
  predicate FewArgs(j: Json, i: Item) {
    i.render == UnknownText && i.canDisplay && j.GetResult(i.token, "args").Ok? ==>
      |j.Elements(j.GetResult(i.token, "args").value)| <= 5
  }

  predicate AllFew(j: Json, items: seq<Item>) { forall i | 0 <= i < |items| :: FewArgs(j, items[i]) }

  lemma {:induction false} FewThen(j: Json, a: Build, b: Build)
    requires AllFew(j, a.items) && AllFew(j, b.items)
    ensures AllFew(j, Then(a, b).items)
  {
    hide FewArgs;
  }

  lemma {:induction false} FewPlain(j: Json, title: Title, render: Render, token: nat)
    requires render != UnknownText
    ensures AllFew(j, Show(title, render, token).items)
  {
  }

  lemma {:induction false} FewCap(j: Json, cap: nat)
    ensures AllFew(j, CapItems(j, cap).items)
  {
    hide JsonData.GetResult, JsonData.Elements, KindOfCap, CheckAmount, HasNamespace, ShownUnescaped, P.IsPrincipal;
  }

  lemma {:induction false} FewCaps(j: Json, caps: seq<nat>)
    ensures AllFew(j, CapsItems(j, caps).items)
    decreases |caps|
  {
    hide CapItems, AllFew, Then;
    if caps != [] {
      FewCap(j, caps[0]);
      FewCaps(j, caps[1..]);
      FewThen(j, CapItems(j, caps[0]), CapsItems(j, caps[1..]));
    } else {
      FewNone(j);
    }
  }

  lemma {:induction false} FewNone(j: Json)
    ensures AllFew(j, [])
  {
  }

  /** No item of the other sections shows arguments. */
  predicate NoArgs(items: seq<Item>) { forall i | 0 <= i < |items| :: items[i].render != UnknownText }

  lemma {:induction false} NoArgsFew(j: Json, items: seq<Item>)
    requires NoArgs(items)
    ensures AllFew(j, items)
  {
  }

  lemma {:induction false} SectionsNoArgs(j: Json, key: nat, nsigners: nat, signer: nat)
    ensures NoArgs(OpeningItems(j, key, nsigners).items) && NoArgs(ScopeItems(j, signer, key).items)
  {
    hide JsonData.GetResult, JsonData.IsNull, ShownUnescaped, ValidClist, HasTransfer, KeyInClist;
  }

  lemma {:induction false} MetaNoArgs(j: Json)
    ensures NoArgs(MetaItems(j).items)
  {
    hide JsonData.GetResult, JsonData.IsNull, ShownUnescaped, ValidateMeta, IntegerIfGiven, MetaGiven;
  }

  lemma {:induction false} ExpertNoArgs(j: Json)
    ensures NoArgs(Then(ExpertMeta(j), ExpertItems()).items)
  {
    hide Then, ExpertMeta, ExpertItems;
    Acceptance.ExpertNeutral(j);
  }

  lemma {:induction false} FewTx(j: Json, signer: nat, nsigners: nat)
    ensures AllFew(j, TxItems(j, signer, nsigners).items)
  {
    hide JsonData.GetResult, AllFew, Then, OpeningItems, ScopeItems, TransfersItems, MetaItems, NoArgs, CapsItems;
    FewNone(j);
    if j.GetResult(signer, "pubKey").Ok? {
      var key := j.GetResult(signer, "pubKey").value;
      SectionsNoArgs(j, key, nsigners, signer);
      MetaNoArgs(j);
      NoArgsFew(j, OpeningItems(j, key, nsigners).items);
      NoArgsFew(j, ScopeItems(j, signer, key).items);
      NoArgsFew(j, MetaItems(j).items);
      FewTransfers(j, signer);
      FewPlain(j, Title.Warning, TxTooLarge, 0);
      var rest := Then(TransfersItems(j, signer), MetaItems(j));
      FewThen(j, TransfersItems(j, signer), MetaItems(j));
      FewThen(j, ScopeItems(j, signer, key), rest);
      FewThen(j, OpeningItems(j, key, nsigners), Then(ScopeItems(j, signer, key), rest));
      FewThen(j, Then(OpeningItems(j, key, nsigners), Then(ScopeItems(j, signer, key), rest)),
        Say(Title.Warning, TxTooLarge));
    }
  }

  lemma {:induction false} FewTransfers(j: Json, signer: nat)
    ensures AllFew(j, TransfersItems(j, signer).items)
  {
    hide ValidClist, AllFew, CapsItems, JsonData.Elements;
    FewPlain(j, Title.Warning, WarningText, 0);
    if ValidClist(j, signer).Some? { FewCaps(j, j.Elements(ValidClist(j, signer).value)); }
  }

  /** A slot is rendered as the item it shows. */
  lemma {:induction false} SameRendering(j: Json, slot: Item, item: Item, c: Context)
    requires ItemArray.Shows(slot, item)
    ensures Rendered(j, slot, c) == Rendered(j, item, c)
  {
    hide JsonData.GetResult, JsonData.Elements, JsonData.Span, NameValue, GasTokens, ArgsText, Decimal;
    if Reads(slot.render) {
      SameName(j, slot, item);
      SameUnknown(j, slot, item);
    }
  }

  lemma {:induction false} SameName(j: Json, slot: Item, item: Item)
    requires slot.render == item.render && slot.token == item.token
    ensures NameValue(j, slot) == NameValue(j, item)
  {
    hide JsonData.GetResult, JsonData.Span, SplitNamespace;
  }

  lemma {:induction false} SameUnknown(j: Json, slot: Item, item: Item)
    requires slot.canDisplay == item.canDisplay && slot.token == item.token
    ensures UnknownValue(j, slot) == UnknownValue(j, item)
  {
    hide JsonData.GetResult, JsonData.Elements, ArgsText;
  }

  predicate CountsSigners(items: seq<Item>) { exists i | 0 <= i < |items| :: items[i].render == SignersText }

  /** The number of signers matters only to the item that shows it. */
  lemma {:induction false} SameContext(j: Json, item: Item, c: Context, d: Context)
    requires c.hash == d.hash && c.address == d.address && (item.render == SignersText ==> c.nsigners == d.nsigners)
    ensures Rendered(j, item, c) == Rendered(j, item, d)
  {
    hide JsonData.GetResult, JsonData.Elements, JsonData.Span, NameValue, GasTokens, UnknownValue, Decimal;
  }

  lemma {:induction false} ElementsBound(j: Json, end: nat, ti: nat, prevEnd: nat)
    ensures |j.ElementsFrom(end, ti, prevEnd)| <= if ti <= |j.tokens| then |j.tokens| - ti else 0
    decreases |j.tokens| - ti
  {
    if ti < |j.tokens| && j.tokens[ti].start <= end {
      ElementsBound(j, end, ti + 1, if j.tokens[ti].start <= prevEnd then prevEnd else j.tokens[ti].end);
    }
  }

  lemma {:induction false} DecimalLength(n: nat)
    requires n < 1000
    ensures |Decimal(n)| <= 3
  {
    if n >= 10 {
      assert Decimal(n / 10) == if n / 10 < 10 then Decimal(n / 10)
                                else Decimal(n / 10 / 10) + [('0' as int + n / 10 % 10) as char];
    }
  }

  /** The number of signer entries is below the token cap. */
  lemma {:induction false} SignersBound(j: Json, hex: Bytes)
    ensures FindDeviceSigner(j, hex).Ok? ==> FindDeviceSigner(j, hex).value.1 <= MAX_TOKENS
  {
    hide JsonData.GetResult, DeviceEntries, HasKey, EscapedNames, JsonData.ElementsFrom;
    if FindDeviceSigner(j, hex).Ok? {
      var signers := j.GetResult(0, "signers").value;
      ElementsBound(j, j.Tok(signers).end, signers + 1, j.Tok(signers).start);
    }
  }

  /** What validation relies on: the items stored are those of a review of `j`, with the device's key in hex. */
  ghost predicate Ready(j: Json, review: Review) {
    SaneSpans(j) && AllFew(j, review.items) && |review.context.hash| == 43 && review.context.nsigners <= MAX_TOKENS &&
    (review.context.address.Some? ==> |review.context.address.value| == 64)
  }

  lemma {:induction false} TxReady(j: Json, key: Option<Key32>, digest: Option<Key32>, expert: bool)
    requires SaneSpans(j) && TxReview(j, key, digest, expert).Ok?
    ensures Ready(j, TxReview(j, key, digest, expert).value)
  {
    hide JsonData.GetResult, FindDeviceSigner, TxItems, ExpertMeta, ExpertItems, Then, SaneSpans, AllFew, HashShown,
      T.HexLower;
    SignersBound(j, T.HexLower(key.value));
    var (signer, nsigners) := FindDeviceSigner(j, T.HexLower(key.value)).value;
    FewTx(j, signer, nsigners);
    assert [] + TxItems(j, signer, nsigners).items == TxItems(j, signer, nsigners).items;
    if expert {
      ExpertNoArgs(j);
      NoArgsFew(j, Then(ExpertMeta(j), ExpertItems()).items);
      FewCat(j, TxItems(j, signer, nsigners).items, Then(ExpertMeta(j), ExpertItems()).items);
    }
  }

  lemma {:induction false} FewCat(j: Json, a: seq<Item>, b: seq<Item>)
    requires AllFew(j, a) && AllFew(j, b)
    ensures AllFew(j, a + b)
  {
    hide FewArgs;
  }

  lemma {:induction false} HashReady(hash: Key32, key: Option<Key32>, expert: bool)
    ensures Ready(JsonData([], []), HashReview(hash, key, expert))
    ensures !CountsSigners(HashReview(hash, key, expert).items)
  {
    hide HashShown, T.HexLower;
  }

  // ---- The parsed transaction ------------------------------------------------------------------

  class Parsed {
    const tokens: array<JsmnSpec.Token>
    var ntok: nat
    /** How many bytes of the text were tokenized. */
    var jsonLen: nat
    const items: ItemArray
    /** The hash as it is shown. */
    var hash: Bytes
    /** Of what the items are. */
    var txType: TxType

    ghost predicate Valid()
      reads this, items, items.items
    {
      tokens.Length == MAX_TOKENS && ntok <= MAX_TOKENS && items.items.Length == MAX_ITEMS
    }

    constructor ()
      ensures Valid() && fresh(tokens) && fresh(items) && fresh(items.items)
    {
      tokens := new JsmnSpec.Token[MAX_TOKENS](_ => JsmnSpec.EMPTY_TOKEN);
      items := new ItemArray();
      ntok, jsonLen, hash, txType := 0, 0, [], TxJson;
    }

    /** The document the tokens are those of. */
    function Document(buf: Bytes): Json
      requires Valid()
      reads this, tokens, items, items.items
    {
      JsonData(if jsonLen <= |buf| then buf[..jsonLen] else buf, tokens[..ntok])
    }

    /** Tokenizes one JSON text, and checks that nothing follows it and that its keys are sound. */
    method ReadJson(buf: Bytes) returns (r: Outcome<ParserError>)
      requires Valid()
      modifies this, tokens
      ensures Valid()
      ensures match Integrity.ReadJson(buf)
              case Err(e) => r == Fail(e)
              case Ok(j) => r == Pass && Document(buf) == j && jsonLen == |buf|
    {
      hide JsmnSpec.Run, Refusal;
      ntok := 0;
      jsonLen := |buf|;
      if '\0' in buf {
        return Fail(UnexpectedCharacters);
      }
      var n := Jsmn.Tokenize(buf, tokens, true);
      if n.Err? {
        return Fail(Integrity.JsmnToParser(n.error));
      }
      if n.value == 0 {
        return Fail(JsonZeroTokens);
      }
      ntok := n.value;
      var root := tokens[0];
      var end := root.end + if root.kind == JsmnSpec.String then 1 else 0;
      if !Blank(buf[Integrity.Min(end, |buf|)..]) {
        return Fail(UnexpectedUnparsedBytes);
      }
      assert buf[..|buf|] == buf;
      var checked := CheckKeyIntegrity(Document(buf));
      r := match checked case Ok(_) => Pass case Err(e) => Fail(e);
    }

    /** The items shown and the hash are those of the review. */
    ghost predicate Holds(review: Review)
      reads this, items, items.items
    {
      items.Valid() && items.shown == review.items && hash == review.context.hash &&
      (CountsSigners(review.items) ==> items.nsigners == review.context.nsigners)
    }

    /** And the tokens are those of the text reviewed. */
    ghost predicate Keeps(kind: TxType, p: ParserSpec.Parsed)
      reads this, tokens, items, items.items
    {
      && Valid() && Holds(p.review) && txType == kind && Ready(ShownDocument(kind, p.text), p.review)
      && (kind != TxHash ==> jsonLen == |p.text| && Document(p.text) == DocumentOf(p.text))
    }

    ghost predicate Stored(r: Outcome<ParserError>, review: Result<Review, ParserError>)
      reads this, items, items.items
    {
      match review
      case Err(e) => r == Fail(e)
      case Ok(rv) => r == Pass && Holds(rv)
    }

    /** The items a section added, or its error. */
    ghost predicate Grown(r: Outcome<ItemsError>, all: Result<seq<Item>, ParserError>)
      reads items, items.items
    {
      match all
      case Err(e) => r.Fail? && ItemsToParser(r.error) == e
      case Ok(list) => r == Pass && items.Valid() && items.shown == list
    }

    lemma {:induction false} GrewExtends(r: Outcome<ItemsError>, before: seq<Item>, b: Build)
      requires items.Grew(r, before, b)
      ensures Grown(r, Extend(before, b))
    {
    }

    /** Stores the review items of a document and the hash shown, in the order in which they can be refused. */
    method StoreTx(kind: TxType, j: Json, key: Option<Key32>, digest: Option<Key32>, expert: bool)
      returns (r: Outcome<ParserError>)
      requires Valid()
      modifies this, items, items.items
      ensures Valid() && ntok == old(ntok) && jsonLen == old(jsonLen) && txType == kind
      ensures Stored(r, TxReview(j, key, digest, expert))
    {
      hide JsonData.GetResult, FindDeviceSigner, TxItems, ItemArray.Valid, T.HexLower, HashShown, Extend, ExpertMeta,
        ExpertItems, Then;
      txType := kind;
      items.Init();
      var verifiers := j.ObjectGetValue(0, "verifiers");
      if verifiers.Ok? {
        return Fail(UnexpectedValue);
      }
      if key.None? {
        return Fail(UnexpectedError);
      }
      var found := FindSigner(j, T.HexLower(key.value));
      if found.Err? {
        return Fail(found.error);
      }
      var (signer, nsigners) := found.value;
      var stored := items.StoreTxItems(j, signer, nsigners);
      GrewExtends(stored, [], TxItems(j, signer, nsigners));
      if stored.Fail? {
        return Fail(ItemsToParser(stored.error));
      }
      if digest.None? {
        return Fail(UnexpectedError);
      }
      hash := HashShown(digest.value);
      if expert {
        ghost var before := items.shown;
        stored := items.StoreExpert(j);
        GrewExtends(stored, before, Then(ExpertMeta(j), ExpertItems()));
        if stored.Fail? {
          return Fail(ItemsToParser(stored.error));
        }
      }
      r := Pass;
    }

    /** Stores the review items of a bare hash. */
    method StoreHash(digest: Key32, key: Option<Key32>, expert: bool) returns (r: Outcome<ParserError>)
      requires Valid()
      modifies this, items, items.items
      ensures Valid() && r == Pass && Holds(HashReview(digest, key, expert)) && txType == TxHash
    {
      hide ItemArray.Valid, HashShown, T.HexLower;
      txType := TxHash;
      items.Init();
      HashReady(digest, key, expert);
      var stored := items.StoreHashItems();
      hash := HashShown(digest);
      if expert {
        stored := items.StoreExpertItems();
      } else {
        assert [] + HashItems().items + [] == HashItems().items;
      }
      r := Pass;
    }

    /** Renders item `idx` of the review of `text`. */
    method RenderStored(text: Bytes, address: Option<Bytes>, idx: nat, value: array<char>,
        ghost p: ParserSpec.Parsed) returns (r: Result<nat, ItemsError>)
      requires Keeps(txType, p) && address == p.review.context.address && value.Length == VALUE_BUF
      requires txType != TxHash ==> p.text <= text
      modifies value
      ensures Keeps(txType, p)
      ensures var j, c := ShownDocument(txType, p.text), p.review.context;
              if idx < |p.review.items| then Rendering.Wrote(r, value[..], Rendered(j, p.review.items[idx], c))
              else r == Err(Failed)
    {
      hide Rendered, FewArgs, SaneSpans, Decimal, Integrity.ReadJson;
      if idx >= items.num {
        return Err(Failed);
      }
      var j := JsonData([], []);
      if txType != TxHash {
        j := Document(text);
        assert text[..jsonLen] == p.text == p.text[..jsonLen];
      }
      var slot := items.items[idx];
      var c := Context(hash, address, items.nsigners);
      ghost var item := p.review.items[idx];
      SameRendering(j, slot, item, c);
      SameContext(j, item, c, p.review.context);
      Renderable(j, slot, item);
      r := RenderItem(j, slot, c, value);
    }

    /** Every item must render. */
    method Validate(j: Json, address: Option<Bytes>, ghost review: Review) returns (r: Outcome<ParserError>)
      requires Valid() && Holds(review) && Ready(j, review) && address == review.context.address
      ensures r == if Shows(j, review) then Pass else Fail(UnexpectedError)
    {
      hide Rendered, FewArgs, SaneSpans, Decimal;
      var value := new char[VALUE_BUF];
      var c := Context(hash, address, items.nsigners);
      for i := 0 to items.num
        invariant forall k | 0 <= k < i :: Rendered(j, review.items[k], review.context).Ok?
      {
        var slot := items.items[i];
        ghost var item := review.items[i];
        SameRendering(j, slot, item, c);
        SameContext(j, item, c, review.context);
        Renderable(j, slot, item);
        var written := RenderItem(j, slot, c, value);
        if written.Err? {
          return Fail(UnexpectedError);
        }
      }
      r := Pass;
    }
  }

  lemma {:induction false} Renderable(j: Json, slot: Item, item: Item)
    requires ItemArray.Shows(slot, item) && FewArgs(j, item)
    ensures FewArgs(j, slot)
  {
  }

  /** Renders an item, whatever the number of signers. */
  method RenderItem(j: Json, slot: Item, c: Context, value: array<char>) returns (r: Result<nat, ItemsError>)
    requires SaneSpans(j) && FewArgs(j, slot) && value.Length == VALUE_BUF && |c.hash| == 43
    requires c.address.Some? ==> |c.address.value| == 64
    requires slot.render == SignersText ==> c.nsigners <= MAX_TOKENS
    modifies value
    ensures Rendering.Wrote(r, value[..], Rendered(j, slot, c))
  {
    hide JsonData.GetResult, JsonData.Elements, RenderSpec.Value, Decimal;
    var bounded := if slot.render == SignersText then c else c.(nsigners := 0);
    SameContext(j, slot, c, bounded);
    DecimalLength(bounded.nsigners);
    r := Rendering.Render(j, slot, bounded, value);
  }
}
