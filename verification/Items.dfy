/**
 The builder of the review: a fixed array of slots, of which the first `num` are shown. A slot keeps the token
 that an earlier lookup left in it.
 */
module Items {
  import opened Base
  import opened Errors
  import opened JsmnSpec
  import opened Json
  import opened ItemSpec
  import opened ItemLookups
  import P = Principal

  const EMPTY_SLOT := Item(Title.Signing, NoRender, 0, true)

  class ItemArray {
    const items: array<Item>
    var num: nat
    /** The signer entry the device signs for, its `pubKey` token, and the number of entries. */
    var signer: nat
    var keyTok: nat
    var nsigners: nat
    /** The list the shown slots stand for. */
    ghost var shown: seq<Item>

    /** A slot shows an item: the token matters only to a renderer that reads it. */
    static predicate Shows(slot: Item, item: Item) {
      slot.title == item.title && slot.render == item.render && slot.canDisplay == item.canDisplay &&
      (Reads(item.render) ==> slot.token == item.token)
    }

    ghost predicate Valid()
      reads this, items
    {
      items.Length == MAX_ITEMS && num == |shown| < MAX_ITEMS &&
      (forall i | 0 <= i < num :: Shows(items[i], shown[i])) &&
      (forall i | num <= i < MAX_ITEMS :: items[i].canDisplay)
    }

    /** The list grew from `before` by what `add` shows, or `add` is refused. */
    ghost predicate Grew(r: Outcome<ItemsError>, before: seq<Item>, add: Build)
      reads this, items
    {
      if |before| + |add.items| >= MAX_ITEMS then r == Fail(TooManyItems)
      else match add.failure
           case Some(e) => r == Fail(e)
           case None => r == Pass && Valid() && shown == before + add.items
    }

    constructor ()
      ensures Valid() && fresh(items) && shown == []
    {
      items := new Item[MAX_ITEMS](_ => EMPTY_SLOT);
      num, signer, keyTok, nsigners := 0, 0, 0, 0;
      shown := [];
    }

    /** Forgets every slot. */
    method Init()
      requires items.Length == MAX_ITEMS
      modifies this, items
      ensures Valid() && shown == [] && forall i | 0 <= i < MAX_ITEMS :: items[i].token == 0
    {
      forall i | 0 <= i < items.Length { items[i] := EMPTY_SLOT; }
      num, shown := 0, [];
    }

    /** Leaves a token in the next slot. */
    method SetToken(token: nat)
      requires Valid()
      modifies items
      ensures Valid() && items[num].token == token
      ensures forall i | 0 <= i < MAX_ITEMS && i != num :: items[i] == old(items[i])
    {
      items[num] := items[num].(token := token);
    }

    /** Shows the next slot, with the token it has. */
    method Push(title: Title, render: Render) returns (r: Outcome<ItemsError>)
      requires Valid()
      modifies `num, `shown, items
      ensures Grew(r, old(shown), Show(title, render, if Reads(render) then old(items[num].token) else 0))
      ensures forall i | 0 <= i < MAX_ITEMS && i != old(num) :: items[i] == old(items[i])
    {
      shown := shown + [Item(title, render, if Reads(render) then items[num].token else 0, true)];
      items[num] := items[num].(title := title, render := render);
      num := num + 1;
      r := if num >= MAX_ITEMS then Fail(TooManyItems) else Pass;
    }

    /** Leaves a token in the next slot and shows it. */
    method PushToken(title: Title, render: Render, token: nat) returns (r: Outcome<ItemsError>)
      requires Valid() && Reads(render)
      modifies `num, `shown, items
      ensures Grew(r, old(shown), Show(title, render, token))
    {
      SetToken(token);
      r := Push(title, render);
    }

    method StoreNetwork(j: Json) returns (r: Outcome<ItemsError>)
      requires Valid() && items[num].token == 0
      modifies `num, `shown, items
      ensures Grew(r, old(shown), NetworkItems(j))
    {
      hide JsonData.GetResult, JsonData.IsNull, ShownUnescaped;
      var obj := items[num].token;
      var network := j.ObjectGetValue(obj, "networkId");
      if network.Err? {
        return Fail(Failed);
      }
      SetToken(network.value);
      if !j.IsNull(items[num].token) {
        if !ShownUnescaped(j, items[num].token) {
          return Fail(BadCharacters);
        }
        :- Push(OnNetwork, Std);
      }
      r := Pass;
    }

    /** The device's own entry. */
    method StoreKey() returns (r: Outcome<ItemsError>)
      requires Valid()
      modifies `num, `shown, items
      ensures Grew(r, old(shown), Show(OfKey, Std, keyTok))
    {
      SetToken(keyTok);
      r := Push(OfKey, Std);
    }

    /** The scope of the signature, before its capabilities. */
    method ValidateSigners(j: Json) returns (r: Outcome<ItemsError>)
      requires Valid()
      modifies `num, `shown, items
      ensures Grew(r, old(shown), ScopeItems(j, signer, keyTok))
    {
      hide JsonData.Elements, ValidClist, KindOfCap, KeyInClist;
      var found := GetValidClist(j, signer);
      if found.None? {
        r := PushToken(UnscopedSigner, Std, keyTok);
        return;
      }
      var (clist, count) := found.value;
      ghost var first := j.Elements(clist)[..U8(count)];
      for i := 0 to U8(count)
        invariant Valid() && shown == old(shown)
        invariant (exists k | 0 <= k < i :: KindOfCap(j, first[k]) == TransferCap) ==> KeyInClist(j, signer, keyTok)
      {
        var cap := j.ArrayGetNthElement(clist, i);
        if cap.Ok? {
          var kind := CapKindOf(j, cap.value);
          if kind == TransferCap {
            assert first[i] in first;
            var named := FindPubkeyInClist(j, signer, keyTok);
            if !named {
              r := PushToken(KeyNotInTransfer, Std, keyTok);
              return;
            }
          }
        }
      }
      SetToken(0);
      r := Pass;
    }

    /** Shows the first arguments, one item each. */
    method StoreArgs(j: Json, args: nat, titles: seq<(Title, Render)>) returns (r: Outcome<ItemsError>)
      requires Valid() && args < |j.tokens| && |titles| <= |j.Elements(args)| && forall t | t in titles :: Reads(t.1)
      modifies `num, `shown, items
      ensures Grew(r, old(shown), Build(ArgItems(titles, j.Elements(args)), None))
    {
      hide JsonData.Elements;
      ghost var list := j.Elements(args);
      ghost var before := shown;
      for pos := 0 to |titles|
        invariant Valid() && shown == before + ArgItems(titles[..pos], list)
      {
        var (title, render) := titles[pos];
        ArgItemsNext(titles, list, pos);
        assert titles[pos] in titles;
        var t := j.ArrayGetNthElement(args, pos);
        var pushed := PushToken(title, render, t.value);
        if pushed.Fail? {
          return pushed;
        }
      }
      assert titles[..|titles|] == titles;
      r := Pass;
    }

    /** Puts another token in a slot already shown. */
    method Patch(i: nat, token: nat)
      requires Valid() && i < num
      modifies `shown, items
      ensures Valid() && shown == old(shown)[i := old(shown)[i].(token := token)]
    {
      items[i] := items[i].(token := token);
      shown := shown[i := shown[i].(token := token)];
    }

    /** A warning after a transfer whose receiver is not a principal. */
    method CheckReceiver(j: Json, args: nat) returns (r: Outcome<ItemsError>)
      requires Valid() && args < |j.tokens| && |j.Elements(args)| > 1
      modifies `num, `shown, items
      ensures Grew(r, old(shown), ReceiverItems(j, j.Elements(args)[1]))
    {
      hide JsonData.Elements, P.IsPrincipal, JsonData.Span;
      var to := j.ArrayGetNthElement(args, 1);
      if !P.IsPrincipal(j.Span(to.value)) {
        :- Push(Title.Warning, NotPrincipal);
      }
      r := Pass;
    }

    /** A transfer with as many arguments as it must have. */
    method StoreTransfer(j: Json, args: nat, cross: bool) returns (r: Outcome<ItemsError>)
      requires Valid() && args < |j.tokens| && |j.Elements(args)| == if cross then 4 else 3
      modifies `num, `shown, items
      ensures Grew(r, old(shown), TransferItems(j, j.Elements(args), cross))
    {
      hide JsonData.Elements, CheckAmount, ReceiverItems, ShownUnescaped, Valid;
      ghost var list := j.Elements(args);
      NumIsLength();
      var number := CheckAmountOf(j, args);
      if number.Err? {
        return Fail(number.error);
      }
      var from := j.ArrayGetNthElement(args, 0);
      var to := j.ArrayGetNthElement(args, 1);
      if !ShownUnescaped(j, from.value) || !ShownUnescaped(j, to.value) {
        return Fail(BadCharacters);
      }
      if cross {
        var chain := j.ArrayGetNthElement(args, 3);
        if !ShownUnescaped(j, chain.value) {
          return Fail(BadCharacters);
        }
      }
      TransferParts(j, list, cross, number.value);
      :- StoreShown(j, args, cross, number.value);
      r := CheckReceiver(j, args);
    }

    /** The items of a transfer whose arguments are in order. */
    method StoreShown(j: Json, args: nat, cross: bool, number: nat) returns (r: Outcome<ItemsError>)
      requires Valid() && args < |j.tokens| && |j.Elements(args)| == if cross then 4 else 3
      modifies `num, `shown, items
      ensures Grew(r, old(shown), Build(TransferShown(j.Elements(args), cross, number), None))
    {
      hide JsonData.Elements, Valid;
      NumIsLength();
      :- Push(Title.Transfer, if cross then CrossTransferText else TransferText);
      var titles := [(From, Std), (To, Std), (Amount, AmountText)] + (if cross then [(ToChain, Std)] else []);
      :- StoreArgs(j, args, titles);
      NumIsLength();
      Patch(num - (if cross then 2 else 1), number);
      assert shown == old(shown) + TransferShown(j.Elements(args), cross, number);
      r := Pass;
    }

    lemma {:induction false} NumIsLength()
      requires Valid()
      ensures num == |shown| < MAX_ITEMS
    {
    }

    /** A capability the review cannot verify, in separate items. */
    method StoreUnverified(j: Json, cap: nat, nargs: nat, args: nat, warn: bool) returns (r: Outcome<ItemsError>)
      requires Valid() && nargs == |j.Elements(args)|
      modifies `num, `shown, items
      ensures Grew(r, old(shown), UnverifiedItems(j, cap, args, warn))
    {
      hide JsonData.Elements, JsonData.GetResult, JsonData.Span, Valid, SplitNamespace, Displayable, UnverifiedItems;
      UnverifiedParts(j, cap, args, warn);
      if warn {
        SetToken(cap);
        :- Push(Title.Warning, CapNotVerified);
      }
      :- PushToken(Capability, CapName, cap);
      var name := j.ObjectGetValue(cap, "name");
      if name.Ok? && SplitNamespace(j.Span(name.value)).0.Some? {
        :- PushToken(Title.Namespace, CapNamespace, cap);
      }
      SetToken(cap);
      r := StoreUnknown(j, nargs, args);
    }

    /** The items of such a capability, one after the other. */
    lemma {:induction false} UnverifiedParts(j: Json, cap: nat, args: nat, warn: bool)
      ensures UnverifiedItems(j, cap, args, warn) ==
              Then(if warn then Say(Title.Warning, CapNotVerified) else NOTHING,
              Then(Show(Capability, CapName, cap),
              Then(if HasNamespace(j, cap) then Show(Title.Namespace, CapNamespace, cap) else NOTHING,
                   Build([Item(Arguments, UnknownText, cap, Displayable(j, args))], None))))
    {
      hide HasNamespace, Displayable;
    }

    /** The arguments of such a capability, if they can be shown. */
    method StoreUnknown(j: Json, nargs: nat, args: nat) returns (r: Outcome<ItemsError>)
      requires Valid() && nargs == |j.Elements(args)|
      modifies `num, `shown, items
      ensures var item := Item(Arguments, UnknownText, old(items[num].token), Displayable(j, args));
              Grew(r, old(shown), Build([item], None))
    {
      hide JsonData.Elements;
      var canDisplay := items[num].canDisplay;
      var t := j.Tok(args);
      if nargs > 5 || t.end - t.start > 256 {
        canDisplay := false;
      }
      shown := shown + [Item(Arguments, UnknownText, items[num].token, canDisplay)];
      items[num] := items[num].(title := Arguments, render := UnknownText, canDisplay := canDisplay);
      num := num + 1;
      r := if num >= MAX_ITEMS then Fail(TooManyItems) else Pass;
    }

    method StoreRotate(j: Json, cap: nat, args: nat, nargs: nat) returns (r: Outcome<ItemsError>)
      requires Valid() && nargs == |j.Elements(args)| && items[num].token == cap
      modifies `num, `shown, items
      ensures Grew(r, old(shown), Then(
                if nargs == 1 then Show(Title.Rotate, RotateText, cap) else UnverifiedItems(j, cap, args, false),
                Say(Title.Warning, RotateWarning)))
    {
      hide JsonData.Elements, UnverifiedItems, Valid;
      ghost var before := shown;
      if nargs == 1 {
        :- Push(Title.Rotate, RotateText);
      } else {
        :- StoreUnverified(j, cap, nargs, args, false);
      }
      r := Push(Title.Warning, RotateWarning);
    }

    /** The items of one capability; a gas capability has none. */
    method StoreCapability(j: Json, cap: nat) returns (r: Outcome<ItemsError>)
      requires Valid()
      modifies `num, `shown, items
      ensures Grew(r, old(shown), CapItems(j, cap))
    {
      hide JsonData.Elements, JsonData.GetResult, KindOfCap, TransferItems, UnverifiedItems, Valid;
      NumIsLength();
      if j.Tok(cap).kind != Object {
        return Fail(BadCharacters);
      }
      var kind := CapKindOf(j, cap);
      if kind == GasCap {
        r := NothingMore();
        return;
      }
      SetToken(cap);
      var args := j.ObjectGetValue(cap, "args");
      if args.Err? {
        return Fail(Failed);
      }
      GetInRange(j, cap, "args");
      var nargs := j.ArrayGetElementCount(args.value);
      if kind == TransferCap && nargs.value == 3 {
        r := StoreTransfer(j, args.value, false);
      } else if kind == XchainCap && nargs.value == 4 {
        r := StoreTransfer(j, args.value, true);
      } else if kind == RotateCap {
        r := StoreRotate(j, cap, args.value, nargs.value);
      } else {
        r := StoreUnverified(j, cap, nargs.value, args.value, true);
      }
    }

    method NothingMore() returns (r: Outcome<ItemsError>)
      requires Valid()
      ensures Grew(r, shown, NOTHING)
    {
      assert shown + [] == shown;
      r := Pass;
    }

    /** The items of the capabilities, in the order of the clist. */
    method StoreAllTransfers(j: Json) returns (r: Outcome<ItemsError>)
      requires Valid()
      modifies `num, `shown, items
      ensures Grew(r, old(shown), TransfersItems(j, signer))
    {
      hide JsonData.Elements, ValidClist, CapItems, CapsItems, Valid;
      var found := GetValidClist(j, signer);
      if found.None? {
        r := Push(Title.Warning, WarningText);
        return;
      }
      var (clist, count) := found.value;
      r := StoreCaps(j, clist, count);
    }

    method StoreCaps(j: Json, clist: nat, count: nat) returns (r: Outcome<ItemsError>)
      requires Valid() && clist < |j.tokens| && count == |j.Elements(clist)|
      modifies `num, `shown, items
      ensures Grew(r, old(shown), CapsItems(j, j.Elements(clist)))
    {
      hide JsonData.Elements, CapItems, CapsItems, Valid, Then;
      ghost var before, list, done := shown, j.Elements(clist), [];
      assert list[0..] == list && before + [] == before;
      ThenNothing(CapsItems(j, list));
      for i := 0 to count
        invariant Valid() && shown == before + done
        invariant CapsItems(j, list) == Then(Build(done, None), CapsItems(j, list[i..]))
      {
        assert list[i..][1..] == list[i + 1..];
        CapsStep(j, done, list[i..]);
        var cap := j.ArrayGetNthElement(clist, i);
        r := StoreCapability(j, cap.value);
        GrewFrom(r, before, done, CapItems(j, list[i]), CapsItems(j, list[i + 1..]));
        if r.Fail? {
          return;
        }
        done := done + CapItems(j, list[i]).items;
      }
      assert list[count..] == [];
      NoCapsLeft(j, done);
      NumIsLength();
      r := Pass;
    }

    /** One more step of a list, after `done`. */
    lemma {:induction false} GrewFrom(r: Outcome<ItemsError>, before: seq<Item>, done: seq<Item>, step: Build,
        rest: Build)
      requires Grew(r, before + done, step)
      ensures r.Fail? ==> Grew(r, before, Then(Build(done, None), Then(step, rest)))
      ensures r.Pass? ==> Valid() && shown == before + (done + step.items) && step.failure == None
    {
      hide Valid;
      if r.Pass? { assert before + done + step.items == before + (done + step.items); }
    }

    /** "On Chain". */
    method StoreChainId(j: Json) returns (r: Outcome<ItemsError>)
      requires Valid()
      modifies `num, `shown, items
      ensures Grew(r, old(shown), ChainItems(j))
    {
      hide JsonData.GetResult, JsonData.IsNull, ShownUnescaped;
      var meta := j.ObjectGetValue(0, "meta");
      if meta.Err? {
        return Fail(Failed);
      }
      SetToken(meta.value);
      if !j.IsNull(items[num].token) {
        var chain := j.ObjectGetValue(items[num].token, "chainId");
        if chain.Err? {
          return Fail(Failed);
        }
        SetToken(chain.value);
        if !j.IsNull(items[num].token) {
          if !ShownUnescaped(j, items[num].token) {
            return Fail(BadCharacters);
          }
          :- Push(OnChain, Std);
        }
      }
      r := Pass;
    }

    method StoreUsingGas(j: Json) returns (r: Outcome<ItemsError>)
      requires Valid()
      modifies `num, `shown, items
      ensures Grew(r, old(shown), GasItems(j))
    {
      hide JsonData.GetResult, JsonData.IsNull;
      var meta := j.ObjectGetValue(0, "meta");
      if meta.Err? {
        return Fail(Failed);
      }
      SetToken(meta.value);
      if !j.IsNull(items[num].token) {
        :- Push(UsingGas, GasText);
      } else {
        SetToken(0);
      }
      r := Pass;
    }

    /** "Max fee" and "Paying account". */
    method StoreFeeAndPayer(j: Json) returns (r: Outcome<ItemsError>)
      requires Valid()
      modifies `num, `shown, items
      ensures Grew(r, old(shown), FeeItems(j))
    {
      hide JsonData.GetResult, JsonData.IsNull, ShownUnescaped;
      var meta := j.ObjectGetValue(0, "meta");
      if meta.Err? {
        return Fail(Failed);
      }
      if j.IsNull(meta.value) {
        return Pass;
      }
      :- PushToken(Title.MaxFee, MaxFeeText, meta.value);
      var sender := j.ObjectGetValue(meta.value, "sender");
      if sender.Ok? {
        if !ShownUnescaped(j, sender.value) {
          return Fail(BadCharacters);
        }
        :- PushToken(PayingAccount, Std, sender.value);
      }
      r := Pass;
    }

    method StoreRecognisedMeta(j: Json) returns (r: Outcome<ItemsError>)
      requires Valid()
      modifies `num, `shown, items
      ensures Grew(r, old(shown), RecognisedMetaItems(j))
    {
      hide JsonData.GetResult, IntegerIfGiven, ChainItems, GasItems, FeeItems, Valid;
      NumIsLength();
      var meta := j.ObjectGetValue(0, "meta");
      if meta.Err? {
        return Fail(Failed);
      }
      var integers := CheckIntegers(j, meta.value);
      if !integers {
        return Fail(BadCharacters);
      }
      :- StoreChainId(j);
      :- StoreUsingGas(j);
      r := StoreFeeAndPayer(j);
    }

    /** What `meta` adds: a caution when it is not recognised. */
    method StoreMeta(j: Json) returns (r: Outcome<ItemsError>)
      requires Valid()
      modifies `num, `shown, items
      ensures Grew(r, old(shown), MetaItems(j))
    {
      hide JsonData.GetResult, JsonData.IsNull, ValidateMeta, RecognisedMetaItems, Valid;
      NumIsLength();
      var meta := j.ObjectGetValue(0, "meta");
      if meta.Ok? && !(j.IsNull(meta.value) && j.Tok(meta.value).kind == Primitive) {
        var sender := j.ObjectGetValue(meta.value, "sender");
        if j.Tok(meta.value).kind != Object || sender.Err? {
          return Fail(BadMeta);
        }
      }
      var checked := ValidateMetaField(j);
      if checked.Err? {
        r := Push(Title.Caution, CautionText);
      } else {
        r := StoreRecognisedMeta(j);
      }
    }

    /** A warning when an item cannot be shown. */
    method CheckTxLengths(ghost b: Build) returns (r: Outcome<ItemsError>)
      requires Valid() && b.failure == None && shown == b.items
      modifies `num, `shown, items
      ensures Grew(r, [], WithLengths(b))
    {
      var fits := AllDisplayable();
      LengthsOf(b);
      if !fits {
        r := Push(Title.Warning, TxTooLarge);
      } else {
        r := Pass;
      }
    }

    method AllDisplayable() returns (fits: bool)
      requires Valid()
      ensures fits == forall i | i in shown :: i.canDisplay
    {
      for i := 0 to num
        invariant forall k | 0 <= k < i :: shown[k].canDisplay
      {
        if !items[i].canDisplay {
          assert shown[i] in shown;
          return false;
        }
      }
      fits := true;
    }

    method StoreStart(j: Json) returns (r: Outcome<ItemsError>)
      requires Valid() && num == 0 && items[1].token == 0
      modifies `num, `shown, items
      ensures Grew(r, old(shown), StartItems(j))
    {
      hide NetworkItems, Valid;
      NumIsLength();
      :- Push(Title.Signing, SigningText);
      NumIsLength();
      r := StoreNetwork(j);
    }

    method StoreSigner() returns (r: Outcome<ItemsError>)
      requires Valid()
      modifies `num, `shown, items
      ensures Grew(r, old(shown), KeyItems(keyTok, nsigners))
    {
      hide Valid;
      if nsigners > 1 {
        :- Push(Signers, SignersText);
      }
      :- Push(Title.Requiring, RequiringText);
      r := StoreKey();
    }

    method StoreOpening(j: Json) returns (r: Outcome<ItemsError>)
      requires Valid() && num == 0 && items[1].token == 0
      modifies `num, `shown, items
      ensures Grew(r, old(shown), OpeningItems(j, keyTok, nsigners))
    {
      hide StartItems, KeyItems, Valid;
      :- StoreStart(j);
      r := StoreSigner();
    }

    method TakeSigner(entry: nat, count: nat, key: nat)
      requires Valid()
      modifies `signer, `nsigners, `keyTok
      ensures Valid() && signer == entry && nsigners == count && keyTok == key
    {
      signer, nsigners, keyTok := entry, count, key;
    }

    /** The items of a transaction, for the device's entry `entry` of `count`. */
    method StoreTxItems(j: Json, entry: nat, count: nat) returns (r: Outcome<ItemsError>)
      requires Valid() && shown == [] && forall i | 0 <= i < MAX_ITEMS :: items[i].token == 0
      modifies this, items
      ensures Grew(r, [], TxItems(j, entry, count)) && (r.Pass? ==> nsigners == count)
    {
      hide Valid, OpeningItems, ScopeItems, TransfersItems, MetaItems, JsonData.GetResult, WithLengths;
      NumIsLength();
      var key := j.ObjectGetValue(entry, "pubKey");
      if key.Err? {
        return Fail(Failed);
      }
      TakeSigner(entry, count, key.value);
      ghost var b := Then(OpeningItems(j, keyTok, count),
                          Then(ScopeItems(j, entry, keyTok), Then(TransfersItems(j, entry), MetaItems(j))));
      r := StoreSections(j, b);
      FailedLengths(r, b);
      if r.Fail? {
        return;
      }
      r := CheckTxLengths(b);
    }

    lemma {:induction false} FailedLengths(r: Outcome<ItemsError>, b: Build)
      requires Grew(r, [], b)
      ensures r.Fail? ==> Grew(r, [], WithLengths(b))
      ensures r.Pass? ==> b.failure == None && Valid() && shown == b.items
    {
      hide Valid;
      assert [] + b.items == b.items;
    }

    method StoreSections(j: Json, ghost b: Build) returns (r: Outcome<ItemsError>)
      requires Valid() && shown == [] && items[1].token == 0
      requires b == Then(OpeningItems(j, keyTok, nsigners),
                         Then(ScopeItems(j, signer, keyTok), Then(TransfersItems(j, signer), MetaItems(j))))
      modifies `num, `shown, items
      ensures Grew(r, [], b)
    {
      hide Valid, OpeningItems, ScopeItems, TransfersItems, MetaItems;
      NumIsLength();
      :- StoreOpening(j);
      :- ValidateSigners(j);
      :- StoreAllTransfers(j);
      r := StoreMeta(j);
    }

    method StoreHashItems() returns (r: Outcome<ItemsError>)
      requires Valid()
      modifies `num, `shown, items
      ensures Grew(r, old(shown), HashItems())
    {
      hide Valid;
      :- Push(Title.Warning, HashWarningText);
      r := Push(TransactionHash, HashText);
    }

    method StoreExpertItems() returns (r: Outcome<ItemsError>)
      requires Valid()
      modifies `num, `shown, items
      ensures Grew(r, old(shown), ExpertItems())
    {
      hide Valid;
      :- Push(TransactionHash, HashText);
      r := Push(SignForAddress, SignForAddrText);
    }

    /** Expert mode: the payload kind, then the validity window. */
    method StoreExpertMeta(j: Json) returns (r: Outcome<ItemsError>)
      requires Valid()
      modifies `num, `shown, items
      ensures Grew(r, old(shown), ExpertMeta(j))
    {
      hide JsonData.GetResult, ValidateMeta, PayloadItems, TimeItems, Valid;
      :- StorePayload(j);
      var checked := ValidateMetaField(j);
      if checked.Err? {
        r := NothingMore();
      } else {
        r := StoreTimes(j);
      }
    }

    /** What expert mode adds to the review of a transaction. */
    method StoreExpert(j: Json) returns (r: Outcome<ItemsError>)
      requires Valid()
      modifies `num, `shown, items
      ensures Grew(r, old(shown), Then(ExpertMeta(j), ExpertItems()))
    {
      hide ExpertMeta, ExpertItems, Valid;
      :- StoreExpertMeta(j);
      r := StoreExpertItems();
    }

    method StorePayload(j: Json) returns (r: Outcome<ItemsError>)
      requires Valid()
      modifies `num, `shown, items
      ensures Grew(r, old(shown), PayloadItems(j))
    {
      hide JsonData.GetResult, ContItems, Valid;
      var payload := j.ObjectGetValue(0, "payload");
      if payload.Ok? {
        var exec := j.ObjectGetValue(payload.value, "exec");
        if exec.Ok? {
          r := Push(Payload, ExecText);
          return;
        }
        var cont := j.ObjectGetValue(payload.value, "cont");
        if cont.Ok? {
          r := StoreCont(j, cont.value);
          return;
        }
      }
      r := NothingMore();
    }

    method StoreCont(j: Json, cont: nat) returns (r: Outcome<ItemsError>)
      requires Valid()
      modifies `num, `shown, items
      ensures Grew(r, old(shown), ContItems(j, cont))
    {
      hide JsonData.GetResult, ShownUnescaped, PlainInteger, Valid;
      :- Push(Payload, ContText);
      NumIsLength();
      var id := j.ObjectGetValue(cont, "pactId");
      if id.Ok? {
        if !ShownUnescaped(j, id.value) {
          return Fail(BadCharacters);
        }
        :- PushToken(PactId, Std, id.value);
      }
      NumIsLength();
      var step := j.ObjectGetValue(cont, "step");
      if step.Ok? {
        if !PlainInteger(j, step.value) {
          return Fail(BadCharacters);
        }
        :- PushToken(Title.Step, Std, step.value);
      }
      r := Pass;
    }

    method StoreTimes(j: Json) returns (r: Outcome<ItemsError>)
      requires Valid()
      modifies `num, `shown, items
      ensures Grew(r, old(shown), TimeItems(j))
    {
      hide JsonData.GetResult, Valid;
      NumIsLength();
      var meta := j.ObjectGetValue(0, "meta");
      if meta.Err? {
        return Fail(Failed);
      }
      var created := j.ObjectGetValue(meta.value, "creationTime");
      if created.Ok? {
        :- PushToken(Created, Std, created.value);
      }
      NumIsLength();
      var ttl := j.ObjectGetValue(meta.value, "ttl");
      if ttl.Ok? {
        :- PushToken(Ttl, Std, ttl.value);
      }
      r := Pass;
    }

    /** Whether the shown slots call for blind signing. */
    method CheckBlind() returns (blind: bool)
      requires Valid()
      ensures blind == NeedsBlind(shown)
    {
      for i := 0 to num
        invariant forall k | 0 <= k < i ::
                    shown[k].render !in {WarningText, TxTooLarge, CautionText, RotateWarning, CapNotVerified}
      {
        if items[i].render in {WarningText, TxTooLarge, CautionText, RotateWarning, CapNotVerified} {
          assert shown[i] in shown;
          return true;
        }
      }
      blind := false;
    }
  }

  method CheckIntegers(j: Json, meta: nat) returns (ok: bool)
    ensures ok == (IntegerIfGiven(j, meta, "creationTime") && IntegerIfGiven(j, meta, "ttl") &&
            IntegerIfGiven(j, meta, "gasLimit"))
  {
    hide JsonData.GetResult, PlainInteger;
    var fields := ["creationTime", "ttl", "gasLimit"];
    for i := 0 to 3
      invariant forall k | 0 <= k < i :: IntegerIfGiven(j, meta, fields[k])
    {
      var v := j.ObjectGetValue(meta, fields[i]);
      if v.Ok? && !PlainInteger(j, v.value) {
        assert !IntegerIfGiven(j, meta, fields[i]);
        return false;
      }
    }
    assert IntegerIfGiven(j, meta, fields[0]) && IntegerIfGiven(j, meta, fields[1]) &&
           IntegerIfGiven(j, meta, fields[2]);
    ok := true;
  }

  lemma {:induction false} LengthsOf(b: Build)
    requires b.failure == None
    ensures [] + WithLengths(b).items == WithLengths(b).items && WithLengths(b).failure == None
    ensures WithLengths(b).items ==
            b.items + (if forall i | i in b.items :: i.canDisplay then [] else Say(Title.Warning, TxTooLarge).items)
  {
    assert b.items + [] == b.items;
  }

  lemma {:induction false} ThenNothing(b: Build)
    ensures Then(Build([], None), b) == b
  {
    assert [] + b.items == b.items;
  }

  lemma {:induction false} CapsStep(j: Json, done: seq<Item>, caps: seq<nat>)
    requires caps != []
    ensures Then(Build(done, None), CapsItems(j, caps)) ==
            Then(Build(done, None), Then(CapItems(j, caps[0]), CapsItems(j, caps[1..])))
    ensures CapItems(j, caps[0]).failure == None ==>
              Then(Build(done, None), CapsItems(j, caps)) ==
              Then(Build(done + CapItems(j, caps[0]).items, None), CapsItems(j, caps[1..]))
  {
    hide CapItems;
  }

  lemma {:induction false} NoCapsLeft(j: Json, done: seq<Item>)
    ensures Then(Build(done, None), CapsItems(j, [])) == Build(done, None)
  {
    assert done + [] == done;
  }

  function ArgItems(titles: seq<(Title, Render)>, list: seq<nat>): seq<Item>
    requires |titles| <= |list|
  {
    seq(|titles|, i requires 0 <= i < |titles| => Item(titles[i].0, titles[i].1, list[i], true))
  }

  lemma {:induction false} ArgItemsNext(titles: seq<(Title, Render)>, list: seq<nat>, pos: nat)
    requires pos < |titles| <= |list|
    ensures ArgItems(titles[..pos + 1], list) == ArgItems(titles[..pos], list) +
            [Item(titles[pos].0, titles[pos].1, list[pos], true)]
  {
  }

  /** The items of a transfer, up to the check of its receiver. */
  function TransferShown(args: seq<nat>, cross: bool, number: nat): seq<Item>
    requires |args| == if cross then 4 else 3
  {
    [Item(Title.Transfer, if cross then CrossTransferText else TransferText, 0, true),
     Item(From, Std, args[0], true), Item(To, Std, args[1], true), Item(Amount, AmountText, number, true)] +
    (if cross then [Item(ToChain, Std, args[3], true)] else [])
  }

  lemma {:induction false} TransferParts(j: Json, args: seq<nat>, cross: bool, number: nat)
    requires |args| == (if cross then 4 else 3) && CheckAmount(j, args) == Ok(number)
    requires ShownUnescaped(j, args[0]) && ShownUnescaped(j, args[1]) && (cross ==> ShownUnescaped(j, args[3]))
    ensures TransferItems(j, args, cross) ==
            Then(Build(TransferShown(args, cross, number), None), ReceiverItems(j, args[1]))
  {
    hide CheckAmount, ShownUnescaped, ReceiverItems;
  }
}
