/** The items of an accepted transaction are the lines of its syntax tree. */
module ReviewProof {
  import opened Base
  import opened Errors
  import opened Syntax
  import opened JsmnSpec
  import opened Json
  import opened Lookups
  import opened Nodes
  import opened ItemSpec
  import opened Review
  import Principal
  import Integrity

  // ---- One capability --------------------------------------------------------------------------

  lemma {:induction false} NameIs(j: Json, at: nat, cap: Value)
    requires Node(j, at, cap) && cap.Obj?
    ensures j.GetResult(at, "name").Ok? ==>
              Get(cap, "name").Some? && Tells(j, j.GetResult(at, "name").value, Get(cap, "name").value)
    ensures j.GetResult(at, "name").Ok? ==> j.Span(j.GetResult(at, "name").value) == NameOf(cap)
    ensures j.GetResult(at, "name").Err? ==> NameOf(cap) == []
  {
    hide Node, JsonData.GetResult, Child;
    NodeGet(j, at, cap, "name");
    if Get(cap, "name").Some? { NodeTells(j, j.GetResult(at, "name").value, Get(cap, "name").value); }
  }

  lemma {:induction false} CapKindIs(j: Json, at: nat, cap: Value)
    requires Node(j, at, cap)
    ensures cap.Obj? <==> j.Tok(at).kind == Object
    ensures cap.Obj? ==>
              && (KindOfCap(j, at) == GasCap <==> NameOf(cap) == "coin.GAS")
              && (KindOfCap(j, at) == TransferCap <==> NameOf(cap) == "coin.TRANSFER")
              && (KindOfCap(j, at) == XchainCap <==> NameOf(cap) == "coin.TRANSFER_XCHAIN")
              && (KindOfCap(j, at) == RotateCap <==> NameOf(cap) == "coin.ROTATE")
  {
    hide Node, JsonData.GetResult, Child, NameOf, Print;
    NodeTells(j, at, cap);
    if cap.Obj? { NameIs(j, at, cap); }
  }

  lemma {:induction false} NamespaceIs(j: Json, at: nat, cap: Value)
    requires Node(j, at, cap) && cap.Obj?
    ensures HasNamespace(j, at) <==> SplitNamespace(NameOf(cap)).0.Some?
  {
    hide Node, JsonData.GetResult, NameOf, Tells;
    NameIs(j, at, cap);
    assert IndexOf([], '.') == 0;
  }

  /** The arguments of a capability, by token and by value. */
  ghost predicate ArgsAre(j: Json, at: nat, cap: Value, args: nat, v: Value) {
    Node(j, at, cap) && cap.Obj? && j.GetResult(at, "args") == Ok(args) && Get(cap, "args") == Some(v) &&
      Node(j, args, v)
  }

  lemma {:induction false} CapArgs(j: Json, at: nat, cap: Value)
    requires Node(j, at, cap) && cap.Obj?
    ensures match j.GetResult(at, "args")
            case Err(_) => Get(cap, "args") == None
            case Ok(args) =>
              && Get(cap, "args").Some? && ArgsAre(j, at, cap, args, Get(cap, "args").value)
              && |j.Elements(args)| == |ArgsOf(cap)|
  {
    hide Node, JsonData.GetResult, Child, JsonData.Elements, Kids, Tells;
    NodeGet(j, at, cap, "args");
    if Get(cap, "args").Some? { NodeKids(j, j.GetResult(at, "args").value, Get(cap, "args").value); }
  }

  lemma {:induction false} FitsIs(j: Json, at: nat, cap: Value, args: nat, v: Value)
    requires ArgsAre(j, at, cap, args, v)
    ensures Displayable(j, args) <==> Fits(cap)
  {
    hide Node, JsonData.GetResult, Child, JsonData.Elements, Kids, Text;
    NodeKids(j, args, v);
    NodeTells(j, args, v);
  }

  lemma {:induction false} UnverifiedMirrors(j: Json, at: nat, cap: Value, args: nat, v: Value, warn: bool)
    requires ArgsAre(j, at, cap, args, v)
    ensures Mirrors(j, UnverifiedItems(j, at, args, warn).items, UnverifiedLines(cap, warn))
  {
    hide Node, JsonData.GetResult, Child, Displayable, Fits, HasNamespace, NameOf, SplitNamespace, Mirrors;
    NamespaceIs(j, at, cap);
    FitsIs(j, at, cap, args, v);
    MirrorsSay(j, Title.Warning, CapNotVerified);
    MirrorsNone(j);
    MirrorsShow(j, Capability, CapName, at, cap);
    MirrorsShow(j, Title.Namespace, CapNamespace, at, cap);
    MirrorsOne(j, Item(Arguments, UnknownText, at, Displayable(j, args)), Line(Arguments, UnknownText, cap, Fits(cap)));
    var warning := if warn then [Item(Title.Warning, CapNotVerified, 0, true)] else [];
    var name := [Item(Capability, CapName, at, true)];
    var space := if HasNamespace(j, at) then [Item(Title.Namespace, CapNamespace, at, true)] else [];
    var a, b, c := if warn then Plain(Title.Warning, CapNotVerified) else [], Shown(Capability, CapName, cap),
                   if SplitNamespace(NameOf(cap)).0.Some? then Shown(Title.Namespace, CapNamespace, cap) else [];
    MirrorsCat(j, warning, name, a, b);
    MirrorsCat(j, warning + name, space, a + b, c);
    MirrorsCat(j, warning + name + space, [Item(Arguments, UnknownText, at, Displayable(j, args))],
               a + b + c, [Line(Arguments, UnknownText, cap, Fits(cap))]);
  }

  /** The token that is checked and shown as an amount is its number. */
  lemma {:induction false} AmountIs(j: Json, at: nat, amount: Value)
    requires Node(j, at, amount) && AmountToken(j, at).Some?
    ensures Node(j, AmountToken(j, at).value, NumberOf(amount))
  {
    hide Node, JsonData.Keys, Print;
    NodeTells(j, at, amount);
    if amount.Obj? {
      NodeKeys(j, at, amount);
    }
  }

  /** An accepted transfer has its arguments in an array. */
  lemma {:induction false} TransferArgs(j: Json, args: nat, v: Value, cross: bool)
    requires Node(j, args, v) && |j.Elements(args)| == (if cross then 4 else 3) && CheckAmount(j, j.Elements(args)).Ok?
    ensures v.Arr?
  {
    hide Node, JsonData.Elements, CheckAmount, Tells, KeysAndValues;
    NodeKids(j, args, v);
    if v.Obj? && cross { KeyNoAmount(j, args, v); }
  }

  /** The third kid of an object is a key. */
  lemma {:induction false} KeyNoAmount(j: Json, args: nat, v: Value)
    requires Node(j, args, v) && v.Obj? && |j.Elements(args)| == 4
    ensures CheckAmount(j, j.Elements(args)).Err?
  {
    hide Node, JsonData.Elements, IsAmount, KeysAndValues;
    NodeKids(j, args, v);
    KeyKid(v.members);
    assert Tells(j, j.Elements(args)[2], Kids(v)[2]);
  }

  lemma {:induction false} KeyKid(ms: seq<Syntax.Member>)
    requires |ms| == 2
    ensures |KeysAndValues(ms)| == 4 && KeysAndValues(ms)[2] == Str(ms[1].key)
  {
    assert KeysAndValues(ms[2..]) == [];
    assert KeysAndValues(ms[1..]) == [Str(ms[1].key), ms[1].value] + KeysAndValues(ms[1..][1..]);
    assert ms[1..][1..] == ms[2..];
  }

  lemma {:induction false} TransferMatches(j: Json, args: nat, v: Value, cross: bool)
    requires Node(j, args, v) && |j.Elements(args)| == (if cross then 4 else 3) == |Kids(v)|
    ensures Matches(j, TransferItems(j, j.Elements(args), cross), TransferLines(Kids(v), cross))
  {
    hide Node, JsonData.Elements, AmountToken, IsAmount, Mirrors, NumberOf, JsonData.Span, Principal.IsPrincipal,
      ShownUnescaped;
    var list := j.Elements(args);
    var b := TransferItems(j, list, cross);
    if b.failure == None {
      TransferArgs(j, args, v, cross);
      NodeElems(j, args, v);
      var kids := Kids(v);
      assert forall i | 0 <= i < |kids| :: Node(j, list[i], kids[i]);
      AmountIs(j, list[2], kids[2]);
      NodeTells(j, list[1], kids[1]);
      var number := AmountToken(j, list[2]).value;
      var title, render := Title.Transfer, if cross then CrossTransferText else TransferText;
      MirrorsSay(j, title, render);
      MirrorsShow(j, From, Std, list[0], kids[0]);
      MirrorsShow(j, To, Std, list[1], kids[1]);
      MirrorsShow(j, Amount, AmountText, number, NumberOf(kids[2]));
      if cross { MirrorsShow(j, ToChain, Std, list[3], kids[3]); } else { MirrorsNone(j); }
      if Principal.IsPrincipal(j.Span(list[1])) { MirrorsNone(j); } else { MirrorsSay(j, Title.Warning, NotPrincipal); }
      JoinTransfer(j, list, number, kids, cross, render);
    }
  }

  lemma {:induction false} JoinTransfer(j: Json, list: seq<nat>, number: nat, kids: seq<Value>, cross: bool,
      render: Render)
    requires |list| == |kids| == if cross then 4 else 3
    requires render == if cross then CrossTransferText else TransferText
    requires Mirrors(j, Say(Title.Transfer, render).items, Plain(Title.Transfer, render))
    requires Mirrors(j, Show(From, Std, list[0]).items, Shown(From, Std, kids[0]))
    requires Mirrors(j, Show(To, Std, list[1]).items, Shown(To, Std, kids[1]))
    requires Mirrors(j, Show(Amount, AmountText, number).items, Shown(Amount, AmountText, NumberOf(kids[2])))
    requires Mirrors(j, if cross then Show(ToChain, Std, list[3]).items else [],
                     if cross then Shown(ToChain, Std, kids[3]) else [])
    requires Mirrors(j, ReceiverItems(j, list[1]).items,
                     if Principal.IsPrincipal(Text(kids[1])) then [] else Plain(Title.Warning, NotPrincipal))
    requires TransferItems(j, list, cross).failure == None && CheckAmount(j, list) == Ok(number)
    ensures Mirrors(j, TransferItems(j, list, cross).items, TransferLines(kids, cross))
  {
    hide Mirrors, CheckAmount, Principal.IsPrincipal, Text, NumberOf, ReceiverItems, ShownUnescaped;
    var a, b, c, d := Say(Title.Transfer, render).items, Show(From, Std, list[0]).items, Show(To, Std, list[1]).items,
                      Show(Amount, AmountText, number).items;
    var e := if cross then Show(ToChain, Std, list[3]).items else [];
    var x, y, z, w := Plain(Title.Transfer, render), Shown(From, Std, kids[0]), Shown(To, Std, kids[1]),
                      Shown(Amount, AmountText, NumberOf(kids[2]));
    var v := if cross then Shown(ToChain, Std, kids[3]) else [];
    MirrorsCat(j, a, b, x, y);
    MirrorsCat(j, a + b, c, x + y, z);
    MirrorsCat(j, a + b + c, d, x + y + z, w);
    MirrorsCat(j, a + b + c + d, e, x + y + z + w, v);
    MirrorsCat(j, a + b + c + d + e, ReceiverItems(j, list[1]).items, x + y + z + w + v,
               if Principal.IsPrincipal(Text(kids[1])) then [] else Plain(Title.Warning, NotPrincipal));
    assert TransferItems(j, list, cross).items == a + b + c + d + e + ReceiverItems(j, list[1]).items;
  }

  lemma {:induction false} CapMatches(j: Json, at: nat, cap: Value)
    requires Node(j, at, cap)
    ensures Matches(j, CapItems(j, at), CapLines(cap))
  {
    hide Node, JsonData.GetResult, JsonData.Elements, Child, KindOfCap, NameOf, Kids, Mirrors, TransferItems,
      TransferLines, UnverifiedItems, UnverifiedLines;
    CapKindIs(j, at, cap);
    if CapItems(j, at).failure == None {
      CapArgs(j, at, cap);
      if NameOf(cap) == "coin.GAS" {
        MirrorsNone(j);
      } else {
        var args, v := j.GetResult(at, "args").value, Get(cap, "args").value;
        UnverifiedMirrors(j, at, cap, args, v, true);
        if IsTransfer(cap) {
          TransferMatches(j, args, v, false);
        } else if IsXchain(cap) {
          TransferMatches(j, args, v, true);
        } else if NameOf(cap) == "coin.ROTATE" {
          UnverifiedMirrors(j, at, cap, args, v, false);
          MirrorsShow(j, Title.Rotate, RotateText, at, cap);
          MirrorsSay(j, Title.Warning, RotateWarning);
          var items := if |ArgsOf(cap)| == 1 then Show(Title.Rotate, RotateText, at).items
                       else UnverifiedItems(j, at, args, false).items;
          MirrorsCat(j, items, Say(Title.Warning, RotateWarning).items,
                     if |ArgsOf(cap)| == 1 then Shown(Title.Rotate, RotateText, cap) else UnverifiedLines(cap, false),
                     Plain(Title.Warning, RotateWarning));
        }
      }
    }
  }

  lemma {:induction false} CapsMatch(j: Json, ats: seq<nat>, caps: seq<Value>)
    requires |ats| == |caps| && forall i | 0 <= i < |ats| :: Node(j, ats[i], caps[i])
    ensures Matches(j, CapsItems(j, ats), CapsLines(caps))
    decreases |ats|
  {
    hide Node, Matches, CapItems, CapLines, Then;
    if ats == [] {
      NoneMatches(j);
    } else {
      CapMatches(j, ats[0], caps[0]);
      CapsMatch(j, ats[1..], caps[1..]);
      MatchesThen(j, CapItems(j, ats[0]), CapsItems(j, ats[1..]), CapLines(caps[0]), CapsLines(caps[1..]));
    }
  }

  lemma {:induction false} NoneMatches(j: Json)
    ensures Matches(j, NOTHING, [])
  {
    MirrorsNone(j);
  }

  // ---- The sections of a transaction -----------------------------------------------------------

  lemma {:induction false} NetworkMatches(j: Json, root: Value)
    requires Node(j, 0, root) && root.Obj?
    ensures Matches(j, NetworkItems(j), NetworkLines(root))
  {
    hide Node, JsonData.GetResult, Child, ShownUnescaped, Mirrors, Text;
    NodeGet(j, 0, root, "networkId");
    MirrorsNone(j);
    if Get(root, "networkId").Some? {
      var t, v := j.GetResult(0, "networkId").value, Get(root, "networkId").value;
      NodeTells(j, t, v);
      MirrorsShow(j, OnNetwork, Std, t, v);
    }
  }

  /** The clist of an entry as the program finds it and as the tree has it. */
  lemma {:induction false} ClistIs(j: Json, at: nat, entry: Value)
    requires Node(j, at, entry) && entry.Obj?
    ensures match ValidClist(j, at)
            case None => ClistOf(entry) == []
            case Some(clist) =>
              && Get(entry, "clist").Some? && Node(j, clist, Get(entry, "clist").value)
              && ClistOf(entry) == Kids(Get(entry, "clist").value) != []
              && |j.Elements(clist)| == |ClistOf(entry)|
  {
    hide Node, JsonData.GetResult, Child, JsonData.Elements, JsonData.IsNull, Kids, Text;
    NodeGet(j, at, entry, "clist");
    if Get(entry, "clist").Some? {
      var clist, v := j.GetResult(at, "clist").value, Get(entry, "clist").value;
      NodeTells(j, clist, v);
      NodeKids(j, clist, v);
    }
  }

  /** Capabilities that are not refused are objects. */
  lemma {:induction false} CapsAreObjects(j: Json, ats: seq<nat>)
    requires CapsItems(j, ats).failure == None
    ensures forall i | 0 <= i < |ats| :: j.Tok(ats[i]).kind == Object && CapItems(j, ats[i]).failure == None
    decreases |ats|
  {
    hide JsonData.Tok;
    if ats != [] { CapsAreObjects(j, ats[1..]); }
  }

  /** An accepted clist is an array of objects. */
  lemma {:induction false} ClistArray(j: Json, clist: nat, v: Value)
    requires Node(j, clist, v) && CapsItems(j, j.Elements(clist)).failure == None && j.Elements(clist) != []
    ensures v.Arr? && |j.Elements(clist)| == |Kids(v)|
    ensures forall i | 0 <= i < |Kids(v)| :: Node(j, j.Elements(clist)[i], Kids(v)[i]) && Kids(v)[i].Obj?
  {
    hide Node, JsonData.Elements, CapsItems, KeysAndValues, CapItems;
    NodeKids(j, clist, v);
    CapsAreObjects(j, j.Elements(clist));
    if v.Obj? { FirstIsKey(j, clist, v); }
    NodeElems(j, clist, v);
    forall i | 0 <= i < |Kids(v)| ensures Kids(v)[i].Obj? {
      NodeTells(j, j.Elements(clist)[i], Kids(v)[i]);
    }
  }

  lemma {:induction false} FirstIsKey(j: Json, at: nat, v: Value)
    requires Node(j, at, v) && v.Obj? && j.Elements(at) != []
    ensures j.Tok(j.Elements(at)[0]).kind == String
  {
    hide Node, JsonData.Elements, KeysAndValues;
    NodeKids(j, at, v);
    FirstKid(v.members);
    assert Tells(j, j.Elements(at)[0], Kids(v)[0]);
  }

  lemma {:induction false} FirstKid(ms: seq<Syntax.Member>)
    requires ms != []
    ensures KeysAndValues(ms) != [] && KeysAndValues(ms)[0] == Str(ms[0].key)
  {
  }

  lemma {:induction false} KeyIsAmong(j: Json, ats: seq<nat>, caps: seq<Value>, key: Bytes)
    requires |ats| == |caps| && forall i | 0 <= i < |ats| :: Node(j, ats[i], caps[i]) && caps[i].Obj?
    ensures KeyInCaps(j, ats, key) <==> KeyAmong(caps, key)
    decreases |ats|
  {
    hide Node, JsonData.Elements, JsonData.GetResult, Child, AfterPrefix, NamesKey, Kids, JsonData.Span, Text;
    if ats != [] {
      CapArgs(j, ats[0], caps[0]);
      if Get(caps[0], "args").Some? {
        var args, v := j.GetResult(ats[0], "args").value, Get(caps[0], "args").value;
        ArgTexts(j, args, v);
        SomeArg(j, args, v, key);
      }
      KeyIsAmong(j, ats[1..], caps[1..], key);
    }
  }

  lemma {:induction false} ArgTexts(j: Json, args: nat, v: Value)
    requires Node(j, args, v)
    ensures |j.Elements(args)| == |Kids(v)| &&
            forall i | 0 <= i < |Kids(v)| :: j.Span(j.Elements(args)[i]) == Text(Kids(v)[i])
  {
    hide Node, JsonData.Elements, Kids;
    NodeKids(j, args, v);
  }

  lemma {:induction false} SomeArg(j: Json, args: nat, v: Value, key: Bytes)
    requires |j.Elements(args)| == |Kids(v)| &&
             forall i | 0 <= i < |Kids(v)| :: j.Span(j.Elements(args)[i]) == Text(Kids(v)[i])
    ensures (exists a | a in j.Elements(args) :: AfterPrefix(j.Span(a)) == key) <==>
            (exists a | a in Kids(v) :: NamesKey(Text(a), key))
  {
    hide JsonData.Elements, Kids, AfterPrefix, NamesKey, Text, JsonData.Span;
    var ats, kids := j.Elements(args), Kids(v);
    if a :| a in ats && AfterPrefix(j.Span(a)) == key {
      var i :| 0 <= i < |ats| && ats[i] == a;
      PrefixNames(Text(kids[i]), key);
      assert kids[i] in kids;
    }
    if a :| a in kids && NamesKey(Text(a), key) {
      var i :| 0 <= i < |kids| && kids[i] == a;
      PrefixNames(Text(kids[i]), key);
      assert ats[i] in ats && AfterPrefix(j.Span(ats[i])) == key;
    }
  }

  /** What follows an optional `k:` is the key exactly if the text names the key. */
  lemma {:induction false} PrefixNames(text: Bytes, key: Bytes)
    ensures AfterPrefix(text) == key <==> NamesKey(text, key)
  {
    assert "k:" <= text <==> |text| >= 2 && text[..2] == "k:";
    assert "k:" <= "k:" + key && ("k:" + key)[2..] == key;
    if "k:" <= text { assert text == text[..2] + text[2..]; }
  }

  /** The truncation of the number of capabilities to 8 bits does not change which are looked at. */
  lemma {:induction false} TransferAmong(j: Json, clist: nat, caps: seq<Value>)
    requires |j.Elements(clist)| == |caps| < 256
    requires forall i | 0 <= i < |caps| :: Node(j, j.Elements(clist)[i], caps[i]) && caps[i].Obj?
    ensures HasTransfer(j, clist) <==> exists c | c in caps :: c.Obj? && NameOf(c) == "coin.TRANSFER"
  {
    hide Node, JsonData.Elements, KindOfCap, NameOf;
    var ats := j.Elements(clist);
    assert ats[..U8(|ats|)] == ats;
    forall i | 0 <= i < |caps| ensures KindOfCap(j, ats[i]) == TransferCap <==> NameOf(caps[i]) == "coin.TRANSFER" {
      CapKindIs(j, ats[i], caps[i]);
    }
    if a :| a in ats && KindOfCap(j, a) == TransferCap {
      var i :| 0 <= i < |ats| && ats[i] == a;
      assert caps[i] in caps;
    }
    if c :| c in caps && c.Obj? && NameOf(c) == "coin.TRANSFER" {
      var i :| 0 <= i < |caps| && caps[i] == c;
      assert ats[i] in ats;
    }
  }

  /** Scope and capabilities of an entry with fewer than 256 capabilities. */
  lemma {:induction false} EntryMatches(j: Json, at: nat, entry: Value, keyAt: nat, key: Value)
    requires Node(j, at, entry) && entry.Obj? && Node(j, keyAt, key) && |ClistOf(entry)| < 256
    requires TransfersItems(j, at).failure == None
    ensures Mirrors(j, ScopeItems(j, at, keyAt).items, ScopeLines(entry, key)) &&
            ScopeItems(j, at, keyAt).failure == None
    ensures Mirrors(j, TransfersItems(j, at).items, CapabilitiesLines(entry))
  {
    hide Node, JsonData.Elements, ValidClist, ClistOf, Mirrors, CapsItems, CapsLines, KeyInCaps, KeyAmong,
      HasTransfer, NameOf;
    ClistIs(j, at, entry);
    if ValidClist(j, at) == None {
      MirrorsShow(j, UnscopedSigner, Std, keyAt, key);
      MirrorsSay(j, Title.Warning, WarningText);
    } else {
      var clist := ValidClist(j, at).value;
      var v := Get(entry, "clist").value;
      var caps := Kids(v);
      ClistArray(j, clist, v);
      CapsMatch(j, j.Elements(clist), caps);
      TransferAmong(j, clist, caps);
      NodeTells(j, keyAt, key);
      KeyIsAmong(j, j.Elements(clist), caps, Text(key));
      MirrorsShow(j, KeyNotInTransfer, Std, keyAt, key);
      MirrorsNone(j);
    }
  }

  lemma {:induction false} RecognisedIs(j: Json, root: Value)
    requires Node(j, 0, root) && root.Obj?
    ensures ValidateMeta(j).Ok? <==> MetaRecognised(root)
    ensures ValidateMeta(j).Ok? ==> j.GetResult(0, "meta").Ok? && !j.IsNull(j.GetResult(0, "meta").value)
    ensures ValidateMeta(j).Ok? ==> Node(j, j.GetResult(0, "meta").value, Get(root, "meta").value)
  {
    hide Node, JsonData.GetResult, JsonData.Keys, JsonData.IsNull, Child, MetaNames, Print;
    NodeGet(j, 0, root, "meta");
    if Get(root, "meta").Some? {
      var at, meta := j.GetResult(0, "meta").value, Get(root, "meta").value;
      NodeTells(j, at, meta);
      if meta.Obj? {
        NotNullText(meta);
        NodeKeys(j, at, meta);
        KeySpans(j, at, meta);
      }
    }
  }

  lemma {:induction false} NotNullText(v: Value)
    requires v.Obj? || v.Arr?
    ensures Text(v) != "null"
  {
    var t := Print(v, []);
    assert t[0] == '{' || t[0] == '[';
  }

  lemma {:induction false} KeySpans(j: Json, at: nat, v: Value)
    requires v.Obj? && |j.Keys(at)| == |v.members|
    requires forall i | 0 <= i < |v.members| :: Tells(j, j.Keys(at)[i], Str(v.members[i].key))
    ensures Spans(j, j.Keys(at)) == Integrity.KeyNames(v.members)
  {
    hide JsonData.Keys, JsonData.Span;
    forall i | 0 <= i < |v.members| ensures j.Span(j.Keys(at)[i]) == v.members[i].key {
      assert Tells(j, j.Keys(at)[i], Str(v.members[i].key));
    }
  }

  lemma {:induction false} ChainMatches(j: Json, at: nat, meta: Value)
    requires j.GetResult(0, "meta") == Ok(at) && !j.IsNull(at) && Node(j, at, meta) && meta.Obj?
    ensures Matches(j, ChainItems(j), ChainLines(meta))
  {
    hide Node, JsonData.GetResult, JsonData.IsNull, Child, ShownUnescaped, Mirrors, Text;
    NodeGet(j, at, meta, "chainId");
    MirrorsNone(j);
    if Get(meta, "chainId").Some? {
      var t, v := j.GetResult(at, "chainId").value, Get(meta, "chainId").value;
      NodeTells(j, t, v);
      MirrorsShow(j, OnChain, Std, t, v);
    }
  }

  lemma {:induction false} PayerMatches(j: Json, at: nat, meta: Value)
    requires Node(j, at, meta) && meta.Obj?
    ensures Matches(j, PayerItems(j, at), PayerLines(meta))
  {
    hide Node, JsonData.GetResult, Child, ShownUnescaped, Mirrors;
    NodeGet(j, at, meta, "sender");
    MirrorsNone(j);
    if Get(meta, "sender").Some? {
      MirrorsShow(j, PayingAccount, Std, j.GetResult(at, "sender").value, Get(meta, "sender").value);
    }
  }

  lemma {:induction false} MetaMatches(j: Json, root: Value)
    requires Node(j, 0, root) && root.Obj?
    ensures Matches(j, MetaItems(j), MetaLines(root))
  {
    hide Node, JsonData.GetResult, JsonData.IsNull, Child, ValidateMeta, MetaRecognised, ChainItems, GasItems,
      FeeItems, Matches, IntegerIfGiven, MetaGiven, ChainLines, PayerLines;
    RecognisedIs(j, root);
    RefusedMatches(j, BadMeta, MetaLines(root));
    RefusedMatches(j, BadCharacters, MetaLines(root));
    if ValidateMeta(j).Err? {
      SayMatches(j, Title.Caution, CautionText);
    } else {
      MetaIsObject(root);
      var at, meta := j.GetResult(0, "meta").value, Get(root, "meta").value;
      ChainMatches(j, at, meta);
      GasFeeMatch(j, at, meta);
      var chain := ChainLines(meta);
      var rest := Shown(UsingGas, GasText, meta) + (Shown(Title.MaxFee, MaxFeeText, meta) + PayerLines(meta));
      MatchesThen(j, ChainItems(j), Then(GasItems(j), FeeItems(j)), chain, rest);
      assert MetaLines(root) == chain + rest;
    }
  }

  lemma {:induction false} MetaIsObject(root: Value)
    requires MetaRecognised(root)
    ensures Get(root, "meta").Some? && Get(root, "meta").value.Obj?
  {
  }

  lemma {:induction false} RefusedMatches(j: Json, e: ItemsError, lines: seq<Line>)
    ensures Matches(j, Refuse(e), lines)
  {
  }

  lemma {:induction false} SayMatches(j: Json, title: Title, render: Render)
    requires !Reads(render)
    ensures Matches(j, Say(title, render), Plain(title, render))
  {
    MirrorsSay(j, title, render);
  }

  lemma {:induction false} ShowMatches(j: Json, title: Title, render: Render, at: nat, v: Value)
    requires Node(j, at, v)
    ensures Matches(j, Show(title, render, at), Shown(title, render, v))
  {
    hide Node;
    MirrorsShow(j, title, render, at, v);
  }

  lemma {:induction false} GasFeeMatch(j: Json, at: nat, meta: Value)
    requires j.GetResult(0, "meta") == Ok(at) && !j.IsNull(at) && Node(j, at, meta) && meta.Obj?
    ensures Matches(j, Then(GasItems(j), FeeItems(j)),
                    Shown(UsingGas, GasText, meta) + (Shown(Title.MaxFee, MaxFeeText, meta) + PayerLines(meta)))
  {
    hide Node, JsonData.GetResult, JsonData.IsNull, Child, Matches, PayerItems, Then;
    ShowMatches(j, UsingGas, GasText, at, meta);
    ShowMatches(j, Title.MaxFee, MaxFeeText, at, meta);
    PayerMatches(j, at, meta);
    var fee, payer := Shown(Title.MaxFee, MaxFeeText, meta), PayerLines(meta);
    MatchesThen(j, Show(Title.MaxFee, MaxFeeText, at), PayerItems(j, at), fee, payer);
    MatchesThen(j, GasItems(j), FeeItems(j), Shown(UsingGas, GasText, meta), fee + payer);
  }

  // ---- The whole transaction -------------------------------------------------------------------

  lemma {:induction false} OpeningMatches(j: Json, root: Value, keyAt: nat, key: Value, nsigners: nat)
    requires Node(j, 0, root) && root.Obj? && Node(j, keyAt, key)
    ensures Matches(j, OpeningItems(j, keyAt, nsigners), OpeningLines(root, key, nsigners))
  {
    hide Node, Matches, NetworkItems, NetworkLines, Then;
    NetworkMatches(j, root);
    SayMatches(j, Title.Signing, SigningText);
    SayMatches(j, Signers, SignersText);
    SayMatches(j, Title.Requiring, RequiringText);
    ShowMatches(j, OfKey, Std, keyAt, key);
    NoneMatches(j);
    var signers, signersItems := if nsigners > 1 then Plain(Signers, SignersText) else [],
                                 if nsigners > 1 then Say(Signers, SignersText) else NOTHING;
    MatchesThen(j, Say(Title.Requiring, RequiringText), Show(OfKey, Std, keyAt),
      Plain(Title.Requiring, RequiringText), Shown(OfKey, Std, key));
    MatchesThen(j, signersItems, Then(Say(Title.Requiring, RequiringText), Show(OfKey, Std, keyAt)),
                signers, Plain(Title.Requiring, RequiringText) + Shown(OfKey, Std, key));
    MatchesThen(j, Say(Title.Signing, SigningText), NetworkItems(j), Plain(Title.Signing, SigningText),
      NetworkLines(root));
    MatchesThen(j, StartItems(j), KeyItems(keyAt, nsigners), Plain(Title.Signing, SigningText) + NetworkLines(root),
                signers + (Plain(Title.Requiring, RequiringText) + Shown(OfKey, Std, key)));
  }

  lemma {:induction false} ThenParts(a: Build, b: Build)
    requires Then(a, b).failure == None
    ensures a.failure == None && b.failure == None && Then(a, b).items == a.items + b.items
  {
  }

  /** The items before the check for what cannot be shown. */
  function Sections(j: Json, at: nat, keyAt: nat, nsigners: nat): Build {
    Then(OpeningItems(j, keyAt, nsigners), Then(ScopeItems(j, at, keyAt), Then(TransfersItems(j, at), MetaItems(j))))
  }

  lemma {:induction false} TxSections(j: Json, at: nat, nsigners: nat)
    ensures TxItems(j, at, nsigners) == match j.GetResult(at, "pubKey") case Err(_) => Refuse(Failed)
                                        case Ok(keyAt) => WithLengths(Sections(j, at, keyAt, nsigners))
  {
  }

  lemma {:induction false} SectionsMirror(j: Json, root: Value, at: nat, entry: Value, keyAt: nat, key: Value,
      nsigners: nat)
    requires Node(j, 0, root) && root.Obj? && Node(j, at, entry) && entry.Obj? && Node(j, keyAt, key)
    requires Get(entry, "pubKey") == Some(key) && |ClistOf(entry)| < 256
    requires Sections(j, at, keyAt, nsigners).failure == None
    ensures Mirrors(j, Sections(j, at, keyAt, nsigners).items, Lines(root, entry, nsigners))
  {
    hide Node, Mirrors, OpeningItems, ScopeItems, TransfersItems, MetaItems, OpeningLines, ScopeLines,
      CapabilitiesLines, MetaLines, Child, ClistOf, Then;
    var opening, scope, caps, meta := OpeningItems(j, keyAt, nsigners), ScopeItems(j, at, keyAt),
      TransfersItems(j, at), MetaItems(j);
    ThenParts(opening, Then(scope, Then(caps, meta)));
    ThenParts(scope, Then(caps, meta));
    ThenParts(caps, meta);
    OpeningMatches(j, root, keyAt, key, nsigners);
    EntryMatches(j, at, entry, keyAt, key);
    MetaMatches(j, root);
    var first, rest := OpeningLines(root, key, nsigners), CapabilitiesLines(entry) + MetaLines(root);
    MirrorsCat(j, caps.items, meta.items, CapabilitiesLines(entry), MetaLines(root));
    MirrorsCat(j, scope.items, caps.items + meta.items, ScopeLines(entry, key), rest);
    MirrorsCat(j, opening.items, scope.items + (caps.items + meta.items), first, ScopeLines(entry, key) + rest);
    assert Lines(root, entry, nsigners) == first + (ScopeLines(entry, key) + rest);
  }

  lemma {:induction false} SameDisplay(j: Json, items: seq<Item>, lines: seq<Line>)
    requires Mirrors(j, items, lines)
    ensures (exists i | i in items :: !i.canDisplay) <==> (exists l | l in lines :: !l.canDisplay)
  {
    hide Node;
    if i :| i in items && !i.canDisplay {
      var k :| 0 <= k < |items| && items[k] == i;
      assert lines[k] in lines;
    }
    if l :| l in lines && !l.canDisplay {
      var k :| 0 <= k < |lines| && lines[k] == l;
      assert items[k] in items;
    }
  }

  /** The items of an accepted transaction are the lines of its tree, and every token read is the node of that line. */
  lemma {:induction false} ReviewMirrors(j: Json, root: Value, at: nat, entry: Value, nsigners: nat)
    requires Node(j, 0, root) && root.Obj? && Node(j, at, entry) && entry.Obj? && |ClistOf(entry)| < 256
    requires TxItems(j, at, nsigners).failure == None
    ensures Mirrors(j, TxItems(j, at, nsigners).items, ReviewLines(root, entry, nsigners))
  {
    hide Node, Mirrors, Lines, Child, ClistOf, Sections, JsonData.GetResult;
    NodeGet(j, at, entry, "pubKey");
    var keyAt, key := j.GetResult(at, "pubKey").value, Get(entry, "pubKey").value;
    var b := Sections(j, at, keyAt, nsigners);
    TxSections(j, at, nsigners);
    SectionsMirror(j, root, at, entry, keyAt, key, nsigners);
    SameDisplay(j, b.items, Lines(root, entry, nsigners));
    MirrorsSay(j, Title.Warning, TxTooLarge);
    MirrorsCat(j, b.items, Say(Title.Warning, TxTooLarge).items, Lines(root, entry, nsigners),
      Plain(Title.Warning, TxTooLarge));
    assert Lines(root, entry, nsigners) + [] == Lines(root, entry, nsigners);
  }
}
