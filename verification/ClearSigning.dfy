/** Which entry is reviewed, and when its review is clear-signed rather than blind-signed. */
module ClearSigning {
  import opened Base
  import opened Errors
  import opened Syntax
  import opened JsmnSpec
  import opened Json
  import opened Lookups
  import opened Nodes
  import opened ItemSpec
  import opened Review
  import opened ReviewProof
  import opened Recognition
  import Principal

  // ---- Blind lines -----------------------------------------------------------------------------

  predicate IsBlind(r: Render) { r in {WarningText, TxTooLarge, CautionText, RotateWarning, CapNotVerified} }

  predicate AnyBlind(lines: seq<Line>) { exists i | 0 <= i < |lines| :: IsBlind(lines[i].render) }

  predicate AnyHidden(lines: seq<Line>) { exists i | 0 <= i < |lines| :: !lines[i].canDisplay }

  lemma {:induction false} BlindCat(a: seq<Line>, b: seq<Line>)
    ensures AnyBlind(a + b) <==> AnyBlind(a) || AnyBlind(b)
    ensures AnyHidden(a + b) <==> AnyHidden(a) || AnyHidden(b)
  {
    var c := a + b;
    if i :| 0 <= i < |b| && IsBlind(b[i].render) { assert c[|a| + i] == b[i]; }
    if i :| 0 <= i < |b| && !b[i].canDisplay { assert c[|a| + i] == b[i]; }
    if i :| 0 <= i < |a| && IsBlind(a[i].render) { assert c[i] == a[i]; }
    if i :| 0 <= i < |a| && !a[i].canDisplay { assert c[i] == a[i]; }
  }

  lemma {:induction false} BlindOne(title: Title, render: Render, v: Value)
    ensures AnyBlind(Plain(title, render)) <==> IsBlind(render)
    ensures AnyBlind(Shown(title, render, v)) <==> IsBlind(render)
    ensures !AnyHidden(Plain(title, render)) && !AnyHidden(Shown(title, render, v))
  {
    var p, s := Plain(title, render), Shown(title, render, v);
    assert p[0].render == render && s[0].render == render;
  }

  lemma {:induction false} BlindNone()
    ensures !AnyBlind([]) && !AnyHidden([])
  {
  }

  /** Lines shown in full, none of them blind. */
  predicate Clear(lines: seq<Line>) { !AnyBlind(lines) && !AnyHidden(lines) }

  lemma {:induction false} ClearCat(a: seq<Line>, b: seq<Line>)
    requires Clear(a) && Clear(b)
    ensures Clear(a + b)
  {
    BlindCat(a, b);
  }

  lemma {:induction false} ClearOne(title: Title, render: Render, v: Value)
    requires !IsBlind(render)
    ensures Clear(Plain(title, render)) && Clear(Shown(title, render, v)) && Clear([])
  {
    BlindOne(title, render, v);
    BlindNone();
  }

  lemma {:induction false} TransferClear(args: seq<Value>, cross: bool)
    requires |args| == if cross then 4 else 3
    ensures Clear(TransferLines(args, cross))
  {
    hide Clear, Principal.IsPrincipal, NumberOf, Text;
    var render := if cross then CrossTransferText else TransferText;
    ClearOne(Title.Transfer, render, NONE);
    ClearOne(From, Std, args[0]);
    ClearOne(To, Std, args[1]);
    ClearOne(Amount, AmountText, NumberOf(args[2]));
    ClearOne(Title.Warning, NotPrincipal, NONE);
    if cross { ClearOne(ToChain, Std, args[3]); }
    var a, b, c, d := Plain(Title.Transfer, render), Shown(From, Std, args[0]), Shown(To, Std, args[1]),
                      Shown(Amount, AmountText, NumberOf(args[2]));
    var e := if cross then Shown(ToChain, Std, args[3]) else [];
    ClearCat(a, b);
    ClearCat(a + b, c);
    ClearCat(a + b + c, d);
    ClearCat(a + b + c + d, e);
    var f := if Principal.IsPrincipal(Text(args[1])) then [] else Plain(Title.Warning, NotPrincipal);
    ClearCat(a + b + c + d + e, f);
  }

  lemma {:induction false} UnverifiedBlind(cap: Value)
    ensures AnyBlind(UnverifiedLines(cap, true))
  {
    hide Fits, NameOf, SplitNamespace;
    assert UnverifiedLines(cap, true)[0].render == CapNotVerified;
  }

  /** Exactly the clear capabilities have clear lines. */
  lemma {:induction false} CapClear(cap: Value)
    ensures IsClear(cap) ==> Clear(CapLines(cap))
    ensures !IsClear(cap) ==> AnyBlind(CapLines(cap))
  {
    hide Clear, AnyBlind, NameOf, ArgsOf, UnverifiedLines, TransferLines;
    if IsClear(cap) {
      ClearOne(Title.Transfer, TransferText, NONE);
      if !IsGas(cap) { TransferClear(ArgsOf(cap), IsXchain(cap)); }
    } else {
      UnverifiedBlind(cap);
      BlindOne(Title.Warning, RotateWarning, NONE);
      BlindCat(if |ArgsOf(cap)| == 1 then Shown(Title.Rotate, RotateText, cap) else UnverifiedLines(cap, false),
               Plain(Title.Warning, RotateWarning));
    }
  }

  lemma {:induction false} CapsClear(caps: seq<Value>)
    ensures (forall c | c in caps :: IsClear(c)) ==> Clear(CapsLines(caps))
    ensures !(forall c | c in caps :: IsClear(c)) ==> AnyBlind(CapsLines(caps))
    decreases |caps|
  {
    hide Clear, AnyBlind, IsClear, CapLines;
    if caps == [] {
      ClearOne(Title.Transfer, TransferText, NONE);
    } else {
      CapClear(caps[0]);
      CapsClear(caps[1..]);
      assert caps == [caps[0]] + caps[1..];
      BlindCat(CapLines(caps[0]), CapsLines(caps[1..]));
      if forall c | c in caps :: IsClear(c) { ClearCat(CapLines(caps[0]), CapsLines(caps[1..])); }
    }
  }

  lemma {:induction false} MetaClear(root: Value)
    ensures MetaRecognised(root) ==> Clear(MetaLines(root))
    ensures !MetaRecognised(root) ==> AnyBlind(MetaLines(root))
  {
    hide Clear, AnyBlind, MetaRecognised, Child;
    BlindOne(Title.Caution, CautionText, NONE);
    if MetaRecognised(root) {
      MetaIsObject(root);
      var meta := Get(root, "meta").value;
      var chain, payer := ChainLines(meta), PayerLines(meta);
      ClearOne(OnChain, Std, if Get(meta, "chainId").Some? then Get(meta, "chainId").value else NONE);
      ClearOne(PayingAccount, Std, if Get(meta, "sender").Some? then Get(meta, "sender").value else NONE);
      ClearOne(UsingGas, GasText, meta);
      ClearOne(Title.MaxFee, MaxFeeText, meta);
      ClearCat(chain, Shown(UsingGas, GasText, meta));
      ClearCat(chain + Shown(UsingGas, GasText, meta), Shown(Title.MaxFee, MaxFeeText, meta));
      ClearCat(chain + Shown(UsingGas, GasText, meta) + Shown(Title.MaxFee, MaxFeeText, meta), payer);
    }
  }

  /** A scope the review shows: capabilities, each of them clear. */
  predicate ClearScope(entry: Value) { ClistOf(entry) != [] && forall c | c in ClistOf(entry) :: IsClear(c) }

  lemma {:induction false} OpeningClear(root: Value, key: Value, nsigners: nat)
    ensures Clear(OpeningLines(root, key, nsigners))
  {
    hide Clear, Child;
    ClearOne(OnNetwork, Std, if Get(root, "networkId").Some? then Get(root, "networkId").value else NONE);
    ClearOne(Title.Signing, SigningText, NONE);
    ClearOne(Signers, SignersText, NONE);
    ClearOne(Title.Requiring, RequiringText, NONE);
    ClearOne(OfKey, Std, key);
    var start, network := Plain(Title.Signing, SigningText), NetworkLines(root);
    var signers := if nsigners > 1 then Plain(Signers, SignersText) else [];
    var who := Plain(Title.Requiring, RequiringText) + Shown(OfKey, Std, key);
    ClearCat(Plain(Title.Requiring, RequiringText), Shown(OfKey, Std, key));
    ClearCat(signers, who);
    ClearCat(start, network);
    ClearCat(start + network, signers + who);
  }

  lemma {:induction false} ScopeClear(entry: Value, key: Value)
    ensures Clear(ScopeLines(entry, key))
    ensures ClearScope(entry) ==> Clear(CapabilitiesLines(entry))
    ensures !ClearScope(entry) ==> AnyBlind(CapabilitiesLines(entry))
  {
    hide Clear, AnyBlind, ClistOf, IsClear, KeyAmong, CapsLines;
    ClearOne(UnscopedSigner, Std, key);
    ClearOne(KeyNotInTransfer, Std, key);
    BlindOne(Title.Warning, WarningText, NONE);
    CapsClear(ClistOf(entry));
  }

  /** The lines call for blind signing unless `meta` is recognised and the scope is clear. */
  lemma {:induction false} LinesBlind(root: Value, entry: Value, nsigners: nat)
    requires Get(entry, "pubKey").Some?
    ensures AnyBlind(ReviewLines(root, entry, nsigners)) <==> !(MetaRecognised(root) && ClearScope(entry))
  {
    hide Clear, AnyBlind, AnyHidden, MetaRecognised, ClearScope, OpeningLines, ScopeLines, CapabilitiesLines,
      MetaLines, Child;
    var key := Get(entry, "pubKey").value;
    OpeningClear(root, key, nsigners);
    ScopeClear(entry, key);
    MetaClear(root);
    var opening, scope := OpeningLines(root, key, nsigners), ScopeLines(entry, key);
    var caps, meta := CapabilitiesLines(entry), MetaLines(root);
    var lines := Lines(root, entry, nsigners);
    assert lines == opening + scope + caps + meta;
    BlindCat(opening, scope);
    BlindCat(opening + scope, caps);
    BlindCat(opening + scope + caps, meta);
    BlindOne(Title.Warning, TxTooLarge, NONE);
    BlindNone();
    ClearParts(opening);
    ClearParts(scope);
    ClearParts(caps);
    ClearParts(meta);
    Hidden(lines);
    BlindCat(lines, if exists l | l in lines :: !l.canDisplay then Plain(Title.Warning, TxTooLarge) else []);
  }

  lemma {:induction false} ClearParts(lines: seq<Line>)
    ensures Clear(lines) <==> !AnyBlind(lines) && !AnyHidden(lines)
  {
  }

  lemma {:induction false} Hidden(lines: seq<Line>)
    ensures AnyHidden(lines) <==> exists l | l in lines :: !l.canDisplay
  {
    if l :| l in lines && !l.canDisplay {
      var i :| 0 <= i < |lines| && lines[i] == l;
      assert !lines[i].canDisplay;
    }
  }

  lemma {:induction false} MirrorsBlind(j: Json, items: seq<Item>, lines: seq<Line>)
    requires Mirrors(j, items, lines)
    ensures NeedsBlind(items) <==> AnyBlind(lines)
  {
    hide Node;
    if i :| i in items && IsBlind(i.render) {
      var k :| 0 <= k < |items| && items[k] == i;
      assert IsBlind(lines[k].render);
    }
    if k :| 0 <= k < |lines| && IsBlind(lines[k].render) {
      assert items[k] in items && IsBlind(items[k].render);
    }
  }

  /**
   An accepted transaction is clear-signed exactly if `meta` is recognised and the device's entry has a
   clist that is not empty and holds only gas, transfers and cross-chain transfers shown in full.
   */
  lemma {:induction false} ClearSigned(j: Json, root: Value, at: nat, entry: Value, nsigners: nat)
    requires Node(j, 0, root) && root.Obj? && Node(j, at, entry) && entry.Obj? && |ClistOf(entry)| < 256
    requires TxItems(j, at, nsigners).failure == None
    ensures NeedsBlind(TxItems(j, at, nsigners).items) <==> !(MetaRecognised(root) && ClearScope(entry))
  {
    hide Node, Mirrors, ReviewLines, MetaRecognised, ClearScope, Child, ClistOf, JsonData.GetResult, NeedsBlind;
    ReviewMirrors(j, root, at, entry, nsigners);
    MirrorsBlind(j, TxItems(j, at, nsigners).items, ReviewLines(root, entry, nsigners));
    NodeGet(j, at, entry, "pubKey");
    LinesBlind(root, entry, nsigners);
  }

  // ---- What is granted -------------------------------------------------------------------------

  /** The titles of the items that say what the capabilities grant. */
  predicate IsGrant(t: Title) { t in {From, To, Amount, ToChain, Capability, Title.Namespace} }

  /** The lines that say who pays whom how much and where, and which other capabilities there are. */
  function Granted(lines: seq<Line>): seq<Line> {
    if lines == [] then [] else (if IsGrant(lines[0].title) then [lines[0]] else []) + Granted(lines[1..])
  }

  /** What the transfers among the capabilities say, in order. */
  function Stated(caps: seq<Value>): seq<Line> {
    if caps == [] then []
    else
      (if IsTransfer(caps[0]) then Payment(ArgsOf(caps[0]), false)
       else if IsXchain(caps[0]) then Payment(ArgsOf(caps[0]), true)
       else []) + Stated(caps[1..])
  }

  function Payment(args: seq<Value>, cross: bool): seq<Line>
    requires |args| == if cross then 4 else 3
  {
    Shown(From, Std, args[0]) + Shown(To, Std, args[1]) + Shown(Amount, AmountText, NumberOf(args[2])) +
    (if cross then Shown(ToChain, Std, args[3]) else [])
  }

  lemma {:induction false} GrantedCat(a: seq<Line>, b: seq<Line>)
    ensures Granted(a + b) == Granted(a) + Granted(b)
  {
    if a == [] {
      assert a + b == b;
    } else {
      assert (a + b)[1..] == a[1..] + b && (a + b)[0] == a[0];
      GrantedCat(a[1..], b);
      var head := if IsGrant(a[0].title) then [a[0]] else [];
      assert Granted(a + b) == head + Granted((a + b)[1..]);
      assert head + (Granted(a[1..]) + Granted(b)) == head + Granted(a[1..]) + Granted(b);
    }
  }

  lemma {:induction false} GrantedOne(title: Title, render: Render, v: Value)
    ensures Granted(Shown(title, render, v)) == if IsGrant(title) then Shown(title, render, v) else []
    ensures !IsGrant(title) ==> Granted(Plain(title, render)) == []
  {
    assert Shown(title, render, v)[1..] == [] && Plain(title, render)[1..] == [];
  }

  lemma {:induction false} NoGrants()
    ensures Granted([]) == []
  {
  }

  lemma {:induction false} TransferGrants(args: seq<Value>, cross: bool)
    requires |args| == if cross then 4 else 3
    ensures Granted(TransferLines(args, cross)) == Payment(args, cross)
  {
    hide Granted, Principal.IsPrincipal, NumberOf, Text;
    var render := if cross then CrossTransferText else TransferText;
    var a, b, c, d := Plain(Title.Transfer, render), Shown(From, Std, args[0]), Shown(To, Std, args[1]),
                      Shown(Amount, AmountText, NumberOf(args[2]));
    var e := if cross then Shown(ToChain, Std, args[3]) else [];
    var f := if Principal.IsPrincipal(Text(args[1])) then [] else Plain(Title.Warning, NotPrincipal);
    GrantedCat(a, b);
    GrantedCat(a + b, c);
    GrantedCat(a + b + c, d);
    GrantedCat(a + b + c + d, e);
    GrantedCat(a + b + c + d + e, f);
    GrantedOne(Title.Transfer, render, NONE);
    GrantedOne(From, Std, args[0]);
    GrantedOne(To, Std, args[1]);
    GrantedOne(Amount, AmountText, NumberOf(args[2]));
    NoGrants();
    if cross { GrantedOne(ToChain, Std, args[3]); }
    GrantedOne(Title.Warning, NotPrincipal, NONE);
  }

  lemma {:induction false} CapsGrants(caps: seq<Value>)
    requires forall c | c in caps :: IsClear(c)
    ensures Granted(CapsLines(caps)) == Stated(caps)
    decreases |caps|
  {
    hide Granted, NameOf, ArgsOf, TransferLines, Payment;
    NoGrants();
    if caps != [] {
      assert caps[0] in caps && forall c | c in caps[1..] :: c in caps;
      CapsGrants(caps[1..]);
      GrantedCat(CapLines(caps[0]), CapsLines(caps[1..]));
      if !IsGas(caps[0]) { TransferGrants(ArgsOf(caps[0]), IsXchain(caps[0])); }
    }
  }

  lemma {:induction false} ScopeGrants(entry: Value, key: Value)
    ensures Granted(ScopeLines(entry, key)) == []
  {
    hide KeyAmong, ClistOf, NameOf, Granted;
    NoGrants();
    GrantedOne(UnscopedSigner, Std, key);
    GrantedOne(KeyNotInTransfer, Std, key);
  }

  lemma {:induction false} MetaGrants(root: Value)
    ensures Granted(MetaLines(root)) == []
  {
    hide Granted, MetaRecognised, Child;
    NoGrants();
    GrantedOne(Title.Caution, CautionText, NONE);
    if MetaRecognised(root) {
      MetaIsObject(root);
      var meta := Get(root, "meta").value;
      var chain, payer := ChainLines(meta), PayerLines(meta);
      var gas, fee := Shown(UsingGas, GasText, meta), Shown(Title.MaxFee, MaxFeeText, meta);
      GrantedCat(chain, gas);
      GrantedCat(chain + gas, fee);
      GrantedCat(chain + gas + fee, payer);
      GrantedOne(UsingGas, GasText, meta);
      GrantedOne(Title.MaxFee, MaxFeeText, meta);
      GrantedOne(OnChain, Std, if chain != [] then chain[0].value else NONE);
      GrantedOne(PayingAccount, Std, if payer != [] then payer[0].value else NONE);
    }
  }

  lemma {:induction false} OpeningGrants(root: Value, key: Value, nsigners: nat)
    ensures Granted(OpeningLines(root, key, nsigners)) == []
  {
    hide Granted, Child;
    NoGrants();
    var start, network := Plain(Title.Signing, SigningText), NetworkLines(root);
    var signers := if nsigners > 1 then Plain(Signers, SignersText) else [];
    var who := Plain(Title.Requiring, RequiringText) + Shown(OfKey, Std, key);
    GrantedCat(Plain(Title.Requiring, RequiringText), Shown(OfKey, Std, key));
    GrantedCat(signers, who);
    GrantedCat(start, network);
    GrantedCat(start + network, signers + who);
    GrantedOne(Title.Signing, SigningText, NONE);
    GrantedOne(Title.Requiring, RequiringText, NONE);
    GrantedOne(OfKey, Std, key);
    GrantedOne(Signers, SignersText, NONE);
    GrantedOne(OnNetwork, Std, if network != [] then network[0].value else NONE);
  }

  /** Only the capabilities' lines say what is granted. */
  lemma {:induction false} GrantsOfReview(root: Value, entry: Value, nsigners: nat)
    requires Get(entry, "pubKey").Some?
    ensures Granted(ReviewLines(root, entry, nsigners)) == Granted(CapabilitiesLines(entry))
  {
    hide Granted, OpeningLines, MetaLines, ScopeLines, CapabilitiesLines, Child;
    var key := Get(entry, "pubKey").value;
    var opening, scope := OpeningLines(root, key, nsigners), ScopeLines(entry, key);
    var caps, meta := CapabilitiesLines(entry), MetaLines(root);
    var lines := Lines(root, entry, nsigners);
    assert lines == opening + scope + caps + meta;
    GrantedCat(opening, scope);
    GrantedCat(opening + scope, caps);
    GrantedCat(opening + scope + caps, meta);
    OpeningGrants(root, key, nsigners);
    ScopeGrants(entry, key);
    MetaGrants(root);
    var last := if exists l | l in lines :: !l.canDisplay then Plain(Title.Warning, TxTooLarge) else [];
    GrantedCat(lines, last);
    NoGrants();
    GrantedOne(Title.Warning, TxTooLarge, NONE);
    assert [] + [] + Granted(caps) + [] + [] == Granted(caps);
  }

  /** A clear-signed review grants exactly what the transfers of the entry say, in the order of the clist. */
  lemma {:induction false} PaymentsShown(root: Value, entry: Value, nsigners: nat)
    requires Get(entry, "pubKey").Some? && ClearScope(entry)
    ensures Granted(ReviewLines(root, entry, nsigners)) == Stated(ClistOf(entry))
  {
    hide Granted, ReviewLines, Child, ClistOf, IsClear, CapsLines, Stated;
    GrantsOfReview(root, entry, nsigners);
    CapsGrants(ClistOf(entry));
  }
}
