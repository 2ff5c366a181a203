/**
 Accepted texts, from the bytes to the review: whose entry is reviewed, when the review is blind, and what it
 says is granted.
 */
module Acceptance {
  import opened Base
  import opened Errors
  import opened Syntax
  import opened JsmnSpec
  import opened Json
  import opened Lookups
  import opened Nodes
  import opened ItemSpec
  import opened Review
  import opened ClearSigning
  import opened Signers
  import opened ReviewProof
  import opened RenderSpec
  import opened ParserSpec
  import RenderProof
  import Integrity
  import T = TransferSpec

  // ---- Items that say what is granted ----------------------------------------------------------

  /** The items that say what the capabilities grant, in order. */
  function GrantItems(items: seq<Item>): seq<Item> {
    if items == [] then [] else (if IsGrant(items[0].title) then [items[0]] else []) + GrantItems(items[1..])
  }

  predicate NoGrantItems(items: seq<Item>) { forall i | 0 <= i < |items| :: !IsGrant(items[i].title) }

  lemma {:induction false} GrantItemsCat(a: seq<Item>, b: seq<Item>)
    requires NoGrantItems(b)
    ensures GrantItems(a + b) == GrantItems(a)
  {
    if a != [] {
      assert (a + b)[1..] == a[1..] + b;
      GrantItemsCat(a[1..], b);
    } else {
      assert a + b == b;
      if b != [] { GrantItemsCat([], b[1..]); assert [] + b[1..] == b[1..]; }
    }
  }

  lemma {:induction false} GrantsMirror(j: Json, items: seq<Item>, lines: seq<Line>)
    requires Mirrors(j, items, lines)
    ensures Mirrors(j, GrantItems(items), Granted(lines))
    decreases |items|
  {
    hide Node;
    if items != [] {
      GrantsMirror(j, items[1..], lines[1..]);
      assert StandsFor(j, items[0], lines[0]);
    }
  }

  // ---- What expert mode adds -------------------------------------------------------------------

  /** Items that neither call for blind signing nor say what is granted, nor show arguments. */
  predicate Neutral(items: seq<Item>) {
    forall i | 0 <= i < |items| :: !IsGrant(items[i].title) && !IsBlind(items[i].render) &&
      items[i].render != UnknownText
  }

  lemma {:induction false} NeutralThen(a: Build, b: Build)
    requires Neutral(a.items) && Neutral(b.items)
    ensures Neutral(Then(a, b).items)
  {
    hide IsGrant, IsBlind;
  }

  lemma {:induction false} NeutralShow(title: Title, render: Render, at: nat, e: ItemsError)
    requires !IsGrant(title) && !IsBlind(render) && render != UnknownText
    ensures Neutral(Show(title, render, at).items) && Neutral(Refuse(e).items) && Neutral(NOTHING.items)
  {
  }

  lemma {:induction false} PayloadNeutral(j: Json)
    ensures Neutral(PayloadItems(j).items)
  {
    hide JsonData.GetResult, ShownUnescaped, PlainInteger, Neutral, Then, Show;
    NeutralShow(Payload, ExecText, 0, BadCharacters);
    NeutralShow(Payload, ContText, 0, BadCharacters);
    forall cont: nat ensures Neutral(ContItems(j, cont).items) {
      var id := match j.GetResult(cont, "pactId")
                case Err(_) => NOTHING
                case Ok(v) => if ShownUnescaped(j, v) then Show(PactId, Std, v) else Refuse(BadCharacters);
      var step := match j.GetResult(cont, "step")
                  case Err(_) => NOTHING
                  case Ok(v) => if PlainInteger(j, v) then Show(Title.Step, Std, v) else Refuse(BadCharacters);
      NeutralShow(PactId, Std, if j.GetResult(cont, "pactId").Ok? then j.GetResult(cont, "pactId").value else 0,
        BadCharacters);
      NeutralShow(Title.Step, Std, if j.GetResult(cont, "step").Ok? then j.GetResult(cont, "step").value else 0,
        BadCharacters);
      NeutralThen(id, step);
      NeutralThen(Say(Payload, ContText), Then(id, step));
    }
  }

  lemma {:induction false} TimeNeutral(j: Json)
    ensures Neutral(TimeItems(j).items) && Neutral(ExpertItems().items)
  {
    hide JsonData.GetResult;
  }

  lemma {:induction false} ExpertNeutral(j: Json)
    ensures Neutral(Then(ExpertMeta(j), ExpertItems()).items)
  {
    hide PayloadItems, TimeItems, ExpertItems, ValidateMeta, Neutral, Then;
    PayloadNeutral(j);
    TimeNeutral(j);
    NeutralShow(Payload, ExecText, 0, BadCharacters);
    NeutralThen(PayloadItems(j), if ValidateMeta(j).Err? then NOTHING else TimeItems(j));
    NeutralThen(ExpertMeta(j), ExpertItems());
  }

  lemma {:induction false} NeutralAdds(a: seq<Item>, b: seq<Item>)
    requires Neutral(b)
    ensures GrantItems(a + b) == GrantItems(a) && (NeedsBlind(a + b) <==> NeedsBlind(a))
  {
    GrantItemsCat(a, b);
    forall i | i in b ensures !IsBlind(i.render) {
      var k :| 0 <= k < |b| && b[k] == i;
    }
  }

  // ---- The review of a document ----------------------------------------------------------------

  /**
   The review `r` is of element `k` of `signers`, the only one that names the device key `hex`: it is blind
   unless `meta` is recognised and the entry's scope is clear, and it says exactly what that scope grants. No
   capability of the entry hides its name behind an escape.
   */
  ghost predicate Reviews(j: Json, root: Syntax.Value, hex: Bytes, r: ParserSpec.Review, k: nat) {
    && Get(root, "signers").Some? && Get(root, "signers").value.Arr?
    && TheDevice(Get(root, "signers").value.elems, hex, k)
    && var entry := Get(root, "signers").value.elems[k].value;
    && entry.Obj? && NamesPlain(entry)
    && (NeedsBlind(r.items) <==> !(MetaRecognised(root) && ClearScope(entry)))
    && Mirrors(j, GrantItems(r.items), Granted(CapabilitiesLines(entry)))
    && (!NeedsBlind(r.items) ==> Mirrors(j, GrantItems(r.items), Stated(ClistOf(entry))))
  }

  lemma {:induction false} AcceptedItems(j: Json, key: Option<Key32>, digest: Option<Key32>, expert: bool)
    requires TxReview(j, key, digest, expert).Ok?
    ensures key.Some? && FindDeviceSigner(j, T.HexLower(key.value)).Ok?
    ensures var (at, n) := FindDeviceSigner(j, T.HexLower(key.value)).value;
            var b := TxItems(j, at, n);
            var items := TxReview(j, key, digest, expert).value.items;
            && b.failure == None && GrantItems(items) == GrantItems(b.items) &&
              (NeedsBlind(items) <==> NeedsBlind(b.items))
  {
    hide JsonData.GetResult, FindDeviceSigner, TxItems, ExpertMeta, ExpertItems, Then, NeedsBlind, GrantItems,
      HashShown, T.HexLower;
    var (at, n) := FindDeviceSigner(j, T.HexLower(key.value)).value;
    assert [] + TxItems(j, at, n).items == TxItems(j, at, n).items;
    ExpertNeutral(j);
    NeutralAdds(TxItems(j, at, n).items, Then(ExpertMeta(j), ExpertItems()).items);
  }

  lemma {:induction false} AcceptedDocument(j: Json, root: Syntax.Value, key: Option<Key32>, digest: Option<Key32>,
      expert: bool) returns (k: nat)
    requires Node(j, 0, root) && root.Obj? && TxReview(j, key, digest, expert).Ok?
    ensures key.Some? && Reviews(j, root, T.HexLower(key.value), TxReview(j, key, digest, expert).value, k)
  {
    hide Node, Mirrors, TxReview, TxItems, FindDeviceSigner, NeedsBlind, GrantItems, Granted, ReviewLines,
      CapabilitiesLines, Stated, Child, ClistOf, MetaRecognised, ClearScope, T.HexLower, KeysPlain, Names,
      NamesPlain;
    AcceptedItems(j, key, digest, expert);
    var hex := T.HexLower(key.value);
    var (at, n) := FindDeviceSigner(j, hex).value;
    k := AcceptedReview(j, root, hex, at, n);
    var entry := Get(root, "signers").value.elems[k].value;
    ClearSigned(j, root, at, entry, n);
    GrantsMirror(j, TxItems(j, at, n).items, ReviewLines(root, entry, n));
    GrantsOfReview(root, entry, n);
    if !NeedsBlind(TxItems(j, at, n).items) { PaymentsShown(root, entry, n); }
  }

  /** Every accepted text is that of one object, and its review is that of the object's tree. */
  lemma {:induction false} AcceptedText(c: Crypto, path: Path, text: Bytes, expert: bool) returns (d: Doc, k: nat)
    requires |text| < UNSET && ReviewText(c, path, text, expert).Ok?
    ensures c.publicKey(path).Some? && Integrity.ReadJson(text).Ok?
    ensures Integrity.Readable(d) && PrintDoc(d) == text && d.root.Obj?
    ensures Reviews(Integrity.ReadJson(text).value, d.root, T.HexLower(c.publicKey(path).value),
                    ReviewText(c, path, text, expert).value, k)
  {
    hide Integrity.ReadJson, Node, Reviews, TxReview, Shows, T.HexLower, Integrity.Readable;
    d := RenderProof.ReadDocument(text);
    k := AcceptedDocument(Integrity.ReadJson(text).value, d.root, c.publicKey(path), c.blake2b(text), expert);
  }
}
