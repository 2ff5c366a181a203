/** Which messages a device brings up for review, by type: one condition on the message for each. */
module Reviewable {
  import opened Base
  import opened Errors
  import opened Syntax
  import opened JsmnSpec
  import opened Json
  import opened Nodes
  import opened ItemSpec
  import opened Review
  import opened Signers
  import opened RenderSpec
  import opened ParserSpec
  import opened AppSpec
  import opened JsonAcceptance
  import Acceptance
  import ClearSigning
  import Delivery
  import Integrity
  import Lookups
  import Notations
  import RenderProof
  import RequestTexts
  import TxParser
  import T = TransferSpec

  // ---- JSON ------------------------------------------------------------------------------------

  /** A tree whose entry for the device can be reviewed, with blind signing or because its scope is clear. */
  ghost predicate TreeReviewed(c: Crypto, env: Env, path: Path, msg: Bytes, d: Doc, k: nat)
    requires c.publicKey(path).Some? && c.blake2b(msg).Some?
  {
    && Integrity.Readable(d) && PrintDoc(d) == msg
    && TreeFits(DocumentOf(msg), d.root, T.HexLower(c.publicKey(path).value), c.blake2b(msg).value, env.expert, k)
    && (env.blindSigning || TreeClear(d.root, k))
  }

  /** `meta` and the scope of entry `k` are recognised. */
  predicate TreeClear(root: Value, k: nat) {
    && Get(root, "signers").Some? && Get(root, "signers").value.Arr? && k < |Get(root, "signers").value.elems|
    && MetaRecognised(root) && ClearSigning.ClearScope(Get(root, "signers").value.elems[k].value)
  }

  ghost predicate JsonReviewable(c: Crypto, env: Env, path: Path, msg: Bytes) {
    c.publicKey(path).Some? && c.blake2b(msg).Some? && exists d: Doc, k: nat :: TreeReviewed(c, env, path, msg, d, k)
  }

  lemma {:induction false} OneDevice(elems: seq<Elem>, hex: Bytes, a: nat, b: nat)
    requires TheDevice(elems, hex, a) && TheDevice(elems, hex, b)
    ensures a == b
  {
    hide Names, KeysPlain;
    assert Names(elems[a].value, hex);
  }

  /** Whether the review of a tree is blind. */
  lemma {:induction false} TreeBlind(c: Crypto, path: Path, msg: Bytes, expert: bool, d: Doc, k: nat)
    requires |msg| < UNSET && ReviewText(c, path, msg, expert).Ok? && Integrity.Readable(d) && PrintDoc(d) == msg
    requires c.publicKey(path).Some? && c.blake2b(msg).Some?
    requires TreeFits(DocumentOf(msg), d.root, T.HexLower(c.publicKey(path).value), c.blake2b(msg).value, expert, k)
    ensures NeedsBlind(ReviewText(c, path, msg, expert).value.items) <==> !TreeClear(d.root, k)
  {
    hide Integrity.ReadJson, Node, TxReview, Shows, T.HexLower, NeedsBlind, MetaRecognised, ClearSigning.ClearScope,
      Names, KeysPlain, Mirrors, EntryFits, ExpertFits, PrintDoc, Valid, Integrity.SoundKeys, Lookups.Child, NamesPlain,
      Lookups.Located;
    ReadsFirst(c, path, msg, expert);
    Integrity.ReadPrinted(d);
    Integrity.RootLocated(d);
    TreeNode(DocumentOf(msg), d);
    var n := Acceptance.AcceptedDocument(DocumentOf(msg), d.root, c.publicKey(path), c.blake2b(msg), expert);
    OneDevice(Get(d.root, "signers").value.elems, T.HexLower(c.publicKey(path).value), k, n);
  }

  lemma {:induction false} NothingReads(c: Crypto, path: Path, expert: bool)
    ensures ReviewText(c, path, [], expert).Err?
  {
    hide Integrity.ReadJson, TxReview, Shows, Valid, Len, Integrity.SoundKeys;
    if ReviewText(c, path, [], expert).Ok? {
      ReadsFirst(c, path, [], expert);
      var d := RenderProof.ReadDocument([]);
      PrintLength(d.root, d.trail);
      ObjectLength(d.root);
    }
  }

  lemma {:induction false} ObjectLength(v: Value)
    requires v.Obj?
    ensures Len(v) >= 1
  {
  }

  /** A JSON transaction is parsed exactly if its tree can be reviewed. */
  lemma {:induction false} JsonParsed(c: Crypto, env: Env, path: Path, msg: Bytes, template: Bytes)
    requires |msg| < UNSET
    ensures var r := TxParse(c, path, TxJson, msg, template, env.expert, env.blindSigning).1;
            && (r.Ok? <==> JsonReviewable(c, env, path, msg))
            && (r.Ok? ==> (r.value.1 <==> NeedsBlind(r.value.0.review.items)))
  {
    hide ReviewText, TreeFits, Integrity.Readable, PrintDoc, T.HexLower, NeedsBlind, TreeClear;
    var key, digest := c.publicKey(path), c.blake2b(msg);
    TextAccepted(c, path, msg, env.expert);
    if msg == [] { NothingReads(c, path, env.expert); }
    if JsonReviewable(c, env, path, msg) {
      var d: Doc, k: nat :| TreeReviewed(c, env, path, msg, d, k);
      FitText(c, path, d, env.expert, k);
      TreeBlind(c, path, msg, env.expert, d, k);
    }
    if ReviewText(c, path, msg, env.expert).Ok? {
      var d: Doc, k: nat :| Integrity.Readable(d) && PrintDoc(d) == msg &&
        TreeFits(DocumentOf(msg), d.root, T.HexLower(key.value), digest.value, env.expert, k);
      TreeBlind(c, path, msg, env.expert, d, k);
      assert TreeReviewed(c, env, path, msg, d, k) <==> env.blindSigning || TreeClear(d.root, k);
    }
  }

  // ---- A bare hash -----------------------------------------------------------------------------

  /** Always blind; in expert mode the device's key is shown as well. */
  predicate HashReviewable(c: Crypto, env: Env, path: Path, msg: Bytes) {
    env.blindSigning && |msg| == HASH_LEN && (env.expert ==> c.publicKey(path).Some?)
  }

  lemma {:induction false} HashShows(key: Option<Key32>, msg: Key32, expert: bool)
    requires expert ==> key.Some?
    ensures Shows(JsonData([], []), HashReview(msg, key, expert))
  {
    hide HashShown, T.HexLower, Rendered;
    var j, r := JsonData([], []), HashReview(msg, key, expert);
    RequestTexts.WarningRendered(j, r.items[0], r.context);
    RequestTexts.ContextRendered(j, r.items[1], r.context);
    if expert {
      RequestTexts.ContextRendered(j, r.items[2], r.context);
      RequestTexts.ContextRendered(j, r.items[3], r.context);
    }
  }

  lemma {:induction false} HashParses(c: Crypto, env: Env, path: Path, msg: Bytes, template: Bytes)
    ensures var r := TxParse(c, path, TxHash, msg, template, env.expert, env.blindSigning).1;
            && (r.Ok? <==> HashReviewable(c, env, path, msg))
            && (r.Ok? ==> r.value.1)
  {
    hide HashReview, Shows, NeedsBlind;
    if |msg| == HASH_LEN {
      var key := c.publicKey(path);
      if env.expert ==> key.Some? { HashShows(key, msg, env.expert); }
      if Shows(JsonData([], []), HashReview(msg, key, env.expert)) { RequestTexts.HashFits(key, msg, env.expert); }
    }
  }

  // ---- Any message -----------------------------------------------------------------------------

  /** The message can be reviewed as its type, with that path. */
  ghost predicate CanReview(c: Crypto, env: Env, path: Path, txType: TxType, msg: Bytes) {
    match txType
    case TxJson => JsonReviewable(c, env, path, msg)
    case TxHash => HashReviewable(c, env, path, msg)
    case TxTransfer => Delivery.Reviewable(c, env, path, msg)
  }

  /** The parse of the buffer succeeds exactly if the message can be reviewed. */
  lemma {:induction false} ParsesIfReviewable(c: Crypto, env: Env, s: State, txType: TxType, len: nat)
    requires len <= |s.tx| < UNSET && (txType == TxTransfer ==> len == |s.tx|)
    ensures ParseStep(c, env, s, txType, len).1.Ok? <==> CanReview(c, env, s.signPath, txType, s.tx[..len])
  {
    hide TxParse, JsonReviewable, HashReviewable, Delivery.Reviewable;
    match txType
    case TxJson => JsonParsed(c, env, s.signPath, s.tx[..len], s.template);
    case TxHash => HashParses(c, env, s.signPath, s.tx[..len], s.template);
    case TxTransfer =>
      Delivery.ParseIs(c, env, s);
      assert s.tx[..len] == s.tx;
  }
}
