/**
 Whole runs and what the screen then says: every review that any run ends in, against the bytes that the
 signing command carried.
 */
module EndToEnd {
  import opened Base
  import opened Buffering
  import opened Framing
  import opened Reassembly
  import opened ParserSpec
  import opened AppSpec
  import opened Runs
  import opened Acceptance
  import opened TransferReview
  import opened Display
  import opened Screen
  import Notations
  import ItemTexts
  import RequestTexts
  import ReviewTexts
  import Json
  import Syntax
  import JsmnSpec
  import Integrity
  import ItemSpec
  import T = TransferSpec

  /** The run ends in a review of a transaction of this type, blind or not. */
  predicate EndsInReview(c: Crypto, es: seq<Event>, txType: TxType, blind: bool) {
    hide StateAfter, Next;
    && es != [] && LastOutput(c, es) == Act(ReviewTx(blind))
    && StateAfter(c, es).pending.PendingSign? && TypeOf(StateAfter(c, es).pending.kind) == txType
    && StateAfter(c, es).parsed.Some?
  }

  lemma {:induction false} ReviewOfRun(c: Crypto, es: seq<Event>, txType: TxType, blind: bool)
    requires ProperRun(es) && EndsInReview(c, es, txType, blind)
    ensures es[|es| - 1].Command?
    ensures Reviewed(c, es[|es| - 1].env.expert, StateAfter(c, es), HistoryAfter(c, es))
    ensures BlindAllowed(es[|es| - 1].env, StateAfter(c, es), blind)
  {
    hide StateAfter, HistoryAfter, Next, Agrees, Reviewed, BlindAllowed, Proper;
    RunAgrees(c, es);
  }

  /** What a pending review was parsed from. */
  lemma {:induction false} ParsedFrom(c: Crypto, expert: bool, t: State, h: History)
    requires Reviewed(c, expert, t, h) && t.parsed.Some? && |t.tx| <= FLASH_CAP
    ensures Ok(t.parsed.value) ==
            ParseTx(c, t.signPath, TypeOf(t.pending.kind), Message(h, t.pending.kind), [], expert).1
    ensures TypeOf(t.pending.kind) == TxTransfer ==>
              Message(h, t.pending.kind) == h.received && t.template == t.parsed.value.text
    ensures TypeOf(t.pending.kind) == TxJson ==> t.parsed.value.text == Message(h, t.pending.kind)
    ensures |Message(h, t.pending.kind)| <= FLASH_CAP
  {
    hide ParseTx, PathAt, PrefixOk;
  }

  /**
   Whenever a run ends in the review of a structured transfer, the bytes received are a request; the review is
   blind exactly if the request names a token; and it says what the request asks for.
   */
  lemma {:induction false} TransferReviews(c: Crypto, es: seq<Event>, blind: bool)
    requires ProperRun(es) && EndsInReview(c, es, TxTransfer, blind)
    ensures T.ReadRequest(HistoryAfter(c, es).received).Ok? && c.publicKey(StateAfter(c, es).signPath).Some?
    ensures var s := StateAfter(c, es);
            var (txType, f) := T.ReadRequest(HistoryAfter(c, es).received).value;
            && (blind <==> T.UsesNamespace(f))
            && Integrity.ReadJson(s.template).Ok?
            && Says(Integrity.ReadJson(s.template).value, s.parsed.value.review) ==
               if T.UsesNamespace(f) then TokenSays(f, txType)
               else CoinSays(f, txType, T.HexLower(c.publicKey(s.signPath).value))
  {
    hide StateAfter, HistoryAfter, LastOutput, Agrees, Reviewed, ParseTx, T.ReadRequest, T.UsesNamespace,
      Integrity.ReadJson, Says, TokenSays, CoinSays, T.HexLower, ItemSpec.NeedsBlind, Proper;
    var s, h := StateAfter(c, es), HistoryAfter(c, es);
    ReviewOfRun(c, es, TxTransfer, blind);
    RunFits(c, es);
    var expert := es[|es| - 1].env.expert;
    ParsedFrom(c, expert, s, h);
    TransferSays(c, s.signPath, h.received, [], expert);
  }

  lemma {:induction false} RunFits(c: Crypto, es: seq<Event>)
    requires ProperRun(es)
    ensures |StateAfter(c, es).tx| <= FLASH_CAP
  {
    hide StateAfter, HistoryAfter, Kept, LastOutput, Proper;
    RunAgrees(c, es);
  }

  /**
   Whenever a run ends in the review of a JSON transaction, its message is the text of one object; the review is
   of the object's only entry that names the device; it is blind unless `meta` and that entry's scope are
   recognised; and it says what the scope grants.
   */
  lemma {:induction false} JsonReviews(c: Crypto, es: seq<Event>, blind: bool) returns (d: Syntax.Doc, k: nat)
    requires ProperRun(es) && EndsInReview(c, es, TxJson, blind)
    ensures var s := StateAfter(c, es);
            var msg := Message(HistoryAfter(c, es), s.pending.kind);
            && Integrity.ReadJson(msg).Ok? && Syntax.PrintDoc(d) == msg && d.root.Obj? && c.publicKey(s.signPath).Some?
            && Reviews(Integrity.ReadJson(msg).value, d.root, T.HexLower(c.publicKey(s.signPath).value),
              s.parsed.value.review, k)
            && (blind <==> ItemSpec.NeedsBlind(s.parsed.value.review.items))
  {
    hide StateAfter, HistoryAfter, LastOutput, Agrees, Reviewed, Integrity.ReadJson, ReviewText, Reviews, T.HexLower,
      ItemSpec.NeedsBlind, Proper, Message, Integrity.Readable, Syntax.PrintDoc;
    var s, h := StateAfter(c, es), HistoryAfter(c, es);
    ReviewOfRun(c, es, TxJson, blind);
    RunFits(c, es);
    var expert := es[|es| - 1].env.expert;
    ParsedFrom(c, expert, s, h);
    d, k := AcceptedText(c, s.signPath, Message(h, s.pending.kind), expert);
  }

  // ---- The screen ------------------------------------------------------------------------------

  lemma {:induction false} ReceivedBytes(c: Crypto, es: seq<Event>)
    requires ProperRun(es)
    ensures AllBytes(HistoryAfter(c, es).received)
    decreases |es|
  {
    hide StateAfter, PathAt;
    if es != [] {
      var front := es[..|es| - 1];
      assert Proper(es[|es| - 1]) && forall i | 0 <= i < |front| :: Proper(front[i]);
      ReceivedBytes(c, front);
      TrackBytes(HistoryAfter(c, front), StateAfter(c, front), es[|es| - 1]);
    }
  }

  lemma {:induction false} TrackBytes(h: History, s: State, e: Event)
    requires AllBytes(h.received) && Proper(e)
    ensures AllBytes(Track(h, s, e).received)
  {
    hide PathAt, Raw, AllBytes, ReadFrom, AfterPath, Le32;
    if e.Command? {
      var a := e.apdu;
      RawBytes(a);
      AllBytesCat(h.received, a.data);
      AllBytesCat(h.received, ReadFrom(Raw(a), 5));
    }
  }

  lemma {:induction false} RawBytes(a: Apdu)
    requires AllBytes(a.data)
    ensures AllBytes(ReadFrom(Raw(a), 5)) && AllBytes(AfterPath(Raw(a))) && AllBytes([])
    ensures |a.data| >= 4 ==> AllBytes(a.data[4..])
  {
  }

  /** A run that ends in a clear review has reviewed its message, and that review is clear. */
  lemma {:induction false} ClearRun(c: Crypto, es: seq<Event>, txType: TxType)
    requires ProperRun(es) && EndsInReview(c, es, txType, false)
    ensures es[|es| - 1].Command?
    ensures var s, msg := StateAfter(c, es), Message(HistoryAfter(c, es), StateAfter(c, es).pending.kind);
            var a := Signing(c, s.signPath, txType, msg, es[|es| - 1].env.expert);
            a.Clear() && a.Result() == Ok(s.parsed.value)
  {
    hide StateAfter, HistoryAfter, LastOutput, Agrees, Reviewed, ParseTx, ItemSpec.NeedsBlind, Proper, AllBytes;
    var s, h := StateAfter(c, es), HistoryAfter(c, es);
    ReviewOfRun(c, es, txType, false);
    RunFits(c, es);
    ParsedFrom(c, es[|es| - 1].env.expert, s, h);
    ReceivedBytes(c, es);
    MessageBytes(h, s.pending.kind);
  }

  lemma {:induction false} MessageBytes(h: History, kind: SignKind)
    requires AllBytes(h.received)
    ensures AllBytes(Message(h, kind))
  {
  }

  /**
   On the screens of any two runs that end in clear reviews, or of one, two values look the same only if they are the
   same bytes; and no value has a backslash.
   */
  lemma {:induction false} ClearScreens(c: Crypto, es: seq<Event>, t1: TxType, i: nat, fs: seq<Event>, t2: TxType,
      k: nat)
    requires ProperRun(es) && EndsInReview(c, es, t1, false) && i < |StateAfter(c, es).parsed.value.review.items|
    requires ProperRun(fs) && EndsInReview(c, fs, t2, false) && k < |StateAfter(c, fs).parsed.value.review.items|
    ensures var v, w := ShownTexts(t1, StateAfter(c, es).parsed.value)[i],
                        ShownTexts(t2, StateAfter(c, fs).parsed.value)[k];
            && v.Ok? && !Json.HasBackslash(v.value) && w.Ok?
            && (Escaped(v.value) == Escaped(w.value) ==> v == w)
  {
    hide StateAfter, HistoryAfter, LastOutput, ParseTx, ItemSpec.NeedsBlind, Proper, AllBytes, Escaped, ShownTexts,
      Json.HasBackslash;
    var s, u := StateAfter(c, es), StateAfter(c, fs);
    ClearRun(c, es, t1);
    ClearRun(c, fs, t2);
    var a := Signing(c, s.signPath, t1, Message(HistoryAfter(c, es), s.pending.kind), es[|es| - 1].env.expert);
    var b := Signing(c, u.signPath, t2, Message(HistoryAfter(c, fs), u.pending.kind), fs[|fs| - 1].env.expert);
    ClearTextsDiffer(a, i, b, k);
    BackslashOnlyInArguments(c, a.path, t1, a.msg, [], a.expert);
  }

  // ---- What the pending review says ------------------------------------------------------------

  /** A pending review was parsed from the message carried. */
  lemma {:induction false} PendingParsed(c: Crypto, es: seq<Event>) returns (expert: bool)
    requires ProperRun(es) && StateAfter(c, es).pending.PendingSign?
    ensures es != [] && es[|es| - 1].Command? && expert == es[|es| - 1].env.expert && StateAfter(c, es).parsed.Some?
    ensures var s := StateAfter(c, es);
            var msg := Message(HistoryAfter(c, es), s.pending.kind);
            && ParseTx(c, s.signPath, TypeOf(s.pending.kind), msg, [], expert).1 == Ok(s.parsed.value)
            && |msg| <= FLASH_CAP
            && (TypeOf(s.pending.kind) == TxTransfer ==> msg == HistoryAfter(c, es).received)
            && (TypeOf(s.pending.kind) == TxJson ==> s.parsed.value.text == msg)
  {
    hide StateAfter, HistoryAfter, LastOutput, Agrees, Reviewed, ParseTx, Proper, Message;
    PendingReviewed(c, es);
    RunFits(c, es);
    expert := es[|es| - 1].env.expert;
    ParsedGiven(c, expert, StateAfter(c, es), HistoryAfter(c, es));
    ParsedFrom(c, expert, StateAfter(c, es), HistoryAfter(c, es));
  }

  lemma {:induction false} ParsedGiven(c: Crypto, expert: bool, t: State, h: History)
    requires Reviewed(c, expert, t, h)
    ensures t.parsed.Some?
  {
    hide ParseTx, PathAt, PrefixOk, Body, Told;
  }

  /**
   While the review of a structured transfer is pending, its screens are those of the request carried: every title and
   every text, from its fields.
   */
  lemma {:induction false} RequestScreens(c: Crypto, es: seq<Event>) returns (fee: Bytes, hash: Bytes)
    requires ProperRun(es) && StateAfter(c, es).pending.PendingSign?
    requires TypeOf(StateAfter(c, es).pending.kind) == TxTransfer
    ensures es != [] && es[|es| - 1].Command? && StateAfter(c, es).parsed.Some?
    ensures T.ReadRequest(HistoryAfter(c, es).received).Ok? && c.publicKey(StateAfter(c, es).signPath).Some?
    ensures var s := StateAfter(c, es);
            var p, (txType, f) := s.parsed.value, T.ReadRequest(HistoryAfter(c, es).received).value;
            var addr := T.HexLower(c.publicKey(s.signPath).value);
            && ItemTexts.IsFee(fee, f[T.GAS_LIMIT], f[T.GAS_PRICE])
            && c.blake2b(p.text).Some? && Notations.Base64Spells(hash, c.blake2b(p.text).value)
            && RequestTexts.ScreensSay(ShownDocument(TxTransfer, p.text), p.review,
                 RequestTexts.RequestSays(f, txType, addr, fee) +
                 if es[|es| - 1].env.expert then RequestTexts.ExpertSays(f, addr, hash) else [])
  {
    hide StateAfter, HistoryAfter, LastOutput, ParseTx, Proper, Message, T.ReadRequest, T.HexLower, Integrity.ReadJson,
      RequestTexts.RequestSays, RequestTexts.ExpertSays, RequestTexts.ScreensSay, ItemTexts.IsFee,
      Notations.Base64Spells;
    var expert := PendingParsed(c, es);
    fee, hash := RequestTexts.RequestScreens(c, StateAfter(c, es).signPath, HistoryAfter(c, es).received, [], expert);
  }

  /** While the review of a bare hash is pending, its screens are a warning and the hash carried. */
  lemma {:induction false} HashScreens(c: Crypto, es: seq<Event>) returns (hash: Bytes)
    requires ProperRun(es) && StateAfter(c, es).pending.PendingSign?
    requires TypeOf(StateAfter(c, es).pending.kind) == TxHash
    ensures es != [] && es[|es| - 1].Command? && StateAfter(c, es).parsed.Some?
    ensures var s := StateAfter(c, es);
            var key, expert := c.publicKey(s.signPath), es[|es| - 1].env.expert;
            && Notations.Base64Spells(hash, Message(HistoryAfter(c, es), s.pending.kind)) && (expert ==> key.Some?)
            && RequestTexts.ScreensSay(ShownDocument(TxHash, s.parsed.value.text), s.parsed.value.review,
                 RequestTexts.HashSays(hash, if expert then T.HexLower(key.value) else [], expert))
  {
    hide StateAfter, HistoryAfter, LastOutput, ParseTx, Proper, Message, T.HexLower, RequestTexts.HashSays,
      RequestTexts.ScreensSay, Notations.Base64Spells;
    var expert := PendingParsed(c, es);
    var s := StateAfter(c, es);
    hash := RequestTexts.HashScreens(c, s.signPath, Message(HistoryAfter(c, es), s.pending.kind), [], expert);
  }

  /**
   While the review of a JSON transaction is pending, every item says what the line of the message's tree says that it
   stands for, for the device's own entry.
   */
  lemma {:induction false} JsonScreens(c: Crypto, es: seq<Event>) returns (d: Syntax.Doc, k: nat)
    requires ProperRun(es) && StateAfter(c, es).pending.PendingSign?
    requires TypeOf(StateAfter(c, es).pending.kind) == TxJson
    ensures es != [] && es[|es| - 1].Command? && StateAfter(c, es).parsed.Some?
    ensures var s := StateAfter(c, es);
            var msg, key, expert := Message(HistoryAfter(c, es), s.pending.kind), c.publicKey(s.signPath),
                                    es[|es| - 1].env.expert;
            && Integrity.Readable(d) && Syntax.PrintDoc(d) == msg && key.Some? && c.blake2b(msg).Some?
            && ReviewTexts.SaysTree(ShownDocument(TxJson, msg), s.parsed.value.review, d.root, k,
                 T.HexLower(key.value), c.blake2b(msg).value, expert)
  {
    hide StateAfter, HistoryAfter, LastOutput, ReviewText, Proper, Message, T.HexLower, Integrity.ReadJson,
      ReviewTexts.SaysTree, Integrity.Readable, Syntax.PrintDoc;
    var expert := PendingParsed(c, es);
    var s := StateAfter(c, es);
    d, k := ReviewTexts.TextSays(c, s.signPath, Message(HistoryAfter(c, es), s.pending.kind), expert);
  }
}
