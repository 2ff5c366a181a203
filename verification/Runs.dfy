/**
 Whole runs of the application: any sequence of commands and user answers. A history records what the
 signing commands have carried; the state never disagrees with it.
 */
module Runs {
  import opened Base
  import opened Errors
  import opened Buffering
  import opened Framing
  import opened ParserSpec
  import opened AppSpec
  import opened Reassembly
  import opened Completion
  import ItemSpec
  import T = TransferSpec

  // ---- Runs ------------------------------------------------------------------------------------

  datatype Event = Command(env: Env, apdu: Apdu) | AddressAnswer(approved: bool) | SignAnswer(approved: bool)

  datatype Output = Act(action: Action) | Answer(reply: Reply)

  function Next(c: Crypto, s: State, e: Event): (State, Output) {
    match e
    case Command(env, a) => (Handle(c, env, s, a).0, Act(Handle(c, env, s, a).1))
    case AddressAnswer(approved) => (AddressDone(s, approved).0, Answer(AddressDone(s, approved).1))
    case SignAnswer(approved) => (SignDone(c, s, approved).0, Answer(SignDone(c, s, approved).1))
  }

  /** The data of every command is bytes. */
  predicate Proper(e: Event) { e.Command? ==> AllBytes(e.apdu.data) }

  predicate ProperRun(es: seq<Event>) { forall i | 0 <= i < |es| :: Proper(es[i]) }

  function StateAfter(c: Crypto, es: seq<Event>): State {
    hide Handle;
    if es == [] then INITIAL else Next(c, StateAfter(c, es[..|es| - 1]), es[|es| - 1]).0
  }

  /** The output of the last event. */
  function LastOutput(c: Crypto, es: seq<Event>): Output
    requires es != []
  {
    hide Handle;
    Next(c, StateAfter(c, es[..|es| - 1]), es[|es| - 1]).1
  }

  lemma {:induction false} NoEvents(c: Crypto)
    ensures ProperRun([]) && StateAfter(c, []) == INITIAL
  {
  }

  /** One event more. */
  lemma {:induction false} StateNext(c: Crypto, es: seq<Event>, e: Event)
    ensures StateAfter(c, es + [e]) == Next(c, StateAfter(c, es), e).0
    ensures LastOutput(c, es + [e]) == Next(c, StateAfter(c, es), e).1
  {
    hide Next;
    assert (es + [e])[..|es|] == es;
  }

  // ---- The history -----------------------------------------------------------------------------

  /**
   The latest signing stream: its chunks, and what they have carried, that is, the bytes of its message, the path
   of its first chunk (modern commands and 0x10), and the length announced for the payload (0x03 and 0x04).
   */
  datatype History = History(chunks: seq<Apdu>, received: Bytes, path: Path, announced: nat)

  const NO_HISTORY := History([], [], ZERO_PATH, 0)

  predicate IsModernSign(ins: nat) { ins in {INS_SIGN, INS_SIGN_HASH, INS_SIGN_TRANSFER} }

  predicate IsLegacySign(ins: nat) { ins == INS_LEGACY_SIGN_JSON || ins == INS_LEGACY_SIGN_HASH }

  /** A command that gets as far as its handler. */
  predicate Served(e: Event) { e.Command? && e.apdu.cla == CLA && NeedsPin(e.apdu.ins) && e.env.pinValidated }

  /** One more chunk, which adds `data` to what is received. */
  function More(h: History, a: Apdu, data: Bytes): History {
    h.(chunks := h.chunks + [a], received := h.received + data)
  }

  function TrackModern(h: History, a: Apdu): History {
    if a.p1 == P1_INIT then History([a], [], if |a.data| >= 20 then PathAt(a.data, 0, 5) else ZERO_PATH, 0)
    else if a.p1 == P1_ADD || a.p1 == P1_LAST then More(h, a, a.data)
    else h
  }

  function TrackLegacySign(h: History, first: bool, a: Apdu): History {
    if !first then More(h, a, a.data)
    else if a.ins == INS_LEGACY_SIGN_HASH then h.(chunks := [a], received := a.data, announced := HASH_LEN)
    else if |a.data| < 4 then h
    else h.(chunks := [a], received := a.data[4..], announced := Le32(a.data, 0))
  }

  function TrackTransfer(h: History, first: bool, a: Apdu): History {
    var buf := Raw(a);
    if !first then More(h, a, ReadFrom(buf, 5))
    else
      var qty := if |buf| > 5 then buf[5] as int else 0;
      var path := if 2 <= qty <= 5 && 6 + 4 * qty <= |buf| then PathAt(buf, 6, qty) else ZERO_PATH;
      History([a], AfterPath(buf), path, 0)
  }

  /** The history after an event: only signing commands change it. */
  function Track(h: History, s: State, e: Event): History {
    if !Served(e) then h
    else if IsModernSign(e.apdu.ins) then TrackModern(h, e.apdu)
    else if IsLegacySign(e.apdu.ins) then TrackLegacySign(h, s.stream == NoStream, e.apdu)
    else if e.apdu.ins == INS_LEGACY_TRANSFER then TrackTransfer(h, s.stream == NoStream, e.apdu)
    else h
  }

  function HistoryAfter(c: Crypto, es: seq<Event>): History {
    hide StateAfter;
    if es == [] then NO_HISTORY
    else
      var front := es[..|es| - 1];
      Track(HistoryAfter(c, front), StateAfter(c, front), es[|es| - 1])
  }

  lemma {:induction false} NoHistory(c: Crypto)
    ensures HistoryAfter(c, []) == NO_HISTORY
  {
  }

  lemma {:induction false} HistoryNext(c: Crypto, es: seq<Event>, e: Event)
    ensures HistoryAfter(c, es + [e]) == Track(HistoryAfter(c, es), StateAfter(c, es), e)
  {
    hide StateAfter, Track;
    assert (es + [e])[..|es|] == es;
  }

  // ---- The chunks of one command ---------------------------------------------------------------

  /** The data of the chunks, in order. */
  function Data(chunks: seq<Apdu>): Bytes {
    if chunks == [] then [] else Data(chunks[..|chunks| - 1]) + chunks[|chunks| - 1].data
  }

  lemma {:induction false} DataMore(chunks: seq<Apdu>, a: Apdu)
    ensures Data(chunks + [a]) == Data(chunks) + a.data
  {
    assert (chunks + [a])[..|chunks|] == chunks;
  }

  lemma {:induction false} DataOne(a: Apdu)
    ensures Data([a]) == a.data
  {
    assert [a][..0] == [];
  }

  /** Every chunk carries the INS of the first. */
  predicate OneCommand(chunks: seq<Apdu>, ins: nat) {
    chunks != [] && forall i | 0 <= i < |chunks| :: chunks[i].ins == ins
  }

  /** No chunk has more data than 0x10 reads. */
  predicate Short(chunks: seq<Apdu>) { forall i | 0 <= i < |chunks| :: |chunks[i].data| <= LEGACY_CHUNK_SIZE }

  /** Where the message of a 0x03 or 0x10 stream starts: behind the announced length, or behind the path. */
  function Preamble(data: Bytes, ins: nat): nat {
    if ins == INS_LEGACY_SIGN_JSON then 4
    else if ins == INS_LEGACY_TRANSFER && data != [] then 1 + 4 * (data[0] as int)
    else 0
  }

  /**
   The chunks are of one command, a modern one from its first to its latest; and what is received is all of their
   data, behind the first chunk of a modern command, and behind the preamble otherwise. For 0x10, that is if no
   chunk is too long.
   */
  predicate Told(h: History, ins: nat) {
    && OneCommand(h.chunks, ins)
    && (IsModernSign(ins) ==>
          && h.chunks[0].p1 == P1_INIT && (forall i | 0 < i < |h.chunks| :: h.chunks[i].p1 in {P1_ADD, P1_LAST})
          && h.received == Data(h.chunks[1..]))
    && (!IsModernSign(ins) && (ins == INS_LEGACY_TRANSFER ==> Short(h.chunks)) ==>
          var n := Preamble(h.chunks[0].data, ins);
          n <= |h.chunks[0].data| && Data(h.chunks) == h.chunks[0].data[..n] + h.received)
  }

  lemma {:induction false} ToldModern(h: History, a: Apdu)
    requires IsModernSign(a.ins)
    ensures a.p1 == P1_INIT ==> Told(TrackModern(h, a), a.ins)
    ensures (a.p1 == P1_ADD || a.p1 == P1_LAST) && Told(h, a.ins) ==> Told(TrackModern(h, a), a.ins)
  {
    hide PathAt;
    if a.p1 == P1_INIT {
      assert [a][1..] == [];
    } else if Told(h, a.ins) {
      assert (h.chunks + [a])[1..] == h.chunks[1..] + [a];
      DataMore(h.chunks[1..], a);
    }
  }

  lemma {:induction false} ToldMore(h: History, a: Apdu, data: Bytes)
    requires !IsModernSign(a.ins) && Told(h, a.ins)
    requires a.ins == INS_LEGACY_TRANSFER ==> |a.data| > LEGACY_CHUNK_SIZE || data == a.data
    requires a.ins != INS_LEGACY_TRANSFER ==> data == a.data
    ensures Told(More(h, a, data), a.ins)
  {
    var more := More(h, a, data).chunks;
    DataMore(h.chunks, a);
    assert Short(more) ==> Short(h.chunks) && |more[|h.chunks|].data| <= 230;
    if a.ins == INS_LEGACY_TRANSFER ==> Short(more) {
      var head := h.chunks[0].data[..Preamble(h.chunks[0].data, a.ins)];
      assert head + (h.received + data) == head + h.received + data;
    }
  }

  lemma {:induction false} ToldLegacySign(h: History, first: bool, a: Apdu)
    requires IsLegacySign(a.ins) && (first && a.ins == INS_LEGACY_SIGN_JSON ==> |a.data| >= 4)
    requires !first ==> Told(h, a.ins)
    ensures Told(TrackLegacySign(h, first, a), a.ins)
  {
    hide Le32;
    if first {
      DataOne(a);
      assert a.data[..0] + a.data == a.data;
    } else {
      ToldMore(h, a, a.data);
    }
  }

  lemma {:induction false} ToldTransfer(h: History, first: bool, a: Apdu)
    requires a.ins == INS_LEGACY_TRANSFER && (!first ==> Told(h, a.ins))
    requires first ==> a.data != [] && 1 + 4 * (a.data[0] as int) <= |a.data|
    ensures Told(TrackTransfer(h, first, a), a.ins)
  {
    hide PathAt, Raw, ReadFrom, Told;
    if first {
      FirstTold(a, TrackTransfer(h, first, a));
    } else {
      if |a.data| <= LEGACY_CHUNK_SIZE { ReadWhole(a, 0); }
      ToldMore(h, a, ReadFrom(Raw(a), 5));
    }
  }

  lemma {:induction false} FirstTold(a: Apdu, h: History)
    requires a.ins == INS_LEGACY_TRANSFER && a.data != [] && 1 + 4 * (a.data[0] as int) <= |a.data|
    requires h.chunks == [a] && h.received == AfterPath(Raw(a))
    ensures Told(h, a.ins)
  {
    hide Raw, Data, AfterPath;
    OneChunk(a);
    if |a.data| <= LEGACY_CHUNK_SIZE { FirstWhole(a); }
  }

  lemma {:induction false} OneChunk(a: Apdu)
    ensures OneCommand([a], a.ins) && (Short([a]) <==> |a.data| <= LEGACY_CHUNK_SIZE)
  {
    assert [a][0] == a;
  }

  lemma {:induction false} FirstWhole(a: Apdu)
    requires a.data != [] && 1 + 4 * (a.data[0] as int) <= |a.data| <= LEGACY_CHUNK_SIZE
    ensures Data([a]) == a.data[..1 + 4 * (a.data[0] as int)] + AfterPath(Raw(a))
  {
    hide ReadFrom, Raw, Data;
    DataOne(a);
    RawHead(a);
    ReadWhole(a, 1 + 4 * (a.data[0] as int));
  }

  lemma {:induction false} RawHead(a: Apdu)
    requires a.data != []
    ensures |Raw(a)| > 5 && Raw(a)[5] == a.data[0]
  {
  }

  /** The data of an APDU that is not too long is read to its end. */
  lemma {:induction false} ReadWhole(a: Apdu, n: nat)
    requires n <= |a.data| <= LEGACY_CHUNK_SIZE
    ensures ReadFrom(Raw(a), 5 + n) == a.data[n..]
  {
    assert Raw(a)[5 + n..] == a.data[n..];
  }

  // ---- The invariant ---------------------------------------------------------------------------

  /** An open stream holds what its commands have carried, and is bound to their path. */
  ghost predicate Agrees(s: State, h: History) {
    && |s.tx| <= FLASH_CAP
    && match s.stream
       case NoStream => true
       case Modern(ins) =>
         && IsModernSign(ins) && Told(h, ins) && AllBytes(h.received)
         && s.tx == h.received && s.signPath == h.path && PrefixOk(h.path)
       case Legacy(ins) =>
         && Told(h, ins) && AllBytes(h.received)
         && if ins == INS_LEGACY_TRANSFER then Holding(s, h.received) && s.signPath == h.path && PrefixOk(h.path)
            else IsLegacySign(ins) && s.tx == h.received && s.payloadLength == h.announced
  }

  lemma {:induction false} AllBytesSlice(a: Bytes, i: nat, k: nat)
    requires AllBytes(a) && i <= k <= |a|
    ensures AllBytes(a[i..k])
  {
  }

  lemma {:induction false} RawBytes(a: Apdu)
    requires AllBytes(a.data)
    ensures AllBytes(Raw(a)) && |Raw(a)| >= 5
    ensures |a.data| <= 300 ==> Raw(a)[5..] == a.data
  {
  }

  lemma {:induction false} ReadFromBytes(buf: Bytes, lo: nat)
    requires AllBytes(buf)
    ensures AllBytes(ReadFrom(buf, lo))
  {
    assert ReadFrom(buf, lo) == [] ==> AllBytes(ReadFrom(buf, lo));
  }

  /** What a parse changes: the template, and what is reviewed. */
  lemma {:induction false} ParseLeaves(c: Crypto, env: Env, s: State, txType: TxType, len: nat)
    requires len <= |s.tx|
    ensures var (t, r) := ParseStep(c, env, s, txType, len);
            t == s.(template := t.template, parsed := t.parsed)
  {
    hide TxParse;
  }

  // ---- What a review is about ------------------------------------------------------------------

  /** The message of a pending review, from what was carried. */
  function Message(h: History, kind: SignKind): Bytes {
    match kind
    case SignLegacy(_, msgLen) => h.received[..Min(msgLen, |h.received|)]
    case _ => h.received
  }

  /** The review that is pending is that of the message, for the path. */
  ghost predicate Parses(c: Crypto, expert: bool, t: State, kind: SignKind, msg: Bytes) {
    && t.parsed.Some? && ParseTx(c, t.signPath, TypeOf(kind), msg, [], expert).1 == Ok(t.parsed.value)
    && (TypeOf(kind) == TxTransfer ==> t.template == t.parsed.value.text)
    && (TypeOf(kind) == TxJson ==> t.parsed.value.text == msg)
  }

  /** The path that signs: of the stream's first chunk, or the one that ends the message. */
  predicate BoundPath(t: State, h: History, kind: SignKind) {
    match kind
    case SignModern(_) => t.signPath == h.path
    case SignLegacyTransfer => t.signPath == h.path && Body(h.received)
    case SignLegacy(txType, n) =>
      && txType != TxTransfer && n == h.announced && n < |h.received|
      && var qty := h.received[n] as int;
      2 <= qty <= 5 && |h.received| == n + 1 + 4 * qty && t.signPath == PathAt(h.received, n + 1, qty)
  }

  /** The kind of review that a signing command ends in. */
  predicate OfCommand(kind: SignKind, ins: nat) {
    match kind
    case SignModern(TxJson) => ins == INS_SIGN
    case SignModern(TxHash) => ins == INS_SIGN_HASH
    case SignModern(TxTransfer) => ins == INS_SIGN_TRANSFER
    case SignLegacy(TxJson, _) => ins == INS_LEGACY_SIGN_JSON
    case SignLegacy(TxHash, _) => ins == INS_LEGACY_SIGN_HASH
    case SignLegacy(TxTransfer, _) => false
    case SignLegacyTransfer => ins == INS_LEGACY_TRANSFER
  }

  /**
   A review is pending of exactly what the chunks of one signing command carried, as that command reviews it, bound
   to the path they carried.
   */
  ghost predicate Reviewed(c: Crypto, expert: bool, t: State, h: History) {
    && t.pending.PendingSign? && PrefixOk(t.signPath) && t.tx == h.received
    && h.chunks != [] && Told(h, h.chunks[0].ins) && OfCommand(t.pending.kind, h.chunks[0].ins)
    && BoundPath(t, h, t.pending.kind) && Parses(c, expert, t, t.pending.kind, Message(h, t.pending.kind))
  }

  /** A blind review is of a bare hash, or of a transaction whose items call for it; and the setting is on. */
  ghost predicate BlindAllowed(env: Env, t: State, blind: bool) {
    && t.pending.PendingSign? && t.parsed.Some?
    && (blind <==> TypeOf(t.pending.kind) == TxHash || ItemSpec.NeedsBlind(t.parsed.value.review.items))
    && (blind ==> env.blindSigning)
  }

  lemma {:induction false} TemplateUnused(c: Crypto, path: Path, txType: TxType, msg: Bytes, a: Bytes, b: Bytes,
      expert: bool)
    ensures ParseTx(c, path, txType, msg, a, expert).1 == ParseTx(c, path, txType, msg, b, expert).1
    ensures txType == TxTransfer && ParseTx(c, path, txType, msg, a, expert).1.Ok? ==>
              ParseTx(c, path, txType, msg, a, expert).0 == ParseTx(c, path, txType, msg, a, expert).1.value.text
    ensures txType == TxJson && ParseTx(c, path, txType, msg, a, expert).1.Ok? ==>
            ParseTx(c, path, txType, msg, a, expert).1.value.text == msg
  {
    hide ReviewText, HashParsed;
  }

  /** A parse that succeeds makes its result what is reviewed. */
  lemma {:induction false} ParseReviews(c: Crypto, env: Env, s: State, kind: SignKind, len: nat)
    requires len <= |s.tx| && ParseStep(c, env, s, TypeOf(kind), len).1.Ok?
    ensures var (t, r) := ParseStep(c, env, s, TypeOf(kind), len);
            && Parses(c, env.expert, t, kind, s.tx[..len])
            && BlindAllowed(env, t.(pending := PendingSign(kind)), r.value)
  {
    hide ParseTx, ItemSpec.NeedsBlind;
    TemplateUnused(c, s.signPath, TypeOf(kind), s.tx[..len], s.template, [], env.expert);
  }

  predicate EndsWith(h: History, a: Apdu) { h.chunks != [] && h.chunks[|h.chunks| - 1] == a }

  /** What a command that ends in a review leaves behind: it was the last chunk. */
  ghost predicate Reviewing(c: Crypto, env: Env, a: Apdu, r: (State, Handled), h: History) {
    r.1.Ok? && r.1.value.ReviewTx? ==>
      Reviewed(c, env.expert, r.0, h) && BlindAllowed(env, r.0, r.1.value.blind) && EndsWith(h, a)
  }

  /** Only a review leaves a signature pending. */
  predicate PendsOnlyReviews(r: (State, Handled)) {
    r.0.pending.PendingSign? ==> r.1.Ok? && r.1.value.ReviewTx?
  }

  lemma {:induction false} ModernKeeps(c: Crypto, env: Env, s: State, h: History, a: Apdu, txType: TxType)
    requires Agrees(s, h) && AllBytes(a.data) && OfCommand(SignModern(txType), a.ins) && s.pending == NoPending
    ensures Agrees(SignChunk(c, env, s, a.ins, txType, a.p1, a.data).0, TrackModern(h, a))
    ensures Reviewing(c, env, a, SignChunk(c, env, s, a.ins, txType, a.p1, a.data), TrackModern(h, a))
    ensures PendsOnlyReviews(SignChunk(c, env, s, a.ins, txType, a.p1, a.data))
  {
    hide TxParse, ParseStep, Holding, PathAt, Parses, BlindAllowed, Told;
    AllBytesCat(h.received, a.data);
    ToldModern(h, a);
    ToldIns(TrackModern(h, a), a.ins);
    var (tx, fits) := Appended(s.tx, a.data);
    if a.p1 == P1_LAST && s.stream == Modern(a.ins) && fits {
      var t := s.(tx := tx, stream := NoStream);
      ParseLeaves(c, env, t, txType, |t.tx|);
      if ParseStep(c, env, t, txType, |t.tx|).1.Ok? {
        ParseReviews(c, env, t, SignModern(txType), |t.tx|);
        assert t.tx[..|t.tx|] == t.tx;
        PendingParses(c, env.expert, ParseStep(c, env, t, txType, |t.tx|).0, SignModern(txType), t.tx);
      }
    }
  }

  lemma {:induction false} PendingParses(c: Crypto, expert: bool, t: State, kind: SignKind, msg: Bytes)
    requires Parses(c, expert, t, kind, msg)
    ensures Parses(c, expert, t.(pending := PendingSign(kind)), kind, msg)
  {
    hide ParseTx;
  }

  lemma {:induction false} ToldIns(h: History, ins: nat)
    ensures Told(h, ins) ==> h.chunks != [] && h.chunks[0].ins == ins
  {
  }

  /** What every command keeps. */
  ghost predicate Keeps(c: Crypto, env: Env, a: Apdu, r: (State, Handled), h: History) {
    Agrees(r.0, h) && Reviewing(c, env, a, r, h) && PendsOnlyReviews(r)
  }

  lemma {:induction false} LegacyReviewKeeps(c: Crypto, env: Env, s: State, h: History, a: Apdu, json: bool,
      msgLen: nat)
    requires msgLen <= |s.tx| <= FLASH_CAP && s.stream == NoStream && s.pending == NoPending && s.tx == h.received
    requires PrefixOk(s.signPath) && BoundPath(s, h, SignLegacy(if json then TxJson else TxHash, msgLen))
    requires EndsWith(h, a) && Told(h, a.ins) && a.ins == if json then INS_LEGACY_SIGN_JSON else INS_LEGACY_SIGN_HASH
    ensures Keeps(c, env, a, LegacyReview(c, env, s, json, msgLen), h)
  {
    hide TxParse, ParseStep, PathAt, Parses, BlindAllowed, Told;
    ToldIns(h, a.ins);
    var kind := SignLegacy(if json then TxJson else TxHash, msgLen);
    ParseLeaves(c, env, s, TypeOf(kind), msgLen);
    if ParseStep(c, env, s, TypeOf(kind), msgLen).1.Ok? {
      ParseReviews(c, env, s, kind, msgLen);
      PendingParses(c, env.expert, ParseStep(c, env, s, TypeOf(kind), msgLen).0, kind, s.tx[..msgLen]);
    }
  }

  lemma {:induction false} LegacyCompleteKeeps(c: Crypto, env: Env, s: State, h: History, a: Apdu, json: bool)
    requires |s.tx| <= FLASH_CAP && s.stream == NoStream && s.pending == NoPending && s.tx == h.received &&
             s.payloadLength == h.announced
    requires EndsWith(h, a) && Told(h, a.ins) && a.ins == if json then INS_LEGACY_SIGN_JSON else INS_LEGACY_SIGN_HASH
    ensures Keeps(c, env, a, LegacyComplete(c, env, s, json), h)
  {
    hide LegacyReview, PathAt, Reviewing, Told;
    NoReview(c, env, a, s.(tx := []), h, DATA_INVALID);
    var (t, r) := LegacyHdPath(s, s.tx, s.payloadLength, true);
    if |s.tx| >= s.payloadLength {
      if r.Ok? {
        LegacyReviewKeeps(c, env, t.(signPath := t.hdPath), h, a, json, |t.tx| - t.hdpathLength);
      } else {
        NoReview(c, env, a, t, h, r.error);
      }
    }
  }

  lemma {:induction false} NoReview(c: Crypto, env: Env, a: Apdu, s: State, h: History, e: nat)
    ensures Reviewing(c, env, a, (s, Err(e)), h) && Reviewing(c, env, a, (s, Done()), h)
  {
    hide Reviewed, BlindAllowed;
  }

  /** The state once the data of a legacy chunk is added, if it is. */
  function LegacyAdded(s: State, ins: nat, json: bool, data: Bytes): (State, Result<(), nat>)
    requires s.stream == NoStream || s.stream == Legacy(ins)
    requires s.stream == NoStream && json ==> |data| >= 4
  {
    if s.stream == NoStream then
      LegacyAppend(s.(payloadLength := if json then Le32(data, 0) else HASH_LEN, tx := [], stream := Legacy(ins)),
        if json then data[4..] else data)
    else LegacyAppend(s, data)
  }

  lemma {:induction false} LegacySignIs(c: Crypto, env: Env, s: State, ins: nat, json: bool, data: Bytes)
    ensures LegacySign(c, env, s, ins, json, data) ==
            if s.stream != NoStream && s.stream != Legacy(ins) then (s.(stream := NoStream), Err(TX_NOT_INITIALIZED))
            else if s.stream == NoStream && json && |data| < 4 then (s, Err(WRONG_LENGTH))
            else
              match LegacyAdded(s, ins, json, data)
              case (u, Err(e)) => (u, Err(e))
              case (u, Ok(_)) =>
                if !(LEGACY_HEADER_LENGTH + |data| < LEGACY_FULL_CHUNK_SIZE || EndOfChunk(u)) then (u, Done())
                else LegacyComplete(c, env, u.(stream := NoStream), json)
  {
    hide LegacyComplete, Le32;
  }

  lemma {:induction false} AddedAgrees(s: State, h: History, a: Apdu, json: bool)
    requires Agrees(s, h) && AllBytes(a.data) && s.pending == NoPending
    requires a.ins == (if json then INS_LEGACY_SIGN_JSON else INS_LEGACY_SIGN_HASH) &&
             (s.stream == NoStream || s.stream == Legacy(a.ins))
    requires s.stream == NoStream && json ==> |a.data| >= 4
    ensures var (u, added) := LegacyAdded(s, a.ins, json, a.data);
            var h' := TrackLegacySign(h, s.stream == NoStream, a);
            && Agrees(u, h') && u.pending == NoPending
            && (added.Ok? ==>
                  && u.tx == h'.received && u.payloadLength == h'.announced && |u.tx| <= FLASH_CAP
                  && Told(h', a.ins) && EndsWith(h', a))
  {
    hide AllBytes, Le32, Holding, Told;
    ToldLegacySign(h, s.stream == NoStream, a);
    AllBytesCat(h.received, a.data);
    if json && |a.data| >= 4 {
      AllBytesSlice(a.data, 4, |a.data|);
      assert a.data[4..|a.data|] == a.data[4..] && [] + a.data[4..] == a.data[4..];
    }
    assert [] + a.data == a.data;
  }

  lemma {:induction false} LegacySignKeeps(c: Crypto, env: Env, s: State, h: History, a: Apdu, json: bool)
    requires Agrees(s, h) && AllBytes(a.data) && s.pending == NoPending
    requires a.ins == if json then INS_LEGACY_SIGN_JSON else INS_LEGACY_SIGN_HASH
    ensures Keeps(c, env, a, LegacySign(c, env, s, a.ins, json, a.data), TrackLegacySign(h, s.stream == NoStream, a))
  {
    hide LegacySign, LegacyComplete, Reviewing, AllBytes, LegacyAdded, TrackLegacySign, Holding, Told;
    var h' := TrackLegacySign(h, s.stream == NoStream, a);
    LegacySignIs(c, env, s, a.ins, json, a.data);
    NoReview(c, env, a, s.(stream := NoStream), h', TX_NOT_INITIALIZED);
    NoReview(c, env, a, s, h', WRONG_LENGTH);
    if (s.stream == NoStream || s.stream == Legacy(a.ins)) && !(s.stream == NoStream && json && |a.data| < 4) {
      AddedAgrees(s, h, a, json);
      var (u, added) := LegacyAdded(s, a.ins, json, a.data);
      NoReview(c, env, a, u, h', if added.Err? then added.error else 0);
      if added.Ok? { LegacyCompleteKeeps(c, env, u.(stream := NoStream), h', a, json); }
    }
  }

  lemma {:induction false} ReceivedBytes(s: State, h: History, a: Apdu)
    requires AllBytes(a.data) && (s.stream == Legacy(INS_LEGACY_TRANSFER) ==> AllBytes(h.received))
    ensures s.stream == NoStream || s.stream == Legacy(INS_LEGACY_TRANSFER) ==>
            AllBytes(TrackTransfer(h, s.stream == NoStream, a).received)
  {
    hide AllBytes, ReadFrom;
    RawBytes(a);
    var buf := Raw(a);
    ReadFromBytes(buf, 5);
    AllBytesCat(h.received, ReadFrom(buf, 5));
    NoBytes();
    if |buf| > 5 { ReadFromBytes(buf, 6 + 4 * (buf[5] as int)); }
  }

  lemma {:induction false} NoBytes()
    ensures AllBytes([])
  {
  }

  /** The chunk of a structured transfer, against the history. */
  lemma {:induction false} ChunkKeeps(s: State, h: History, a: Apdu)
    requires Agrees(s, h) && AllBytes(a.data) && s.pending == NoPending && a.ins == INS_LEGACY_TRANSFER
    ensures var h' := TrackTransfer(h, s.stream == NoStream, a);
            var (t, r) := TransferChunk(s, Raw(a));
            && |t.tx| <= FLASH_CAP && t.pending == NoPending
            && (r.Ok? ==> Told(h', a.ins) && AllBytes(h'.received) && t.signPath == h'.path && PrefixOk(h'.path))
            && match r
               case Err(_) => true
               case Ok(false) => Holding(t, h'.received)
               case Ok(true) => Complete(t, h'.received)
  {
    hide AllBytes, Holding, Complete, TransferItems, ReadFrom, PathAt, InitializeTransfer, ContinueTransfer, Told;
    var buf := Raw(a);
    RawBytes(a);
    ReceivedBytes(s, h, a);
    if s.stream == NoStream {
      FirstChunk(s, buf);
      if TransferChunk(s, buf).1.Ok? {
        FirstPath(s, buf);
        RawData(a);
        ToldTransfer(h, true, a);
        CompleteSize(TransferChunk(s, buf), AfterPath(buf));
      }
    } else if s.stream == Legacy(INS_LEGACY_TRANSFER) {
      HeldBytes(s, h);
      NextChunk(s, h.received, buf);
      ToldTransfer(h, false, a);
      CompleteSize(TransferChunk(s, buf), h.received + ReadFrom(buf, 5));
    }
  }

  /** The data of an APDU as the handlers index it. */
  lemma {:induction false} RawData(a: Apdu)
    ensures |Raw(a)| > 5 ==> a.data != [] && Raw(a)[5] == a.data[0] && |Raw(a)| <= 5 + |a.data|
  {
    var n := if |a.data| <= 300 then |a.data| else 300;
    assert |Raw(a)| == 5 + n && (n > 0 ==> Raw(a)[5] == a.data[..n][0]);
  }

  lemma {:induction false} CompleteSize(r: (State, Result<bool, nat>), received: Bytes)
    requires match r.1
             case Err(_) => true
             case Ok(false) => Holding(r.0, received)
             case Ok(true) => Complete(r.0, received)
    ensures r.1.Ok? ==> |r.0.tx| <= FLASH_CAP
  {
  }

  lemma {:induction false} HeldBytes(s: State, h: History)
    requires Holding(s, h.received) && AllBytes(h.received)
    ensures AllBytes(s.local)
  {
    AllBytesCat(s.tx, s.local);
  }

  lemma {:induction false} FirstPath(s: State, buf: Bytes)
    requires s.stream == NoStream && TransferChunk(s, buf).1.Ok?
    ensures |buf| > 5 && 2 <= buf[5] as int <= 5 && 6 + 4 * (buf[5] as int) <= |buf|
  {
    hide TransferItems;
  }

  lemma {:induction false} TransferReviewKeeps(c: Crypto, env: Env, t: State, h: History)
    requires t.stream == NoStream && t.tx == h.received && Body(h.received) && |t.tx| <= FLASH_CAP &&
             t.pending == NoPending
    requires t.signPath == h.path && PrefixOk(h.path) && Told(h, INS_LEGACY_TRANSFER)
    ensures var (u, r) := ParseStep(c, env, t, TxTransfer, |t.tx|);
            && u.stream == NoStream && |u.tx| <= FLASH_CAP && u.pending == NoPending
            && (r.Ok? ==>
                  Reviewed(c, env.expert, u.(pending := PendingSign(SignLegacyTransfer)), h) &&
                  BlindAllowed(env, u.(pending := PendingSign(SignLegacyTransfer)), r.value))
  {
    hide TxParse, ParseStep, Body, Parses, BlindAllowed, Told;
    ToldIns(h, INS_LEGACY_TRANSFER);
    ParseLeaves(c, env, t, TxTransfer, |t.tx|);
    if ParseStep(c, env, t, TxTransfer, |t.tx|).1.Ok? {
      ParseReviews(c, env, t, SignLegacyTransfer, |t.tx|);
      assert t.tx[..|t.tx|] == t.tx;
      PendingParses(c, env.expert, ParseStep(c, env, t, TxTransfer, |t.tx|).0, SignLegacyTransfer, t.tx);
    }
  }

  lemma {:induction false} TransferKeeps(c: Crypto, env: Env, s: State, h: History, a: Apdu)
    requires Agrees(s, h) && AllBytes(a.data) && s.pending == NoPending && a.ins == INS_LEGACY_TRANSFER
    ensures Keeps(c, env, a, LegacyTransfer(c, env, s, a), TrackTransfer(h, s.stream == NoStream, a))
  {
    hide ParseStep, AllBytes, Holding, TransferChunk, TrackTransfer, Reviewed, BlindAllowed, Body, Complete, Told,
      EndsWith;
    var h' := TrackTransfer(h, s.stream == NoStream, a);
    TransferEnds(h, s.stream == NoStream, a);
    ChunkKeeps(s, h, a);
    var (t, done) := TransferChunk(s, Raw(a));
    if done.Ok? && done.value {
      CompleteIs(t, h'.received);
      TransferReviewKeeps(c, env, t, h');
    } else if done.Ok? {
      HoldingIs(t, h'.received);
    }
  }

  lemma {:induction false} TransferEnds(h: History, first: bool, a: Apdu)
    ensures EndsWith(TrackTransfer(h, first, a), a)
  {
    hide PathAt, ReadFrom;
  }

  lemma {:induction false} CompleteIs(t: State, received: Bytes)
    requires Complete(t, received)
    ensures t.stream == NoStream && t.tx == received && Body(received) && |t.tx| <= FLASH_CAP
  {
    hide Body;
  }

  lemma {:induction false} HoldingIs(t: State, received: Bytes)
    requires Holding(t, received)
    ensures t.stream == Legacy(INS_LEGACY_TRANSFER) && |t.tx| <= FLASH_CAP
  {
  }

  // ---- Address commands leave the signing path alone -------------------------------------------

  /** The stream is closed or left as it is, with everything the history is about. */
  predicate Leaves(s: State, t: State) {
    && (t.stream == NoStream || t.stream == s.stream) && t.tx == s.tx && t.local == s.local && t.signPath == s.signPath
    && t.payloadLength == s.payloadLength && t.items == s.items && t.itemLen == s.itemLen &&
      t.checkItemLen == s.checkItemLen
  }

  lemma {:induction false} LeavesAgree(s: State, t: State, h: History)
    requires Agrees(s, h) && Leaves(s, t)
    ensures Agrees(t, h)
  {
    hide Items;
  }

  lemma {:induction false} AddressLeaves(c: Crypto, s: State, a: Apdu, show: bool)
    requires s.pending == NoPending
    ensures Leaves(s, GetAddr(c, s, a.p1, a.data).0) && Leaves(s, LegacyGetAddr(c, s, show, a).0)
    ensures PendsOnlyReviews(GetAddr(c, s, a.p1, a.data)) && PendsOnlyReviews(LegacyGetAddr(c, s, show, a))
    ensures GetAddr(c, s, a.p1, a.data).1.Ok? ==> !GetAddr(c, s, a.p1, a.data).1.value.ReviewTx?
    ensures LegacyGetAddr(c, s, show, a).1.Ok? ==> !LegacyGetAddr(c, s, show, a).1.value.ReviewTx?
  {
    hide PathAt, Raw;
  }

  lemma {:induction false} AddressKeeps(c: Crypto, env: Env, s: State, h: History, a: Apdu, show: bool)
    requires Agrees(s, h) && s.pending == NoPending
    ensures Keeps(c, env, a, GetAddr(c, s, a.p1, a.data), h) && Keeps(c, env, a, LegacyGetAddr(c, s, show, a), h)
  {
    hide GetAddr, LegacyGetAddr, Agrees, Leaves, Reviewed, BlindAllowed;
    AddressLeaves(c, s, a, show);
    LeavesAgree(s, GetAddr(c, s, a.p1, a.data).0, h);
    LeavesAgree(s, LegacyGetAddr(c, s, show, a).0, h);
  }

  lemma {:induction false} DispatchKeeps(c: Crypto, env: Env, s: State, h: History, a: Apdu)
    requires Agrees(s, h) && AllBytes(a.data) && s.pending == NoPending && a.cla == CLA && NeedsPin(a.ins) &&
             env.pinValidated
    ensures Keeps(c, env, a, Dispatch(c, env, s, a), Track(h, s, Command(env, a)))
  {
    hide Agrees, Reviewing, SignChunk, LegacySign, LegacyTransfer, GetAddr, LegacyGetAddr, AllBytes, TrackModern,
      TrackLegacySign, TrackTransfer, LegacyVersionReply;
    if a.ins == INS_GET_ADDR || a.ins == INS_LEGACY_VERIFY_ADDRESS || a.ins == INS_LEGACY_GET_PUBKEY {
      AddressKeeps(c, env, s, h, a, a.ins == INS_LEGACY_VERIFY_ADDRESS);
    } else if IsModernSign(a.ins) {
      var txType := if a.ins == INS_SIGN then TxJson else if a.ins == INS_SIGN_HASH then TxHash else TxTransfer;
      ModernKeeps(c, env, s, h, a, txType);
    } else if IsLegacySign(a.ins) {
      LegacySignKeeps(c, env, s, h, a, a.ins == INS_LEGACY_SIGN_JSON);
    } else if a.ins == INS_LEGACY_TRANSFER {
      TransferKeeps(c, env, s, h, a);
    } else {
      SendReviews(c, env, a, s, h, LegacyVersionReply(env));
    }
  }

  lemma {:induction false} SendReviews(c: Crypto, env: Env, a: Apdu, s: State, h: History, r: Reply)
    ensures Reviewing(c, env, a, (s, Ok(Send(r))), h)
  {
    hide Reviewed, BlindAllowed;
  }

  lemma {:induction false} DropPending(s: State, h: History)
    requires Agrees(s, h)
    ensures Agrees(s.(pending := NoPending), h)
  {
    hide Items;
  }

  // ---- Every run -------------------------------------------------------------------------------

  /** What one event keeps, and what its output means. */
  ghost predicate Kept(c: Crypto, e: Event, r: (State, Output), h: History) {
    && Agrees(r.0, h)
    && (r.0.pending.PendingSign? ==> e.Command? && r.1.Act? && r.1.action.ReviewTx?)
    && (e.Command? && r.1.Act? && r.1.action.ReviewTx? ==>
          && Reviewed(c, e.env.expert, r.0, h) && BlindAllowed(e.env, r.0, r.1.action.blind)
          && EndsWith(h, e.apdu))
  }

  lemma {:induction false} CommandKeeps(c: Crypto, env: Env, s: State, h: History, a: Apdu)
    requires Agrees(s, h) && AllBytes(a.data)
    ensures var (t, action) := Handle(c, env, s, a);
            var h' := Track(h, s, Command(env, a));
            && Agrees(t, h') && (t.pending.PendingSign? ==> action.ReviewTx?)
            && (action.ReviewTx? ==>
                  Reviewed(c, env.expert, t, h') && BlindAllowed(env, t, action.blind) && EndsWith(h', a))
  {
    hide Dispatch, Agrees, Reviewed, BlindAllowed, TrackModern, TrackTransfer, TrackLegacySign, AllBytes,
      VersionReply, EndsWith;
    DropPending(s, h);
    var t := s.(pending := NoPending);
    if a.cla == CLA && NeedsPin(a.ins) && env.pinValidated {
      DispatchKeeps(c, env, t, h, a);
    }
  }

  lemma {:induction false} EventKeeps(c: Crypto, s: State, h: History, e: Event)
    requires Agrees(s, h) && Proper(e)
    ensures Kept(c, e, Next(c, s, e), Track(h, s, e))
  {
    hide Handle, SignReply, Agrees, Reviewed, BlindAllowed, TrackModern, TrackTransfer, TrackLegacySign, AllBytes,
      EndsWith;
    match e
    case Command(env, a) => CommandKeeps(c, env, s, h, a);
    case AddressAnswer(_) => DropPending(s, h);
    case SignAnswer(_) => DropPending(s, h);
  }

  lemma {:induction false} RunAgrees(c: Crypto, es: seq<Event>)
    requires ProperRun(es)
    ensures Agrees(StateAfter(c, es), HistoryAfter(c, es))
    ensures es != [] ==> Kept(c, es[|es| - 1], (StateAfter(c, es), LastOutput(c, es)), HistoryAfter(c, es))
    decreases |es|
  {
    hide Handle, Next, Agrees, Track, Kept, Proper;
    if es == [] {
      InitialAgrees();
    } else {
      var front := es[..|es| - 1];
      RunAgrees(c, front);
      EventKeeps(c, StateAfter(c, front), HistoryAfter(c, front), es[|es| - 1]);
      KeptAgrees(c, es[|es| - 1], (StateAfter(c, es), LastOutput(c, es)), HistoryAfter(c, es));
    }
  }

  lemma {:induction false} InitialAgrees()
    ensures Agrees(INITIAL, NO_HISTORY)
  {
  }

  lemma {:induction false} KeptAgrees(c: Crypto, e: Event, r: (State, Output), h: History)
    requires Kept(c, e, r, h)
    ensures Agrees(r.0, h)
  {
  }

  // ---- Signatures ------------------------------------------------------------------------------

  predicate OfHash(ins: nat) { ins == INS_SIGN_HASH || ins == INS_LEGACY_SIGN_HASH }

  /** What the review was of: the text reviewed for a structured transfer, the message carried otherwise. */
  function SignedText(t: State, h: History): Bytes
    requires t.pending.PendingSign?
  {
    if TypeOf(t.pending.kind) == TxTransfer && t.parsed.Some? then t.parsed.value.text else Message(h, t.pending.kind)
  }

  /** The 32 bytes to sign: a hash as it was carried, and of anything else its blake2b-256. */
  function SignedHash(c: Crypto, t: State, h: History): Option<Bytes>
    requires t.pending.PendingSign? && h.chunks != []
  {
    if OfHash(h.chunks[0].ins) then (if |h.received| >= 32 then Some(h.received[..32]) else None)
    else c.blake2b(SignedText(t, h))
  }

  /** The reply is the signature of what was reviewed and, for 0x10, the key that signed. */
  ghost predicate SignedAs(c: Crypto, t: State, h: History, reply: Reply) {
    && t.pending.PendingSign? && h.chunks != []
    && var hash := SignedHash(c, t, h);
    && hash.Some? && |hash.value| == 32 && c.sign(t.signPath, hash.value).Some?
    && var signature := c.sign(t.signPath, hash.value).value;
    if h.chunks[0].ins == INS_LEGACY_TRANSFER then
      c.publicKey(t.signPath).Some? && reply == Reply(signature + c.publicKey(t.signPath).value, OK)
    else reply == Reply(signature, OK)
  }

  /** A hash that is reviewed has 32 bytes. */
  lemma {:induction false} HashReviewed(c: Crypto, expert: bool, t: State, h: History)
    requires Reviewed(c, expert, t, h) && OfHash(h.chunks[0].ins)
    ensures TypeOf(t.pending.kind) == TxHash && |Message(h, t.pending.kind)| == 32 <= |h.received|
    ensures Message(h, t.pending.kind) == h.received[..32]
  {
    hide HashParsed, ReviewText, PathAt, Body, PrefixOk, Told;
  }

  /** The message in memory is the one reviewed. */
  lemma {:induction false} MessageKept(c: Crypto, expert: bool, t: State, h: History)
    requires Reviewed(c, expert, t, h)
    ensures MessageOf(t, t.pending.kind) == SignedText(t, h)
    ensures TypeOf(t.pending.kind) == TxHash <==> OfHash(h.chunks[0].ins)
    ensures t.pending.kind == SignLegacyTransfer <==> h.chunks[0].ins == INS_LEGACY_TRANSFER
  {
    hide ParseTx, PathAt, Body, PrefixOk, Told;
  }

  lemma {:induction false} PendingChunks(c: Crypto, expert: bool, t: State, h: History)
    requires Reviewed(c, expert, t, h)
    ensures t.pending.PendingSign? && h.chunks != []
  {
  }

  lemma {:induction false} DigestIs(c: Crypto, expert: bool, t: State, h: History)
    requires Reviewed(c, expert, t, h) && SignedText(t, h) != []
    ensures Digest(c, SignedText(t, h), TypeOf(t.pending.kind)) == SignedHash(c, t, h)
  {
    hide Reviewed, Message;
    MessageKept(c, expert, t, h);
    PendingChunks(c, expert, t, h);
    if OfHash(h.chunks[0].ins) {
      HashReviewed(c, expert, t, h);
      assert h.received[..32][..32] == h.received[..32];
    }
  }

  lemma {:induction false} NoDigest(c: Crypto, txType: TxType)
    ensures Digest(c, [], txType) == None
  {
  }

  lemma {:induction false} SignsReviewed(c: Crypto, expert: bool, t: State, h: History)
    requires Reviewed(c, expert, t, h) && SignReply(c, t, t.pending.kind).sw == OK
    ensures SignedAs(c, t, h, SignReply(c, t, t.pending.kind))
  {
    hide Reviewed, SignedText, SignedHash, MessageOf, Digest;
    MessageKept(c, expert, t, h);
    PendingChunks(c, expert, t, h);
    if SignedText(t, h) == [] { NoDigest(c, TypeOf(t.pending.kind)); } else { DigestIs(c, expert, t, h); }
  }

  lemma {:induction false} SignOnlyPending(c: Crypto, s: State, approved: bool)
    requires SignDone(c, s, approved).1.sw == OK
    ensures approved && s.pending.PendingSign? && SignDone(c, s, approved).1 == SignReply(c, s, s.pending.kind)
  {
    hide CryptoSign;
  }

  /**
   A signature is returned only for an approved review that the immediately preceding command asked for, so
   at most once; it signs exactly what that review was of, and with the path its own signing command carried.
   */
  lemma {:induction false} SignatureSafety(c: Crypto, es: seq<Event>)
    requires ProperRun(es) && es != [] && es[|es| - 1].SignAnswer? && LastOutput(c, es).reply.sw == OK
    ensures var front := es[..|es| - 1];
            && es[|es| - 1].approved
            && front != [] && front[|front| - 1].Command?
            && LastOutput(c, front).Act? && LastOutput(c, front).action.ReviewTx?
            && Reviewed(c, front[|front| - 1].env.expert, StateAfter(c, front), HistoryAfter(c, front))
            && EndsWith(HistoryAfter(c, front), front[|front| - 1].apdu)
            && SignedAs(c, StateAfter(c, front), HistoryAfter(c, front), LastOutput(c, es).reply)
  {
    hide Handle, Agrees, Track, Reviewed, SignReply, SignedAs, BlindAllowed, Proper, EndsWith;
    var front := es[..|es| - 1];
    var s := StateAfter(c, front);
    SignOnlyPending(c, s, es[|es| - 1].approved);
    RunAgrees(c, front);
    SignsReviewed(c, front[|front| - 1].env.expert, s, HistoryAfter(c, front));
  }

  // ---- What the reviews are of -----------------------------------------------------------------

  /**
   While a structured transfer arrives, the buffer and the bytes kept aside are what its APDUs have carried
   after the path; when it is complete the buffer alone is, and it is a type byte and twelve items.
   */
  lemma {:induction false} TransferReassembled(c: Crypto, es: seq<Event>)
    requires ProperRun(es)
    ensures var s, h := StateAfter(c, es), HistoryAfter(c, es);
            && (s.stream == Legacy(INS_LEGACY_TRANSFER) ==>
                  s.tx + s.local == h.received && s.items < 100 && s.tx != [] && Items(s.tx[1..], s.items))
            && (s.pending == PendingSign(SignLegacyTransfer) ==> s.tx == h.received && Body(h.received))
  {
    hide Handle, Track, Items, Proper, Next, Body;
    RunAgrees(c, es);
    var s, h := StateAfter(c, es), HistoryAfter(c, es);
    if s.pending == PendingSign(SignLegacyTransfer) {
      PendingReviewed(c, es);
    }
  }

  lemma {:induction false} PendingReviewed(c: Crypto, es: seq<Event>)
    requires ProperRun(es) && StateAfter(c, es).pending.PendingSign?
    ensures es != [] && es[|es| - 1].Command? && EndsWith(HistoryAfter(c, es), es[|es| - 1].apdu)
    ensures Reviewed(c, es[|es| - 1].env.expert, StateAfter(c, es), HistoryAfter(c, es))
  {
    hide Handle, Agrees, Track, Reviewed, BlindAllowed, Proper, EndsWith;
    RunAgrees(c, es);
  }

  /** With the setting off, no run ends in a blind review. */
  lemma {:induction false} NoBlindReview(c: Crypto, es: seq<Event>)
    requires ProperRun(es) && es != [] && LastOutput(c, es).Act? && LastOutput(c, es).action == ReviewTx(true)
    ensures es[|es| - 1].Command? && es[|es| - 1].env.blindSigning
  {
    hide Handle, Agrees, Track, Reviewed, Proper;
    RunAgrees(c, es);
  }

  /**
   Whenever a structured transfer is complete, whether or not the request is then accepted: the buffer is what its
   chunks carried, bound to their path; it is a type byte and twelve items, so that reading it has no framing error.
   */
  lemma {:induction false} TransferCompleted(c: Crypto, es: seq<Event>, env: Env, a: Apdu)
    requires ProperRun(es) && AllBytes(a.data) && a.ins == INS_LEGACY_TRANSFER && a.cla == CLA && env.pinValidated
    requires Completes(TransferChunk(StateAfter(c, es).(pending := NoPending), Raw(a)))
    ensures var t := TransferChunk(StateAfter(c, es).(pending := NoPending), Raw(a)).0;
            var h := HistoryAfter(c, es + [Command(env, a)]);
            && t.tx == h.received && Told(h, INS_LEGACY_TRANSFER) && EndsWith(h, a)
            && t.signPath == h.path && PrefixOk(h.path) && Body(t.tx)
            && (T.ReadRequest(t.tx).Err? ==>
                  T.ReadRequest(t.tx).error in {UnexpectedValue, ValueOutOfRange, UnexpectedCharacters})
  {
    hide StateAfter, Agrees, TransferChunk, TrackTransfer, Told, EndsWith, Complete, Holding, AllBytes, Body, Proper,
      T.ReadRequest, Kept, LastOutput;
    var s, h := StateAfter(c, es), HistoryAfter(c, es);
    RunAgrees(c, es);
    DropPending(s, h);
    ChunkKeeps(s.(pending := NoPending), h, a);
    assert (es + [Command(env, a)])[..|es|] == es;
    var h' := TrackTransfer(h, s.stream == NoStream, a);
    TransferEnds(h, s.stream == NoStream, a);
    var t := TransferChunk(s.(pending := NoPending), Raw(a)).0;
    CompleteIs(t, h'.received);
    FramedBody(t.tx);
  }

  /**
   While no chunk of a structured transfer has more than 230 bytes of data, what the buffer and the bytes kept aside
   hold is all of the data of the chunks, one after the other, behind the path.
   */
  lemma {:induction false} WholeData(c: Crypto, es: seq<Event>)
    requires ProperRun(es) && Short(HistoryAfter(c, es).chunks)
    requires StateAfter(c, es).stream == Legacy(INS_LEGACY_TRANSFER) ||
             StateAfter(c, es).pending == PendingSign(SignLegacyTransfer)
    ensures var s, chunks := StateAfter(c, es), HistoryAfter(c, es).chunks;
            && OneCommand(chunks, INS_LEGACY_TRANSFER)
            && var n := Preamble(chunks[0].data, INS_LEGACY_TRANSFER);
            && n <= |chunks[0].data|
            && Data(chunks) == chunks[0].data[..n] + if s.stream == NoStream then s.tx else s.tx + s.local
  {
    hide StateAfter, HistoryAfter, Kept, LastOutput, Proper, Data, Framed, Counted, Parses;
    RunAgrees(c, es);
    if StateAfter(c, es).pending == PendingSign(SignLegacyTransfer) { PendingReviewed(c, es); }
  }
}
