/**
 The application as the device runs it: fields updated command by command, the transaction and the template in
 the device's memory. It takes the steps of the state machine.
 */
module App {
  import opened Base
  import opened Errors
  import opened Buffering
  import opened Framing
  import opened ParserSpec
  import opened AppSpec
  import opened Reassembly
  import opened Runs
  import Platform
  import TxParser
  import Transfer
  import Integrity
  import Json
  import JsmnSpec
  import ItemSpec
  import Rendering
  import RenderProof
  import RenderSpec
  import opened Screen
  import T = TransferSpec

  function HexOf(key: Option<Key32>): Option<Bytes> {
    match key
    case None => None
    case Some(pk) => Some(T.HexLower(pk))
  }

  class Application {
    const c: Crypto
    const device: Platform.Device
    const parsed: TxParser.Parsed
    const local: array<char>

    var hdPath: Path
    var signPath: Path
    var stream: Stream
    var pending: Pending
    var payloadLength: nat
    var hdpathLength: nat
    var localLen: nat
    var items: nat
    var itemLen: nat
    var checkItemLen: bool

    ghost var state: State
    ghost var history: History
    ghost var events: seq<Event>

    /** Everything the application writes. */
    ghost function Repr(): set<object> {
      {this, local, device, device.buffer, device.ram, device.flash, parsed, parsed.tokens, parsed.items,
        parsed.items.items}
    }

    /** The fields and the memory are in order. */
    ghost predicate Sound()
      reads Repr()
    {
      && device.Valid() && parsed.Valid()
      && local.Length == LEGACY_LOCAL_BUFFER_SIZE && localLen < LEGACY_LOCAL_BUFFER_SIZE
      && local != device.ram && local != device.flash
    }

    /** They hold the state `s`, but for what is pending. */
    ghost predicate Holds(s: State)
      reads Repr()
    {
      && Sound()
      && hdPath == s.hdPath && signPath == s.signPath && stream == s.stream
      && payloadLength == s.payloadLength && hdpathLength == s.hdpathLength
      && local[..localLen] == s.local && items == s.items && itemLen == s.itemLen && checkItemLen == s.checkItemLen
      && device.Tx() == s.tx
    }

    /** What is reviewed can be shown and signed: its items and tokens, its text, and the template if it is of one. */
    ghost predicate Ready(s: State, txType: TxType)
      reads Repr()
    {
      && device.Valid() && s.parsed.Some? && parsed.Keeps(txType, s.parsed.value)
      && s.parsed.value.review.context.address == HexOf(c.publicKey(s.signPath))
      && (txType == TxJson ==> s.parsed.value.text <= s.tx)
      && (txType == TxTransfer ==> device.Template() == s.template == s.parsed.value.text)
    }

    /** So it is with the review that is pending. */
    ghost predicate Kept(s: State)
      reads Repr()
    {
      s.pending.PendingSign? ==> Ready(s, TypeOf(s.pending.kind))
    }

    ghost predicate Represents(s: State)
      reads Repr()
    {
      Holds(s) && pending == s.pending && Kept(s)
    }

    /** The calls so far are a run, which the state and the history are those of. */
    ghost predicate OnRun()
      reads `state, `history, `events
    {
      ProperRun(events) && state == StateAfter(c, events) && history == HistoryAfter(c, events)
    }

    ghost predicate Valid()
      reads Repr()
    {
      Represents(state) && Agrees(state, history) && OnRun()
    }

    constructor (c: Crypto)
      ensures Valid() && this.c == c && events == [] && fresh(Repr())
      ensures state == INITIAL && history == NO_HISTORY
    {
      hide StateAfter, HistoryAfter, Agrees;
      this.c := c;
      device := new Platform.Device();
      parsed := new TxParser.Parsed();
      local := new char[LEGACY_LOCAL_BUFFER_SIZE];
      hdPath, signPath, stream, pending := ZERO_PATH, ZERO_PATH, NoStream, NoPending;
      payloadLength, hdpathLength, localLen, items, itemLen, checkItemLen := 0, 0, 0, 0, 0, false;
      state, history, events := INITIAL, NO_HISTORY, [];
      new;
      InitialAgrees();
      NoEvents(c);
      NoHistory(c);
    }

    /** What the fields are, once they are known to hold `s`. */
    lemma {:induction false} Fields(s: State)
      requires Holds(s)
      ensures hdPath == s.hdPath && signPath == s.signPath && stream == s.stream && payloadLength == s.payloadLength &&
              hdpathLength == s.hdpathLength && items == s.items && itemLen == s.itemLen &&
                checkItemLen == s.checkItemLen
      ensures localLen <= local.Length && local[..localLen] == s.local
    {
    }

    method TxBytes(ghost s: State) returns (buf: Bytes)
      requires Holds(s)
      ensures buf == s.tx && Holds(s)
    {
      buf := device.GetTx();
    }

    method ResetTx(ghost s: State)
      requires Holds(s)
      modifies device.buffer
      ensures Holds(s.(tx := []))
    {
      device.TxReset();
    }

    // ---- Paths ---------------------------------------------------------------------------------

    /** The path of a modern command; it ends the modern stream. */
    method ExtractHdPath(ghost s: State, data: Bytes) returns (r: Result<(), nat>)
      requires Holds(s)
      modifies `hdPath, `stream
      ensures Holds(AppSpec.ExtractHdPath(s, data).0) && r == AppSpec.ExtractHdPath(s, data).1
    {
      if stream.Modern? {
        stream := NoStream;
      }
      if |data| < 20 {
        return Err(WRONG_LENGTH);
      }
      hdPath := ReadPath(data, 0, 5);
      r := if PrefixOk(hdPath) then Ok(()) else Err(DATA_INVALID);
    }

    method LegacyExtractHdPath(ghost s: State, buf: Bytes, offset: nat, checkLen: bool) returns (r: Result<(), nat>)
      requires Holds(s)
      modifies `hdPath, `hdpathLength
      ensures Holds(LegacyHdPath(s, buf, offset, checkLen).0) && r == LegacyHdPath(s, buf, offset, checkLen).1
    {
      if |buf| <= offset {
        return Err(WRONG_LENGTH);
      }
      var qty := buf[offset] as int;
      if !(2 <= qty <= 5) {
        return Err(DATA_INVALID);
      }
      var len := qty * 4;
      var start := offset + 1;
      if start + len > |buf| {
        return Err(WRONG_LENGTH);
      }
      if checkLen && |buf| - start != len {
        return Err(WRONG_LENGTH);
      }
      hdPath := ReadPath(buf, start, qty);
      if !PrefixOk(hdPath) {
        return Err(DATA_INVALID);
      }
      hdpathLength := len + 1;
      r := Ok(());
    }

    /** Reads `n` components into a path of five. */
    method ReadPath(b: Bytes, start: nat, n: nat) returns (path: Path)
      requires n <= 5 && start + 4 * n <= |b|
      ensures path == PathAt(b, start, n)
    {
      path := ZERO_PATH;
      for i := 0 to n
        invariant forall k | 0 <= k < 5 :: path[k] == if k < i then Le32(b, start + 4 * k) else 0
      {
        path := path[i := Le32(b, start + 4 * i)];
      }
    }

    // ---- Addresses -----------------------------------------------------------------------------

    method GetAddress(ghost s: State, p1: nat, data: Bytes) returns (r: Handled)
      requires Holds(s) && pending == s.pending == NoPending
      modifies `hdPath, `stream, `pending
      ensures var (t, out) := GetAddr(c, s, p1, data); Holds(t) && pending == t.pending && r == out
    {
      var extracted := ExtractHdPath(s, data);
      if extracted.Err? {
        return Err(extracted.error);
      }
      var pk := c.publicKey(hdPath);
      if pk.None? {
        return Err(EXECUTION_ERROR);
      }
      if p1 != 0 {
        pending := PendingAddress(pk.value, false);
        return Ok(ReviewAddress);
      }
      r := Ok(Send(Reply(pk.value, OK)));
    }

    method LegacyGetAddress(ghost s: State, show: bool, a: Apdu) returns (r: Handled)
      requires Holds(s) && pending == s.pending == NoPending
      modifies `hdPath, `hdpathLength, `pending
      ensures var (t, out) := LegacyGetAddr(c, s, show, a); Holds(t) && pending == t.pending && r == out
    {
      hide Raw, PathAt;
      var extracted := LegacyExtractHdPath(s, Raw(a), LEGACY_HEADER_LENGTH, true);
      if extracted.Err? {
        return Err(extracted.error);
      }
      var pk := c.publicKey(hdPath);
      if pk.None? {
        return Err(EXECUTION_ERROR);
      }
      if show {
        pending := PendingAddress(pk.value, true);
        return Ok(ReviewAddress);
      }
      r := Ok(Send(Reply(" " + pk.value, OK)));
    }

    // ---- Parsing -------------------------------------------------------------------------------

    /** Reads, stores and validates the review of a JSON text. */
    method ReviewJson(txType: TxType, text: Bytes, expert: bool) returns (r: Base.Outcome<ParserError>)
      requires Sound() && |text| < JsmnSpec.UNSET && txType != TxHash
      modifies parsed, parsed.tokens, parsed.items, parsed.items.items
      ensures Sound()
      ensures match ReviewText(c, signPath, text, expert)
              case Err(e) => r == Fail(e)
              case Ok(review) =>
                && r == Pass && parsed.Keeps(txType, Parsed(review, text))
                && review.context.address == HexOf(c.publicKey(signPath))
    {
      hide Integrity.ReadJson, TxReview, Shows, Rendering.SaneSpans;
      r := parsed.ReadJson(text);
      if r.Fail? {
        return;
      }
      ghost var d := RenderProof.ReadDocument(text);
      var j := parsed.Document(text);
      var key, digest := c.publicKey(signPath), c.blake2b(text);
      r := parsed.StoreTx(txType, j, key, digest, expert);
      if r.Fail? {
        return;
      }
      ghost var review := TxReview(j, key, digest, expert).value;
      TxParser.TxReady(j, key, digest, expert);
      AddressOf(j, key, digest, expert);
      r := parsed.Validate(j, Some(T.HexLower(key.value)), review);
    }

    lemma {:induction false} AddressOf(j: Json.Json, key: Option<Key32>, digest: Option<Key32>, expert: bool)
      requires TxReview(j, key, digest, expert).Ok?
      ensures key.Some? && TxReview(j, key, digest, expert).value.context.address == Some(T.HexLower(key.value))
    {
      hide Json.JsonData.GetResult, ItemSpec.FindDeviceSigner, ItemSpec.TxItems, Extend, HashShown;
    }

    /** The review of the 32 bytes of a hash. */
    method ReviewHash(msg: Bytes, expert: bool) returns (r: Base.Outcome<ParserError>)
      requires Sound()
      modifies parsed, parsed.tokens, parsed.items, parsed.items.items
      ensures Sound()
      ensures match (if |msg| != HASH_LEN then Err(UnexpectedBufferEnd)
                     else HashParsed(msg, c.publicKey(signPath), expert))
              case Err(e) => r == Fail(e)
              case Ok(p) =>
                && r == Pass && parsed.Keeps(TxHash, p)
                && p.review.context.address == HexOf(c.publicKey(signPath))
    {
      hide HashReview, Shows, HashShown;
      if |msg| != HASH_LEN {
        return Fail(UnexpectedBufferEnd);
      }
      var key := c.publicKey(signPath);
      r := parsed.StoreHash(msg, key, expert);
      TxParser.HashReady(msg, key, expert);
      HashAddress(msg, key, expert);
      r := parsed.Validate(Json.JsonData([], []), HexOf(key), HashReview(msg, key, expert));
    }

    lemma {:induction false} HashAddress(hash: Key32, key: Option<Key32>, expert: bool)
      ensures HashReview(hash, key, expert).context.address == HexOf(key)
    {
      hide HashShown, T.HexLower;
    }

    /** Builds the template of a request, stores it and reviews it. */
    method ReviewTransfer(ghost s: State, msg: Bytes, expert: bool) returns (r: Base.Outcome<ParserError>)
      requires Holds(s) && msg == s.tx && AllBytes(msg)
      modifies device`templateLen, device.ram, parsed, parsed.tokens, parsed.items, parsed.items.items
      ensures Holds(s)
      ensures match ParseTx(c, signPath, TxTransfer, msg, s.template, expert)
              case (_, Err(e)) => r == Fail(e)
              case (t, Ok(p)) =>
                && r == Pass && parsed.Keeps(TxTransfer, p) && device.Template() == t == p.text
                && p.review.context.address == HexOf(c.publicKey(signPath))
    {
      hide ReviewText, T.Build;
      r := StoreTemplate(s, msg);
      if r.Fail? {
        return;
      }
      var template := device.GetTemplate();
      r := ReviewJson(TxTransfer, template, expert);
    }

    /** Builds the template and stores it over the end of RAM; the transaction keeps every byte. */
    method StoreTemplate(ghost s: State, msg: Bytes) returns (r: Base.Outcome<ParserError>)
      requires Holds(s) && msg == s.tx && AllBytes(msg)
      modifies device`templateLen, device.ram
      ensures Holds(s)
      ensures match T.Build(msg, c.publicKey(signPath))
              case Err(e) => r == Fail(e)
              case Ok(t) => r == Pass && device.Template() == t && |t| <= T.TEMPLATE_BUF
    {
      hide T.Format, T.ReadRequest;
      var t := new char[T.TEMPLATE_BUF];
      var n := Transfer.BuildInto(msg, c.publicKey(signPath), t);
      if n.Err? {
        return Fail(n.error);
      }
      BuiltBody(msg, c.publicKey(signPath));
      device.TemplateStore(t[..n.value]);
      r := Pass;
    }

    /** A body that is accepted does not reach the template. */
    lemma {:induction false} BuiltBody(msg: Bytes, key: Option<Key32>)
      requires AllBytes(msg) && T.Build(msg, key).Ok?
      ensures |msg| <= 3073 && |T.Build(msg, key).value| <= T.TEMPLATE_BUF
    {
      hide T.ReadRequest, T.Pieces, T.Join;
      BodyLength(msg);
    }

    /** `tx_parse` over the first `len` bytes of the transaction. */
    method TxParseInto(ghost s: State, env: Env, txType: TxType, len: nat) returns (r: Result<bool, ParserError>)
      requires Holds(s) && len <= |s.tx| <= FLASH_CAP && (txType == TxTransfer ==> len == |s.tx| && AllBytes(s.tx))
      modifies device`templateLen, device.ram, parsed, parsed.tokens, parsed.items, parsed.items.items
      ensures Holds(ParseStep(c, env, s, txType, len).0) && r == ParseStep(c, env, s, txType, len).1
      ensures r.Ok? ==> Ready(ParseStep(c, env, s, txType, len).0, txType)
    {
      hide ParseTx, ItemSpec.NeedsBlind, AllBytes, ParseStep, Holds, TxParser.Parsed.Keeps, Ready;
      StepIs(env, s, txType, len);
      Fields(s);
      if txType == TxHash && !env.blindSigning {
        return Err(BlindsignModeRequired);
      }
      if len == 0 {
        return Err(InitContextEmpty);
      }
      var tx := TxBytes(s);
      var msg := tx[..len];
      assert txType == TxTransfer ==> msg == tx;
      var done := ReviewOf(s, msg, txType, env.expert);
      if done.Fail? {
        ParseLeft(env, s, txType, len);
        return Err(done.error);
      }
      var blind := ReviewIsBlind(s, txType, ParseTx(c, signPath, txType, msg, s.template, env.expert).1.value);
      ParseLeft(env, s, txType, len);
      if txType != TxHash && !blind {
        return Ok(false);
      }
      r := if env.blindSigning then Ok(true) else Err(BlindsignModeRequired);
    }

    method ReviewIsBlind(ghost s: State, ghost txType: TxType, ghost p: Parsed) returns (blind: bool)
      requires Holds(s) && parsed.Keeps(txType, p)
      ensures Holds(s) && parsed.Keeps(txType, p) && device.Valid() && device.Template() == old(device.Template())
      ensures blind == ItemSpec.NeedsBlind(p.review.items)
    {
      blind := parsed.items.CheckBlind();
    }

    /** What was reviewed is ready, if the parse is accepted. */
    lemma {:induction false} ParseLeft(env: Env, s: State, txType: TxType, len: nat)
      requires Holds(s) && len <= |s.tx| && !(txType == TxHash && !env.blindSigning) && len > 0
      requires match ParseTx(c, signPath, txType, s.tx[..len], s.template, env.expert)
               case (_, Err(_)) => true
               case (t, Ok(p)) =>
                 && parsed.Keeps(txType, p) && p.review.context.address == HexOf(c.publicKey(signPath))
                 && (txType == TxJson ==> p.text == s.tx[..len])
                 && (txType == TxTransfer ==> device.Template() == t == p.text)
      ensures var (u, r) := ParseStep(c, env, s, txType, len); Holds(u) && (r.Ok? ==> Ready(u, txType))
    {
      hide ParseTx, ParseStep, ItemSpec.NeedsBlind, Holds;
      StepIs(env, s, txType, len);
      Fields(s);
      match ParseTx(c, signPath, txType, s.tx[..len], s.template, env.expert)
      case (t, Err(_)) => Unread(s, t, s.parsed);
      case (t, Ok(p)) =>
        Unread(s, t, Some(p));
        DeviceValid(s);
    }

    lemma {:induction false} DeviceValid(s: State)
      requires Holds(s)
      ensures device.Valid()
    {
    }

    /** The fields do not depend on the template and on what was parsed. */
    lemma {:induction false} Unread(s: State, template: Bytes, p: Option<Parsed>)
      requires Holds(s)
      ensures Holds(s.(template := template)) && Holds(s.(template := template, parsed := p))
    {
    }

    /** What is left of a parse. */
    lemma {:induction false} StepIs(env: Env, s: State, txType: TxType, len: nat)
      requires len <= |s.tx|
      ensures if txType == TxHash && !env.blindSigning then
                ParseStep(c, env, s, txType, len) == (s, Err(BlindsignModeRequired))
              else if len == 0 then ParseStep(c, env, s, txType, len) == (s, Err(InitContextEmpty))
              else
                match ParseTx(c, s.signPath, txType, s.tx[..len], s.template, env.expert)
                case (t, Err(e)) => ParseStep(c, env, s, txType, len) == (s.(template := t), Err(e))
                case (t, Ok(p)) =>
                  if txType != TxHash && !ItemSpec.NeedsBlind(p.review.items) then
                    ParseStep(c, env, s, txType, len) == (s.(template := t, parsed := Some(p)), Ok(false))
                  else if env.blindSigning then
                    ParseStep(c, env, s, txType, len) == (s.(template := t, parsed := Some(p)), Ok(true))
                  else ParseStep(c, env, s, txType, len) == (s.(template := t), Err(BlindsignModeRequired))
    {
      hide ParseTx, ItemSpec.NeedsBlind;
    }

    method ReviewOf(ghost s: State, msg: Bytes, txType: TxType, expert: bool) returns (r: Base.Outcome<ParserError>)
      requires Holds(s) && |msg| <= FLASH_CAP && (txType == TxTransfer ==> msg == s.tx && AllBytes(msg))
      modifies device`templateLen, device.ram, parsed, parsed.tokens, parsed.items, parsed.items.items
      ensures Holds(s)
      ensures match ParseTx(c, signPath, txType, msg, s.template, expert)
              case (_, Err(e)) => r == Fail(e)
              case (t, Ok(p)) =>
                && r == Pass && parsed.Keeps(txType, p) && p.review.context.address == HexOf(c.publicKey(signPath))
                && (txType == TxJson ==> p.text == msg) && (txType == TxTransfer ==> device.Template() == t == p.text)
    {
      hide ReviewText, HashParsed, T.Build;
      match txType
      case TxJson => r := ReviewJson(TxJson, msg, expert);
      case TxHash => r := ReviewHash(msg, expert);
      case TxTransfer => r := ReviewTransfer(s, msg, expert);
    }

    // ---- Modern chunks -------------------------------------------------------------------------

    /** A middle or last chunk belongs to an open stream of its own command. */
    method ContinueModern(ghost s: State, ins: nat) returns (r: Result<(), nat>)
      requires Holds(s)
      modifies `stream
      ensures s.stream == Modern(ins) ==> r == Ok(()) && Holds(s)
      ensures s.stream != Modern(ins) ==> r == Err(TX_NOT_INITIALIZED) && Holds(s.(stream := NoStream))
    {
      if stream == Modern(ins) {
        return Ok(());
      }
      stream := NoStream;
      r := Err(TX_NOT_INITIALIZED);
    }

    /** With no signature pending, the fields are all there is. */
    lemma {:induction false} Idle(t: State)
      requires Holds(t) && pending == t.pending && !t.pending.PendingSign?
      ensures Represents(t)
    {
    }

    /** The first chunk closes any stream, and opens one bound to its path. */
    method OpenModern(ghost s: State, ghost env: Env, ins: nat, ghost txType: TxType, data: Bytes) returns (r: Handled)
      requires Holds(s)
      modifies `hdPath, `signPath, `stream, device.buffer
      ensures var (t, out) := SignChunk(c, env, s, ins, txType, P1_INIT, data); Holds(t) && r == out
    {
      hide ParseStep, PathAt;
      device.TxReset();
      stream := NoStream;
      var extracted := ExtractHdPath(s.(tx := [], stream := NoStream), data);
      if extracted.Err? {
        return Err(extracted.error);
      }
      signPath := hdPath;
      stream := Modern(ins);
      r := Ok(Send(Reply([], OK)));
    }

    method SignChunkStep(ghost s: State, ghost h: History, env: Env, ins: nat, txType: TxType, p1: nat, data: Bytes)
        returns (r: Handled)
      requires Holds(s) && Agrees(s, h) && AllBytes(data) && pending == s.pending == NoPending
      modifies `hdPath, `signPath, `stream, `pending
      modifies device`templateLen, device.buffer, device.ram, device.flash, parsed, parsed.tokens, parsed.items,
        parsed.items.items
      ensures Represents(SignChunk(c, env, s, ins, txType, p1, data).0) &&
              r == SignChunk(c, env, s, ins, txType, p1, data).1
    {
      hide TxParse, ParseStep, PathAt, AllBytes, Holds, Kept, Holding;
      ghost var t := SignChunk(c, env, s, ins, txType, p1, data).0;
      if p1 == P1_INIT {
        InitKeepsPending(env, s, ins, txType, data);
        r := OpenModern(s, env, ins, txType, data);
        Idle(t);
        return;
      }
      if p1 != P1_ADD && p1 != P1_LAST {
        Idle(t);
        return Err(INVALID_P1P2);
      }
      var open := ContinueModern(s, ins);
      if open.Err? {
        Idle(t);
        return Err(open.error);
      }
      AllBytesCat(h.received, data);
      var appended := AddModern(s, data, p1 == P1_LAST);
      if !appended {
        Idle(t);
        return Err(OUTPUT_BUFFER_TOO_SMALL);
      }
      if p1 == P1_ADD {
        Idle(t);
        return Ok(Send(Reply([], OK)));
      }
      r := ModernReview(s.(tx := s.tx + data, stream := NoStream), env, txType);
    }

    lemma {:induction false} InitKeepsPending(env: Env, s: State, ins: nat, txType: TxType, data: Bytes)
      ensures SignChunk(c, env, s, ins, txType, P1_INIT, data).0.pending == s.pending
    {
      hide ParseStep, PathAt;
    }

    /** Adds the data of a chunk; a last chunk, or one that does not fit, closes the stream. */
    method AddModern(ghost s: State, data: Bytes, last: bool) returns (fits: bool)
      requires Holds(s)
      modifies `stream, device.buffer, device.ram, device.flash
      ensures var (tx, ok) := Appended(s.tx, data);
              fits == ok && Holds(if last || !ok then s.(tx := tx, stream := NoStream) else s.(tx := tx))
    {
      fits := device.TxAppend(data);
      if last || !fits {
        stream := NoStream;
      }
    }

    /** The review is pending. */
    method MakeReady(ghost t: State, kind: SignKind)
      requires Holds(t) && Ready(t, TypeOf(kind))
      modifies `pending
      ensures Represents(t.(pending := PendingSign(kind)))
    {
      pending := PendingSign(kind);
    }

    /** The last chunk is in: the whole buffer is parsed. */
    method ModernReview(ghost s: State, env: Env, txType: TxType) returns (r: Handled)
      requires Holds(s) && AllBytes(s.tx) && |s.tx| <= FLASH_CAP && pending == s.pending == NoPending
      modifies `pending, device`templateLen, device.ram, parsed, parsed.tokens, parsed.items, parsed.items.items
      ensures var (t, out) := ParseStep(c, env, s, txType, |s.tx|);
              match out
              case Err(e) => Represents(t) && r == Ok(ErrorWithMessage(e))
              case Ok(blind) => Represents(t.(pending := PendingSign(SignModern(txType)))) && r == Ok(ReviewTx(blind))
    {
      hide TxParse, ParseStep, AllBytes, Description, Holds;
      ParseLeaves(c, env, s, txType, |s.tx|);
      var tx := TxBytes(s);
      var blind := TxParseInto(s, env, txType, |tx|);
      ghost var t := ParseStep(c, env, s, txType, |s.tx|).0;
      if blind.Err? {
        Idle(t);
        return Ok(ErrorWithMessage(blind.error));
      }
      MakeReady(t, SignModern(txType));
      r := Ok(ReviewTx(blind.value));
    }

    // ---- Legacy streams ------------------------------------------------------------------------

    method LegacyFirstChunk(ghost s: State, ins: nat) returns (r: Result<bool, nat>)
      requires Holds(s)
      modifies `stream
      ensures Holds(LegacyFirst(s, ins).0) && r == LegacyFirst(s, ins).1
    {
      if stream == NoStream {
        return Ok(true);
      }
      if stream == Legacy(ins) {
        return Ok(false);
      }
      stream := NoStream;
      r := Err(TX_NOT_INITIALIZED);
    }

    /** A short append resets the buffer and closes the stream. */
    method AppendLegacy(ghost s: State, data: Bytes) returns (r: Result<(), nat>)
      requires Holds(s)
      modifies `stream, device.buffer, device.ram, device.flash
      ensures Holds(LegacyAppend(s, data).0) && r == LegacyAppend(s, data).1
      ensures local[..] == old(local[..])
    {
      var fits := device.TxAppend(data);
      if !fits {
        device.TxReset();
        stream := NoStream;
        return Err(OUTPUT_BUFFER_TOO_SMALL);
      }
      r := Ok(());
    }

    method LegacyEndOfChunk(ghost s: State) returns (end: bool)
      requires Holds(s)
      ensures end == EndOfChunk(s) && Holds(s)
    {
      var buf := device.GetTx();
      if payloadLength < |buf| {
        var qty := buf[payloadLength] as int;
        if !(2 <= qty <= 5) {
          return false;
        }
        if payloadLength + qty * 4 + 1 == |buf| {
          return true;
        }
      }
      end := false;
    }

    /** Opens or continues a 0x03 or 0x04 stream with the data of one chunk. */
    method AddLegacy(ghost s: State, ins: nat, json: bool, data: Bytes) returns (r: Result<(), nat>)
      requires Holds(s) && (s.stream == NoStream || s.stream == Legacy(ins)) &&
               (s.stream == NoStream && json ==> |data| >= 4)
      modifies `stream, `payloadLength, device.buffer, device.ram, device.flash
      ensures Holds(LegacyAdded(s, ins, json, data).0) && r == LegacyAdded(s, ins, json, data).1
    {
      hide Le32;
      var off := 0;
      ghost var begun := s;
      if stream == NoStream {
        if json {
          payloadLength := Le32(data, 0);
          off := 4;
        } else {
          payloadLength := HASH_LEN;
        }
        device.TxReset();
        stream := Legacy(ins);
        begun := s.(payloadLength := payloadLength, tx := [], stream := Legacy(ins));
      }
      assert data[0..] == data;
      r := AppendLegacy(begun, data[off..]);
    }

    method LegacySignStep(ghost s: State, ghost h: History, env: Env, ins: nat, json: bool, data: Bytes)
        returns (r: Handled)
      requires Holds(s) && |s.tx| <= FLASH_CAP && pending == s.pending == NoPending
      modifies `hdPath, `signPath, `stream, `pending, `payloadLength, `hdpathLength
      modifies device`templateLen, device.buffer, device.ram, device.flash, parsed, parsed.tokens, parsed.items,
        parsed.items.items
      ensures Represents(LegacySign(c, env, s, ins, json, data).0) && r == LegacySign(c, env, s, ins, json, data).1
    {
      hide LegacySign, LegacyComplete, LegacyAdded, AllBytes, Holds, Kept;
      LegacySignIs(c, env, s, ins, json, data);
      ghost var t := LegacySign(c, env, s, ins, json, data).0;
      var first := LegacyFirstChunk(s, ins);
      if first.Err? {
        Idle(t);
        return Err(first.error);
      }
      if first.value && json && |data| < 4 {
        Idle(t);
        return Err(WRONG_LENGTH);
      }
      AddedState(s, ins, json, data);
      ghost var u := LegacyAdded(s, ins, json, data).0;
      var added := AddLegacy(s, ins, json, data);
      if added.Err? {
        Idle(t);
        return Err(added.error);
      }
      var end := LegacyEndOfChunk(u);
      if !(LEGACY_HEADER_LENGTH + |data| < LEGACY_FULL_CHUNK_SIZE || end) {
        Idle(t);
        return Ok(Send(Reply([], OK)));
      }
      CloseStream(u);
      r := CheckRequest(u.(stream := NoStream), env, json);
    }

    /** Binds the signature to the path just read. */
    method TakePath(ghost s: State)
      requires Holds(s)
      modifies `signPath
      ensures Holds(s.(signPath := s.hdPath))
    {
      signPath := hdPath;
    }

    method CloseStream(ghost s: State)
      requires Holds(s)
      modifies `stream
      ensures Holds(s.(stream := NoStream))
    {
      stream := NoStream;
    }

    lemma {:induction false} AddedState(s: State, ins: nat, json: bool, data: Bytes)
      requires (s.stream == NoStream || s.stream == Legacy(ins)) && (s.stream == NoStream && json ==> |data| >= 4) &&
               |s.tx| <= FLASH_CAP
      ensures LegacyAdded(s, ins, json, data).0.pending == s.pending &&
              |LegacyAdded(s, ins, json, data).0.tx| <= FLASH_CAP
    {
      hide Le32;
    }

    /** The payload, then the path, which must end the buffer. */
    method CheckRequest(ghost s: State, env: Env, json: bool) returns (r: Handled)
      requires Holds(s) && |s.tx| <= FLASH_CAP && pending == s.pending == NoPending
      modifies `hdPath, `signPath, `pending, `hdpathLength
      modifies device`templateLen, device.buffer, device.ram, parsed, parsed.tokens, parsed.items, parsed.items.items
      ensures Represents(LegacyComplete(c, env, s, json).0) && r == LegacyComplete(c, env, s, json).1
    {
      hide LegacyReview, PathAt, Kept, Holds;
      Fields(s);
      var buf := TxBytes(s);
      if |buf| < payloadLength {
        ResetTx(s);
        Idle(s.(tx := []));
        return Err(DATA_INVALID);
      }
      var extracted := LegacyExtractHdPath(s, buf, payloadLength, true);
      ghost var t := LegacyHdPath(s, buf, s.payloadLength, true).0;
      if extracted.Err? {
        Idle(t);
        return Err(extracted.error);
      }
      // The path ends the buffer: its length and the payload's make up the whole.
      Fields(t);
      TakePath(t);
      r := ReviewLegacy(t.(signPath := t.hdPath), env, json, |buf| - hdpathLength);
    }

    method ReviewLegacy(ghost s: State, env: Env, json: bool, msgLen: nat) returns (r: Handled)
      requires Holds(s) && msgLen <= |s.tx| <= FLASH_CAP && pending == s.pending == NoPending
      modifies `pending, device`templateLen, device.buffer, device.ram, parsed, parsed.tokens, parsed.items,
        parsed.items.items
      ensures Represents(LegacyReview(c, env, s, json, msgLen).0) && r == LegacyReview(c, env, s, json, msgLen).1
    {
      hide TxParse, ParseStep, Description, Holds;
      var txType := if json then TxJson else TxHash;
      ParseLeaves(c, env, s, txType, msgLen);
      var blind := TxParseInto(s, env, txType, msgLen);
      ghost var t := ParseStep(c, env, s, txType, msgLen).0;
      if blind.Err? {
        if json && blind.error != BlindsignModeRequired {
          ResetTx(t);
          Idle(t.(tx := []));
          return Err(DATA_INVALID);
        }
        Idle(t);
        return Ok(ErrorWithMessage(blind.error));
      }
      MakeReady(t, SignLegacy(txType, msgLen));
      r := Ok(ReviewTx(blind.value));
    }

    // ---- INS 0x10 ------------------------------------------------------------------------------

    /** Forgets what an earlier transfer has left. */
    method ClearTransfer(ghost s: State)
      requires Holds(s)
      modifies `localLen, `checkItemLen, `itemLen, `items
      ensures Holds(s.(local := [], checkItemLen := false, itemLen := 0, items := 0))
    {
      localLen, checkItemLen, itemLen, items := 0, false, 0, 0;
    }

    /** Opens the stream, bound to the path just read. */
    method OpenTransfer(ghost s: State)
      requires Holds(s)
      modifies `signPath, `stream, device.buffer
      ensures Holds(s.(signPath := s.hdPath, tx := [], stream := Legacy(INS_LEGACY_TRANSFER)))
    {
      signPath := hdPath;
      device.TxReset();
      stream := Legacy(INS_LEGACY_TRANSFER);
    }

    /** The first APDU of a structured transfer. */
    method InitTransfer(ghost s: State, buf: Bytes) returns (r: Result<nat, nat>)
      requires Holds(s)
      modifies `hdPath, `signPath, `stream, `hdpathLength, `localLen, `checkItemLen, `itemLen, `items
      modifies device.buffer, device.ram, device.flash
      ensures Holds(InitializeTransfer(s, buf).0) && r == InitializeTransfer(s, buf).1
    {
      hide PathAt, Holds, LegacyHdPath;
      ClearTransfer(s);
      ghost var cleared := s.(local := [], checkItemLen := false, itemLen := 0, items := 0);
      var extracted := LegacyExtractHdPath(cleared, buf, LEGACY_HEADER_LENGTH, false);
      if extracted.Err? {
        return Err(extracted.error);
      }
      ghost var t := LegacyHdPath(cleared, buf, LEGACY_HEADER_LENGTH, false).0;
      OpenTransfer(t);
      ghost var u := t.(signPath := t.hdPath, tx := [], stream := Legacy(INS_LEGACY_TRANSFER));
      Fields(u);
      var offset := hdpathLength + LEGACY_HEADER_LENGTH;
      if offset + 1 > |buf| {
        return Err(WRONG_LENGTH);
      }
      var added := AppendLegacy(u, buf[offset..offset + 1]);
      match added
      case Err(e) => r := Err(e);
      case Ok(_) => r := Ok(offset + 1);
    }

    /** A later APDU: what was kept aside, then the rest of its item. */
    method ExistingTransfer(ghost s: State, buf: Bytes) returns (r: Result<nat, nat>)
      requires Holds(s)
      modifies `stream, `localLen, `items, device.buffer, device.ram, device.flash
      ensures Holds(ContinueTransfer(s, buf).0) && r == ContinueTransfer(s, buf).1
    {
      hide Holds;
      Fields(s);
      var saved := local[..localLen];
      var added := AppendLegacy(s, saved);
      if added.Err? {
        return Err(added.error);
      }
      ghost var t := LegacyAppend(s, s.local).0;
      var offset := LEGACY_HEADER_LENGTH;
      var next;
      if checkItemLen {
        if |buf| <= offset {
          return Err(WRONG_LENGTH);
        }
        next := offset + buf[offset] as int + 1;
      } else {
        if itemLen <= localLen {
          return Err(DATA_INVALID);
        }
        next := offset + itemLen - localLen;
      }
      if next > |buf| {
        return Err(WRONG_LENGTH);
      }
      added := AppendLegacy(t, buf[offset..next]);
      if added.Err? {
        return Err(added.error);
      }
      CountRest(LegacyAppend(t, buf[offset..next]).0);
      r := Ok(next);
    }

    /** The item that was cut short is complete. */
    method CountRest(ghost s: State)
      requires Holds(s)
      modifies `items, `localLen
      ensures Holds(s.(items := U8(s.items + 1), local := []))
    {
      items := U8(items + 1);
      localLen := 0;
    }

    /** Keeps aside an item that ends past byte 235. */
    method HandleOverflow(ghost s: State, buf: Bytes, offset: nat, payload: nat) returns (r: Result<(), nat>)
      requires Holds(s) && offset <= LEGACY_FULL_CHUNK_SIZE <= |buf|
      modifies `checkItemLen, `itemLen, `localLen, local
      ensures Holds(Overflow(s, buf, offset, payload).0) && r == Overflow(s, buf, offset, payload).1
    {
      checkItemLen := false;
      itemLen := U8(payload + 1);
      var n := LEGACY_FULL_CHUNK_SIZE - offset;
      if n >= LEGACY_LOCAL_BUFFER_SIZE {
        return Err(OUTPUT_BUFFER_TOO_SMALL);
      }
      localLen := n;
      forall i | 0 <= i < n { local[i] := buf[offset + i]; }
      assert local[..n] == buf[offset..LEGACY_FULL_CHUNK_SIZE];
      r := Ok(());
    }

    /** One item that is wholly in the APDU. */
    method AddItem(ghost s: State, item: Bytes) returns (r: Result<(), nat>)
      requires Holds(s)
      modifies `stream, `items, device.buffer, device.ram, device.flash
      ensures r == LegacyAppend(s, item).1
      ensures Holds(if r.Ok? then WithItem(s, item) else LegacyAppend(s, item).0)
    {
      r := AppendLegacy(s, item);
      if r.Err? {
        return;
      }
      items := U8(items + 1);
    }

    /** The items of an APDU from byte `first` on; whether the twelve are complete. */
    method ReadItems(ghost s: State, buf: Bytes, first: nat) returns (r: Result<bool, nat>)
      requires Holds(s)
      modifies `stream, `items, `checkItemLen, `itemLen, `localLen, local, device.buffer, device.ram, device.flash
      ensures Holds(TransferItems(s, buf, first).0) && r == TransferItems(s, buf, first).1
    {
      hide Holds, TransferItems, Overflow;
      ghost var cur := s;
      var offset := first;
      while offset < |buf| && offset != LEGACY_FULL_CHUNK_SIZE
        invariant Holds(cur) && TransferItems(s, buf, first) == TransferItems(cur, buf, offset)
        decreases |buf| - offset
      {
        ItemsCases(cur, buf, offset);
        var payload := buf[offset] as int;
        var next := offset + payload + 1;
        if next > LEGACY_FULL_CHUNK_SIZE {
          if |buf| != LEGACY_FULL_CHUNK_SIZE {
            return Err(WRONG_LENGTH);
          }
          var kept := HandleOverflow(cur, buf, offset, payload);
          return if kept.Err? then Err(kept.error) else Ok(false);
        }
        if next > |buf| {
          return Err(WRONG_LENGTH);
        }
        var added := AddItem(cur, buf[offset..next]);
        if added.Err? {
          return Err(added.error);
        }
        ItemsUnfold(cur, buf, offset);
        cur := WithItem(cur, buf[offset..next]);
        var count := ItemCount(cur);
        if count > LEGACY_TRANSFER_NUM_ITEMS {
          return Err(DATA_INVALID);
        }
        if next >= |buf| && next != LEGACY_FULL_CHUNK_SIZE {
          if count != LEGACY_TRANSFER_NUM_ITEMS {
            return Err(DATA_INVALID);
          }
          CloseStream(cur);
          return Ok(true);
        }
        offset := next;
      }
      ItemsCases(cur, buf, offset);
      if offset == LEGACY_FULL_CHUNK_SIZE && offset <= |buf| {
        ExpectLength(cur);
        return Ok(false);
      }
      r := Err(DATA_INVALID);
    }

    /** Every way in which the items of an APDU can end here. */
    lemma {:induction false} ItemsCases(s: State, buf: Bytes, pos: nat)
      ensures pos > |buf| ==> TransferItems(s, buf, pos) == (s, Err(DATA_INVALID))
      ensures pos == LEGACY_FULL_CHUNK_SIZE <= |buf| ==>
              TransferItems(s, buf, pos) == (s.(checkItemLen := true), Ok(false))
      ensures pos == |buf| != LEGACY_FULL_CHUNK_SIZE ==> TransferItems(s, buf, pos) == (s, Err(DATA_INVALID))
      ensures pos < |buf| && pos != LEGACY_FULL_CHUNK_SIZE ==>
                var next := pos + buf[pos] as int + 1;
                && (next > LEGACY_FULL_CHUNK_SIZE ==>
                      TransferItems(s, buf, pos) ==
                      if |buf| != LEGACY_FULL_CHUNK_SIZE then (s, Err(WRONG_LENGTH))
                      else
                        match Overflow(s, buf, pos, buf[pos] as int)
                        case (t, Err(e)) => (t, Err(e))
                        case (t, Ok(_)) => (t, Ok(false)))
                && (next <= LEGACY_FULL_CHUNK_SIZE && next > |buf| ==>
                  TransferItems(s, buf, pos) == (s, Err(WRONG_LENGTH)))
                && (next <= LEGACY_FULL_CHUNK_SIZE && next <= |buf| && LegacyAppend(s, buf[pos..next]).1.Err? ==>
                  TransferItems(s, buf, pos) ==
                  (LegacyAppend(s, buf[pos..next]).0, Err(LegacyAppend(s, buf[pos..next]).1.error)))
    {
      hide Overflow;
    }

    method ItemCount(ghost s: State) returns (n: nat)
      requires Holds(s)
      ensures n == s.items && Holds(s)
    {
      n := items;
    }

    /** The next APDU starts with the length byte of an item. */
    method ExpectLength(ghost s: State)
      requires Holds(s)
      modifies `checkItemLen
      ensures Holds(s.(checkItemLen := true))
    {
      checkItemLen := true;
    }

    method ProcessChunk(ghost s: State, buf: Bytes) returns (r: Result<bool, nat>)
      requires Holds(s)
      modifies `hdPath, `signPath, `stream, `hdpathLength, `localLen, `checkItemLen, `itemLen, `items
      modifies local, device.buffer, device.ram, device.flash
      ensures Holds(TransferChunk(s, buf).0) && r == TransferChunk(s, buf).1
    {
      hide Holds, InitializeTransfer, ContinueTransfer, TransferItems;
      var first := LegacyFirstChunk(s, INS_LEGACY_TRANSFER);
      if first.Err? {
        return Err(first.error);
      }
      var at;
      ghost var t;
      if first.value {
        at := InitTransfer(s, buf);
        t := InitializeTransfer(s, buf).0;
      } else {
        at := ExistingTransfer(s, buf);
        t := ContinueTransfer(s, buf).0;
      }
      if at.Err? {
        return Err(at.error);
      }
      r := ReadItems(t, buf, at.value);
    }

    method LegacyTransferStep(ghost s: State, ghost h: History, env: Env, a: Apdu) returns (r: Handled)
      requires a.ins == INS_LEGACY_TRANSFER && Holds(s) && Agrees(s, h) && AllBytes(a.data)
      requires pending == s.pending == NoPending
      modifies `hdPath, `signPath, `stream, `pending, `hdpathLength, `localLen, `checkItemLen, `itemLen, `items, local
      modifies device`templateLen, device.buffer, device.ram, device.flash, parsed, parsed.tokens, parsed.items,
        parsed.items.items
      ensures Represents(LegacyTransfer(c, env, s, a).0) && r == LegacyTransfer(c, env, s, a).1
    {
      hide Holds, Kept, Raw, TransferChunk, ParseStep, Agrees, AllBytes, Reassembly.Holding, TrackTransfer, Body;
      ghost var h' := TrackTransfer(h, s.stream == NoStream, a);
      ChunkKeeps(s, h, a);
      ghost var t := TransferChunk(s, Raw(a)).0;
      var done := ProcessChunk(s, Raw(a));
      if done.Err? {
        CloseStream(t);
        Idle(t.(stream := NoStream));
        return Err(done.error);
      }
      if !done.value {
        Idle(t);
        return Ok(Send(Reply([], OK)));
      }
      CompleteIs(t, h'.received);
      r := TransferReview(t, env);
    }

    /** The twelve items are in: the template is built and parsed. */
    method TransferReview(ghost s: State, env: Env) returns (r: Handled)
      requires Holds(s) && AllBytes(s.tx) && |s.tx| <= FLASH_CAP && pending == s.pending == NoPending
      modifies `pending, device`templateLen, device.buffer, device.ram, parsed, parsed.tokens, parsed.items,
        parsed.items.items
      ensures var (t, out) := ParseStep(c, env, s, TxTransfer, |s.tx|);
              match out
              case Err(e) =>
                if e == BlindsignModeRequired then Represents(t) && r == Ok(ErrorWithMessage(e))
                else Represents(t.(tx := [])) && r == Err(DATA_INVALID)
              case Ok(blind) => Represents(t.(pending := PendingSign(SignLegacyTransfer))) && r == Ok(ReviewTx(blind))
    {
      hide TxParse, ParseStep, AllBytes, Description, Holds;
      ParseLeaves(c, env, s, TxTransfer, |s.tx|);
      var tx := TxBytes(s);
      var blind := TxParseInto(s, env, TxTransfer, |tx|);
      ghost var t := ParseStep(c, env, s, TxTransfer, |s.tx|).0;
      if blind.Err? {
        Idle(t);
        if blind.error == BlindsignModeRequired {
          return Ok(ErrorWithMessage(BlindsignModeRequired));
        }
        ResetTx(t);
        Idle(t.(tx := []));
        return Err(DATA_INVALID);
      }
      MakeReady(t, SignLegacyTransfer);
      r := Ok(ReviewTx(blind.value));
    }

    // ---- Commands ------------------------------------------------------------------------------

    method DispatchStep(ghost s: State, ghost h: History, env: Env, a: Apdu) returns (r: Handled)
      requires NeedsPin(a.ins) && Holds(s) && Agrees(s, h) && AllBytes(a.data) && pending == s.pending == NoPending
      modifies `hdPath, `signPath, `stream, `pending, `payloadLength, `hdpathLength, `localLen, `checkItemLen,
        `itemLen, `items, local
      modifies device`templateLen, device.buffer, device.ram, device.flash, parsed, parsed.tokens, parsed.items,
        parsed.items.items
      ensures Represents(Dispatch(c, env, s, a).0) && r == Dispatch(c, env, s, a).1
    {
      hide Holds, Kept, Agrees, AllBytes, GetAddr, LegacyGetAddr, SignChunk, LegacySign, LegacyTransfer,
        LegacyVersionReply;
      AgreesSize(s, h);
      if a.ins == INS_GET_ADDR {
        AddressLeaves(c, s, a, false);
        r := GetAddress(s, a.p1, a.data);
        Idle(GetAddr(c, s, a.p1, a.data).0);
      } else if a.ins == INS_SIGN {
        r := SignChunkStep(s, h, env, a.ins, TxJson, a.p1, a.data);
      } else if a.ins == INS_SIGN_HASH {
        r := SignChunkStep(s, h, env, a.ins, TxHash, a.p1, a.data);
      } else if a.ins == INS_SIGN_TRANSFER {
        r := SignChunkStep(s, h, env, a.ins, TxTransfer, a.p1, a.data);
      } else if a.ins == INS_LEGACY_GET_VERSION {
        Idle(s);
        r := Ok(Send(LegacyVersionReply(env)));
      } else if a.ins == INS_LEGACY_VERIFY_ADDRESS {
        AddressLeaves(c, s, a, true);
        r := LegacyGetAddress(s, true, a);
        Idle(LegacyGetAddr(c, s, true, a).0);
      } else if a.ins == INS_LEGACY_GET_PUBKEY {
        AddressLeaves(c, s, a, false);
        r := LegacyGetAddress(s, false, a);
        Idle(LegacyGetAddr(c, s, false, a).0);
      } else if a.ins == INS_LEGACY_SIGN_JSON {
        r := LegacySignStep(s, h, env, a.ins, true, a.data);
      } else if a.ins == INS_LEGACY_SIGN_HASH {
        r := LegacySignStep(s, h, env, a.ins, false, a.data);
      } else {
        r := LegacyTransferStep(s, h, env, a);
      }
    }

    lemma {:induction false} AgreesSize(s: State, h: History)
      requires Agrees(s, h)
      ensures |s.tx| <= FLASH_CAP
    {
      hide Holding, AllBytes;
    }

    /** Any pending review is dropped. */
    method Drop(ghost s: State)
      requires Holds(s)
      modifies `pending
      ensures Holds(s.(pending := NoPending)) && pending == NoPending
    {
      pending := NoPending;
    }

    /** Notes the run so far, and the state it has led to. */
    ghost method Record(s: State, h: History, es: seq<Event>)
      requires Represents(s) && Agrees(s, h) && ProperRun(es) && s == StateAfter(c, es) && h == HistoryAfter(c, es)
      modifies `state, `history, `events
      ensures Valid() && state == s && history == h && events == es
    {
      hide Agrees, StateAfter, HistoryAfter, Proper;
      state, history, events := s, h, es;
    }

    /** One event more leads on from the run so far. */
    lemma {:induction false} RunOn(e: Event)
      requires OnRun() && Proper(e)
      ensures ProperRun(events + [e]) && StateAfter(c, events + [e]) == Next(c, state, e).0
      ensures HistoryAfter(c, events + [e]) == Track(history, state, e)
    {
      hide Next, StateAfter, HistoryAfter, Track, Proper;
      StateNext(c, events, e);
      HistoryNext(c, events, e);
    }

    /** Handles one APDU. */
    method Handle(env: Env, a: Apdu) returns (action: Action)
      requires Valid() && AllBytes(a.data)
      modifies this, local, device`templateLen, device.buffer, device.ram, device.flash
      modifies parsed, parsed.tokens, parsed.items, parsed.items.items
      ensures Valid() && events == old(events) + [Command(env, a)]
      ensures (state, action) == AppSpec.Handle(c, env, old(state), a)
      ensures history == Track(old(history), old(state), Command(env, a))
    {
      hide Holds, Kept, Agrees, AllBytes, AppSpec.Handle, Track, OnRun, StateAfter, HistoryAfter;
      ghost var s, h, es := state, history, events;
      RunOn(Command(env, a));
      DropPending(s, h);
      CommandKeeps(c, env, s, h, a);
      Drop(s);
      action := Serve(s, h, env, a);
      Record(AppSpec.Handle(c, env, s, a).0, Track(h, s, Command(env, a)), es + [Command(env, a)]);
    }

    method Serve(ghost was: State, ghost h: History, env: Env, a: Apdu) returns (action: Action)
      requires Holds(was.(pending := NoPending)) && Agrees(was.(pending := NoPending), h) && AllBytes(a.data) &&
               pending == NoPending
      modifies `hdPath, `signPath, `stream, `pending, `payloadLength, `hdpathLength, `localLen, `checkItemLen,
        `itemLen, `items, local
      modifies device`templateLen, device.buffer, device.ram, device.flash, parsed, parsed.tokens, parsed.items,
        parsed.items.items
      ensures Represents(AppSpec.Handle(c, env, was, a).0) && action == AppSpec.Handle(c, env, was, a).1
    {
      hide Holds, Kept, Agrees, AllBytes, AppSpec.Handle, Dispatch, VersionReply;
      ghost var s := was.(pending := NoPending);
      HandleIs(env, was, a);
      if a.cla == 0xE0 && a.ins == 0x01 && a.p1 == 0 && a.p2 == 0 {
        Idle(s);
        return Send(Reply(env.deviceInfo, OK));
      }
      if a.cla != CLA {
        Idle(s);
        return Send(Reply([], CLA_NOT_SUPPORTED));
      }
      var result: Handled;
      if a.ins == INS_GET_VERSION {
        Idle(s);
        result := Ok(Send(VersionReply(env)));
      } else if NeedsPin(a.ins) {
        if !env.pinValidated {
          Idle(s);
          result := Err(COMMAND_NOT_ALLOWED);
        } else {
          result := DispatchStep(s, h, env, a);
        }
      } else {
        Idle(s);
        result := Err(INS_NOT_SUPPORTED);
      }
      match result
      case Ok(done) => action := done;
      case Err(sw) => action := Send(Reply([], sw));
    }

    lemma {:induction false} HandleIs(env: Env, was: State, a: Apdu)
      ensures AppSpec.Handle(c, env, was, a) ==
              var s := was.(pending := NoPending);
              if a.cla == 0xE0 && a.ins == 0x01 && a.p1 == 0 && a.p2 == 0 then (s, Send(Reply(env.deviceInfo, OK)))
              else if a.cla != CLA then (s, Send(Reply([], CLA_NOT_SUPPORTED)))
              else if a.ins == INS_GET_VERSION then (s, Send(VersionReply(env)))
              else if !NeedsPin(a.ins) then (s, Send(Reply([], INS_NOT_SUPPORTED)))
              else if !env.pinValidated then (s, Send(Reply([], COMMAND_NOT_ALLOWED)))
              else
                match Dispatch(c, env, s, a)
                case (t, Ok(action)) => (t, action)
                case (t, Err(sw)) => (t, Send(Reply([], sw)))
    {
      hide Dispatch, VersionReply;
    }

    // ---- The screens ---------------------------------------------------------------------------

    /** The number of items of the review that is pending. */
    method ReviewLen() returns (n: nat)
      requires Valid() && state.pending.PendingSign?
      ensures n == |state.parsed.value.review.items|
    {
      hide Agrees, OnRun;
      n := parsed.items.num;
    }

    /** What is pending can be shown: what was parsed is kept, and its text is in memory. */
    lemma {:induction false} PendingReady()
      requires Valid() && state.pending.PendingSign?
      ensures device.Valid() && state.parsed.Some? && parsed.txType == TypeOf(state.pending.kind)
      ensures parsed.Keeps(parsed.txType, state.parsed.value)
      ensures state.parsed.value.review.context.address == HexOf(c.publicKey(signPath))
      ensures parsed.txType == TxJson ==> state.parsed.value.text <= device.Tx()
      ensures parsed.txType == TxTransfer ==> state.parsed.value.text == device.Template()
    {
      hide Agrees, OnRun;
    }

    lemma {:induction false} TextAt(txType: TxType, p: Parsed, idx: nat)
      requires idx < |p.review.items|
      ensures ShownTexts(txType, p)[idx] ==
              RenderSpec.Rendered(ShownDocument(txType, p.text), p.review.items[idx], p.review.context)
    {
    }

    /** The text of item `idx` of the review that is pending, from memory. */
    method ReviewItem(idx: nat, value: array<char>) returns (r: Result<nat, ItemSpec.ItemsError>)
      requires Valid() && state.pending.PendingSign? && value !in Repr() && value.Length == RenderSpec.VALUE_BUF
      modifies value
      ensures Valid() && events == old(events)
      ensures var texts := ShownTexts(TypeOf(state.pending.kind), state.parsed.value);
              Rendering.Wrote(r, value[..], if idx < |texts| then texts[idx] else Err(ItemSpec.Failed))
    {
      hide Valid, OnRun, Ready, RenderSpec.Rendered, ItemSpec.NeedsBlind, StateAfter, HistoryAfter, ShownTexts,
        ShownDocument, HexOf, TypeOf, TxParser.Parsed.Keeps;
      PendingReady();
      var text := [];
      if parsed.txType == TxTransfer {
        text := device.GetTemplate();
      } else if parsed.txType == TxJson {
        text := device.GetTx();
      }
      ghost var p := state.parsed.value;
      ShownLength(parsed.txType, p);
      if idx < |p.review.items| { TextAt(parsed.txType, p, idx); }
      r := parsed.RenderStored(text, HexOf(c.publicKey(signPath)), idx, value, p);
    }

    // ---- The user's decision -------------------------------------------------------------------

    /** The reply to an address review. */
    method AddressDone(approved: bool) returns (r: Reply)
      requires Valid()
      modifies `pending, `state, `history, `events
      ensures Valid() && events == old(events) + [AddressAnswer(approved)]
      ensures (state, r) == AppSpec.AddressDone(old(state), approved)
      ensures history == Track(old(history), old(state), AddressAnswer(approved))
    {
      hide Holds, Kept, Agrees, OnRun, StateAfter, HistoryAfter;
      ghost var s, h, es := state, history, events;
      RunOn(AddressAnswer(approved));
      var was := pending;
      DropPending(s, h);
      Drop(s);
      Idle(s.(pending := NoPending));
      Record(s.(pending := NoPending), h, es + [AddressAnswer(approved)]);
      if was.PendingAddress? && approved {
        return Reply((if was.legacy then " " else "") + was.pk, OK);
      }
      r := Reply([], COMMAND_NOT_ALLOWED);
    }

    /** The reply to a transaction review: the signature, if it is approved. */
    method SignDone(approved: bool) returns (r: Reply)
      requires Valid()
      modifies `pending, `state, `history, `events
      ensures Valid() && events == old(events) + [SignAnswer(approved)]
      ensures (state, r) == AppSpec.SignDone(c, old(state), approved)
      ensures history == Track(old(history), old(state), SignAnswer(approved))
    {
      hide Holds, Kept, Agrees, SignReply, OnRun, StateAfter, HistoryAfter;
      ghost var s, h, es := state, history, events;
      RunOn(SignAnswer(approved));
      var was := pending;
      if was.PendingSign? && approved {
        r := Sign(s, was.kind);
      } else {
        r := Reply([], COMMAND_NOT_ALLOWED);
      }
      DropPending(s, h);
      Drop(s);
      Idle(s.(pending := NoPending));
      Record(s.(pending := NoPending), h, es + [SignAnswer(approved)]);
    }

    /** Signs what was reviewed, with the path of its own signing command. */
    method Sign(ghost s: State, kind: SignKind) returns (r: Reply)
      requires Represents(s) && s.pending == PendingSign(kind)
      ensures Represents(s) && r == SignReply(c, s, kind)
    {
      hide CryptoSign;
      var msg;
      match kind {
        case SignModern(txType) =>
          if txType == TxTransfer {
            msg := device.GetTemplate();
          } else {
            msg := device.GetTx();
          }
        case SignLegacy(_, msgLen) =>
          var tx := device.GetTx();
          msg := tx[..Min(msgLen, |tx|)];
        case SignLegacyTransfer =>
          if c.publicKey(signPath).None? {
            return Reply([], EXECUTION_ERROR);
          }
          msg := device.GetTemplate();
      }
      var sig := CryptoSign(c, signPath, msg, TypeOf(kind));
      if sig.None? {
        return Reply([], SIGN_VERIFY_ERROR);
      }
      r := Reply(if kind == SignLegacyTransfer then sig.value + c.publicKey(signPath).value else sig.value, OK);
    }
  }
}
