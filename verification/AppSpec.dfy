/**
 The command state machine: one stream state for both command families, a pending review, and the path
 that is bound to the open or pending signing command.
 */
module AppSpec {
  import opened Base
  import opened Errors
  import opened Buffering
  import opened ParserSpec

  const CLA := 0

  const INS_GET_VERSION := 0x20
  const INS_GET_ADDR := 0x21
  const INS_SIGN := 0x22
  const INS_SIGN_HASH := 0x23
  const INS_SIGN_TRANSFER := 0x24
  const INS_LEGACY_GET_VERSION := 0x00
  const INS_LEGACY_VERIFY_ADDRESS := 0x01
  const INS_LEGACY_GET_PUBKEY := 0x02
  const INS_LEGACY_SIGN_JSON := 0x03
  const INS_LEGACY_SIGN_HASH := 0x04
  const INS_LEGACY_TRANSFER := 0x10

  const P1_INIT := 0
  const P1_ADD := 1
  const P1_LAST := 2

  const OK := 0x9000
  const EXECUTION_ERROR := 0x6400
  const WRONG_LENGTH := 0x6700
  const OUTPUT_BUFFER_TOO_SMALL := 0x6983
  const DATA_INVALID := 0x6984
  const COMMAND_NOT_ALLOWED := 0x6986
  const TX_NOT_INITIALIZED := 0x6987
  const INVALID_P1P2 := 0x6B00
  const INS_NOT_SUPPORTED := 0x6D00
  const CLA_NOT_SUPPORTED := 0x6E00
  const SIGN_VERIFY_ERROR := 0x6F01

  /** The purpose and the coin type, both hardened, that every path starts with. */
  const HDPATH_0 := 0x8000_002C
  const HDPATH_1 := 0x8000_0272

  const LEGACY_HEADER_LENGTH := 5
  const LEGACY_CHUNK_SIZE := 230
  const LEGACY_FULL_CHUNK_SIZE := 235
  const LEGACY_TRANSFER_NUM_ITEMS := 12
  const LEGACY_LOCAL_BUFFER_SIZE := 33

  // ---- Commands, replies, states ---------------------------------------------------------------

  datatype Reply = Reply(data: Bytes, sw: nat)

  /** What a command asks of the device. */
  datatype Action = Send(reply: Reply) | ReviewAddress | ReviewTx(blind: bool) | BlindSignRequired(reply: Reply)

  datatype Apdu = Apdu(cla: u8, ins: u8, p1: u8, p2: u8, data: Bytes)

  /** What the device answers about itself at the time of a command. */
  datatype Env = Env(version: (u16, u16, u16), pinValidated: bool, uxLocked: bool, targetId: u32, deviceInfo: Bytes,
                     expert: bool, blindSigning: bool)

  /** Which command stream is open. */
  datatype Stream = NoStream | Modern(ins: nat) | Legacy(ins: nat)

  datatype SignKind = SignModern(txType: TxType) | SignLegacy(txType: TxType, msgLen: nat) | SignLegacyTransfer

  datatype Pending = NoPending | PendingAddress(pk: Key32, legacy: bool) | PendingSign(kind: SignKind)

  datatype State = State(
    hdPath: Path, signPath: Path, stream: Stream, pending: Pending,
    payloadLength: nat, hdpathLength: nat,
    local: Bytes, items: nat, itemLen: nat, checkItemLen: bool,
    tx: Bytes, template: Bytes, parsed: Option<Parsed>)

  const ZERO_PATH: Path := [0, 0, 0, 0, 0]

  const INITIAL := State(ZERO_PATH, ZERO_PATH, NoStream, NoPending, 0, 0, [], 0, 0, false, [], [], None)

  /** An action, or the status word of a refusal. */
  type Handled = Result<Action, nat>

  function Done(): Handled { Ok(Send(Reply([], OK))) }

  // ---- Paths -----------------------------------------------------------------------------------

  predicate PrefixOk(path: Path) { path[0] == HDPATH_0 && path[1] == HDPATH_1 }

  /** The little-endian 32-bit number at byte `i`. */
  function Le32(b: Bytes, i: nat): nat
    requires i + 4 <= |b|
  {
    b[i] as int % 256 + 0x100 * (b[i + 1] as int % 256) + 0x1_0000 * (b[i + 2] as int % 256) +
      0x100_0000 * (b[i + 3] as int % 256)
  }

  /** `n` components from byte `i`, then zeros. */
  function PathAt(b: Bytes, i: nat, n: nat): Path
    requires n <= 5 && i + 4 * n <= |b|
  {
    seq(5, k requires 0 <= k < 5 => if k < n then Le32(b, i + 4 * k) else 0)
  }

  // ---- Address and modern commands -------------------------------------------------------------

  /** The path of a modern command, which ends the modern stream. */
  function ExtractHdPath(s: State, data: Bytes): (State, Result<(), nat>) {
    var t := if s.stream.Modern? then s.(stream := NoStream) else s;
    if |data| < 20 then (t, Err(WRONG_LENGTH))
    else
      var path := PathAt(data, 0, 5);
      (t.(hdPath := path), if PrefixOk(path) then Ok(()) else Err(DATA_INVALID))
  }

  function GetAddr(c: Crypto, s: State, p1: nat, data: Bytes): (State, Handled) {
    match ExtractHdPath(s, data)
    case (t, Err(e)) => (t, Err(e))
    case (t, Ok(_)) =>
      match c.publicKey(t.hdPath)
      case None => (t, Err(EXECUTION_ERROR))
      case Some(pk) =>
        if p1 != 0 then (t.(pending := PendingAddress(pk, false)), Ok(ReviewAddress)) else (t, Ok(Send(Reply(pk, OK))))
  }

  /** A parse error with its text; the blind-signing one first shows a screen. */
  function ErrorWithMessage(e: ParserError): Action {
    var r := Reply(Description(e), DATA_INVALID);
    if e == BlindsignModeRequired then BlindSignRequired(r) else Send(r)
  }

  /** `tx_parse` over the first `len` bytes of the buffer. */
  function ParseStep(c: Crypto, env: Env, s: State, txType: TxType, len: nat): (State, Result<bool, ParserError>)
    requires len <= |s.tx|
  {
    hide TxParse;
    match TxParse(c, s.signPath, txType, s.tx[..len], s.template, env.expert, env.blindSigning)
    case (template, Err(e)) => (s.(template := template), Err(e))
    case (template, Ok((parsed, blind))) => (s.(template := template, parsed := Some(parsed)), Ok(blind))
  }

  function SignChunk(c: Crypto, env: Env, s: State, ins: nat, txType: TxType, p1: nat, data: Bytes): (State, Handled) {
    hide TxParse;
    if p1 == P1_INIT then
      match ExtractHdPath(s.(tx := [], stream := NoStream), data)
      case (t, Err(e)) => (t, Err(e))
      case (t, Ok(_)) => (t.(signPath := t.hdPath, stream := Modern(ins)), Done())
    else if p1 != P1_ADD && p1 != P1_LAST then (s, Err(INVALID_P1P2))
    else if s.stream != Modern(ins) then (s.(stream := NoStream), Err(TX_NOT_INITIALIZED))
    else
      var (tx, fits) := Appended(s.tx, data);
      if p1 == P1_ADD then
        if fits then (s.(tx := tx), Done()) else (s.(tx := tx, stream := NoStream), Err(OUTPUT_BUFFER_TOO_SMALL))
      else
        var t := s.(tx := tx, stream := NoStream);
        if !fits then (t, Err(OUTPUT_BUFFER_TOO_SMALL))
        else
          match ParseStep(c, env, t, txType, |t.tx|)
          case (u, Err(e)) => (u, Ok(ErrorWithMessage(e)))
          case (u, Ok(blind)) => (u.(pending := PendingSign(SignModern(txType))), Ok(ReviewTx(blind)))
  }

  // ---- Legacy commands -------------------------------------------------------------------------

  /** The APDU as the legacy handlers index it: four header bytes, a length, then the data. */
  function Raw(a: Apdu): Bytes {
    var n := if |a.data| <= 300 then |a.data| else 300;
    [a.cla as char, a.ins as char, a.p1 as char, a.p2 as char, U8(n) as char] + a.data[..n]
  }

  /** A path of 2 to 5 components after its number at byte `offset` of `buf`. */
  function LegacyHdPath(s: State, buf: Bytes, offset: nat, checkLen: bool): (State, Result<(), nat>) {
    if |buf| <= offset then (s, Err(WRONG_LENGTH))
    else
      var qty := buf[offset] as int;
      if !(2 <= qty <= 5) then (s, Err(DATA_INVALID))
      else if offset + 1 + 4 * qty > |buf| then (s, Err(WRONG_LENGTH))
      else if checkLen && |buf| != offset + 1 + 4 * qty then (s, Err(WRONG_LENGTH))
      else
        var path := PathAt(buf, offset + 1, qty);
        var t := s.(hdPath := path);
        if PrefixOk(path) then (t.(hdpathLength := 4 * qty + 1), Ok(())) else (t, Err(DATA_INVALID))
  }

  function LegacyGetAddr(c: Crypto, s: State, show: bool, a: Apdu): (State, Handled) {
    match LegacyHdPath(s, Raw(a), LEGACY_HEADER_LENGTH, true)
    case (t, Err(e)) => (t, Err(e))
    case (t, Ok(_)) =>
      match c.publicKey(t.hdPath)
      case None => (t, Err(EXECUTION_ERROR))
      case Some(pk) =>
        if show then (t.(pending := PendingAddress(pk, true)), Ok(ReviewAddress))
        else (t, Ok(Send(Reply(" " + pk, OK))))
  }

  /** Whether a legacy chunk is the first of a stream; another open stream is closed. */
  function LegacyFirst(s: State, ins: nat): (State, Result<bool, nat>) {
    if s.stream == NoStream then (s, Ok(true))
    else if s.stream == Legacy(ins) then (s, Ok(false))
    else (s.(stream := NoStream), Err(TX_NOT_INITIALIZED))
  }

  /** A short append resets the buffer and closes the stream. */
  function LegacyAppend(s: State, data: Bytes): (State, Result<(), nat>) {
    var (tx, fits) := Appended(s.tx, data);
    if fits then (s.(tx := tx), Ok(())) else (s.(tx := [], stream := NoStream), Err(OUTPUT_BUFFER_TOO_SMALL))
  }

  /** The buffer is the payload and one encoded path. */
  predicate EndOfChunk(s: State) {
    s.payloadLength < |s.tx| &&
    var qty := s.tx[s.payloadLength] as int;
    2 <= qty <= 5 && s.payloadLength + 4 * qty + 1 == |s.tx|
  }

  function LegacySign(c: Crypto, env: Env, s: State, ins: nat, json: bool, data: Bytes): (State, Handled) {
    hide LegacyComplete;
    match LegacyFirst(s, ins)
    case (t, Err(e)) => (t, Err(e))
    case (t, Ok(first)) =>
      if first && json && |data| < 4 then (t, Err(WRONG_LENGTH))
      else
        var announced := if first && json then Le32(data, 0) else HASH_LEN;
        var begun := if first then t.(payloadLength := announced, tx := [], stream := Legacy(ins)) else t;
        match LegacyAppend(begun, if first && json then data[4..] else data)
        case (u, Err(e)) => (u, Err(e))
        case (u, Ok(_)) =>
          if !(LEGACY_HEADER_LENGTH + |data| < LEGACY_FULL_CHUNK_SIZE || EndOfChunk(u)) then (u, Done())
          else LegacyComplete(c, env, u.(stream := NoStream), json)
  }

  /** The whole buffer has been received: the payload, then the path to sign with. */
  function LegacyComplete(c: Crypto, env: Env, s: State, json: bool): (State, Handled) {
    hide LegacyReview;
    if |s.tx| < s.payloadLength then (s.(tx := []), Err(DATA_INVALID))
    else
      match LegacyHdPath(s, s.tx, s.payloadLength, true)
      case (t, Err(e)) => (t, Err(e))
      case (t, Ok(_)) => LegacyReview(c, env, t.(signPath := t.hdPath), json, |t.tx| - t.hdpathLength)
  }

  function LegacyReview(c: Crypto, env: Env, s: State, json: bool, msgLen: nat): (State, Handled)
    requires msgLen <= |s.tx|
  {
    hide TxParse;
    var txType := if json then TxJson else TxHash;
    match ParseStep(c, env, s, txType, msgLen)
    case (t, Err(e)) =>
      if json && e != BlindsignModeRequired then (t.(tx := []), Err(DATA_INVALID)) else (t, Ok(ErrorWithMessage(e)))
    case (t, Ok(blind)) => (t.(pending := PendingSign(SignLegacy(txType, msgLen))), Ok(ReviewTx(blind)))
  }

  // ---- INS 0x10 --------------------------------------------------------------------------------

  /** An item that ends past byte 235 is kept aside up to there. */
  function Overflow(s: State, buf: Bytes, offset: nat, payload: nat): (State, Result<(), nat>)
    requires offset <= LEGACY_FULL_CHUNK_SIZE <= |buf|
  {
    var t := s.(checkItemLen := false, itemLen := U8(payload + 1));
    if LEGACY_FULL_CHUNK_SIZE - offset >= LEGACY_LOCAL_BUFFER_SIZE then (t, Err(OUTPUT_BUFFER_TOO_SMALL))
    else (t.(local := buf[offset..LEGACY_FULL_CHUNK_SIZE]), Ok(()))
  }

  /** The items of an APDU from byte `pos` on; whether the twelve are complete. */
  function TransferItems(s: State, buf: Bytes, pos: nat): (State, Result<bool, nat>)
    decreases |buf| - pos
  {
    if pos > |buf| then (s, Err(DATA_INVALID))
    else if pos == LEGACY_FULL_CHUNK_SIZE then (s.(checkItemLen := true), Ok(false))
    else if pos >= |buf| then (s, Err(DATA_INVALID))
    else
      var payload := buf[pos] as int;
      var next := pos + payload + 1;
      if next > LEGACY_FULL_CHUNK_SIZE then
        if |buf| != LEGACY_FULL_CHUNK_SIZE then (s, Err(WRONG_LENGTH))
        else
          match Overflow(s, buf, pos, payload)
          case (t, Err(e)) => (t, Err(e))
          case (t, Ok(_)) => (t, Ok(false))
      else if next > |buf| then (s, Err(WRONG_LENGTH))
      else
        match LegacyAppend(s, buf[pos..next])
        case (t, Err(e)) => (t, Err(e))
        case (t, Ok(_)) =>
          var u := t.(items := U8(t.items + 1));
          if u.items > LEGACY_TRANSFER_NUM_ITEMS then (u, Err(DATA_INVALID))
          else if next >= |buf| && next != LEGACY_FULL_CHUNK_SIZE then
            if u.items != LEGACY_TRANSFER_NUM_ITEMS then (u, Err(DATA_INVALID)) else (u.(stream := NoStream), Ok(true))
          else TransferItems(u, buf, next)
  }

  /** The first APDU: the path and the type byte; where the items start. */
  function InitializeTransfer(s: State, buf: Bytes): (State, Result<nat, nat>) {
    var cleared := s.(local := [], checkItemLen := false, itemLen := 0, items := 0);
    match LegacyHdPath(cleared, buf, LEGACY_HEADER_LENGTH, false)
    case (t, Err(e)) => (t, Err(e))
    case (t, Ok(_)) =>
      var u := t.(signPath := t.hdPath, tx := [], stream := Legacy(INS_LEGACY_TRANSFER));
      var offset := u.hdpathLength + LEGACY_HEADER_LENGTH;
      if offset + 1 > |buf| then (u, Err(WRONG_LENGTH))
      else
        match LegacyAppend(u, buf[offset..offset + 1])
        case (v, Err(e)) => (v, Err(e))
        case (v, Ok(_)) => (v, Ok(offset + 1))
  }

  /** A later APDU: what was kept aside, and the rest of its item; where the next item starts. */
  function ContinueTransfer(s: State, buf: Bytes): (State, Result<nat, nat>) {
    match LegacyAppend(s, s.local)
    case (t, Err(e)) => (t, Err(e))
    case (t, Ok(_)) =>
      var start := LEGACY_HEADER_LENGTH;
      if t.checkItemLen && |buf| <= start then (t, Err(WRONG_LENGTH))
      else if !t.checkItemLen && t.itemLen <= |t.local| then (t, Err(DATA_INVALID))
      else
        var next := if t.checkItemLen then start + buf[start] as int + 1 else start + t.itemLen - |t.local|;
        if next > |buf| then (t, Err(WRONG_LENGTH))
        else
          match LegacyAppend(t, buf[start..next])
          case (u, Err(e)) => (u, Err(e))
          case (u, Ok(_)) => (u.(items := U8(u.items + 1), local := []), Ok(next))
  }

  function TransferChunk(s: State, buf: Bytes): (State, Result<bool, nat>) {
    match LegacyFirst(s, INS_LEGACY_TRANSFER)
    case (t, Err(e)) => (t, Err(e))
    case (t, Ok(first)) =>
      match (if first then InitializeTransfer(t, buf) else ContinueTransfer(t, buf))
      case (u, Err(e)) => (u, Err(e))
      case (u, Ok(pos)) => TransferItems(u, buf, pos)
  }

  function LegacyTransfer(c: Crypto, env: Env, s: State, a: Apdu): (State, Handled) {
    hide TxParse;
    match TransferChunk(s, Raw(a))
    case (t, Err(e)) => (t.(stream := NoStream), Err(e))
    case (t, Ok(false)) => (t, Done())
    case (t, Ok(true)) =>
      match ParseStep(c, env, t, TxTransfer, |t.tx|)
      case (u, Err(e)) =>
        if e == BlindsignModeRequired then (u, Ok(ErrorWithMessage(e))) else (u.(tx := []), Err(DATA_INVALID))
      case (u, Ok(blind)) => (u.(pending := PendingSign(SignLegacyTransfer)), Ok(ReviewTx(blind)))
  }

  // ---- Dispatch --------------------------------------------------------------------------------

  /** `n` in `k` big-endian bytes. */
  function BigEndian(n: nat, k: nat): Bytes {
    if k == 0 then [] else BigEndian(n / 256, k - 1) + [U8(n) as char]
  }

  function VersionReply(env: Env): Reply {
    var (major, minor, patch) := env.version;
    Reply("\0" + BigEndian(major, 2) + BigEndian(minor, 2) + BigEndian(patch, 2) +
          [if env.uxLocked then 1 as char else 0 as char] + BigEndian(env.targetId, 4), OK)
  }

  function LegacyVersionReply(env: Env): Reply {
    var (major, minor, patch) := env.version;
    Reply([U8(major) as char, U8(minor) as char, U8(patch) as char], OK)
  }

  function Dispatch(c: Crypto, env: Env, s: State, a: Apdu): (State, Handled) {
    hide SignChunk, LegacySign, LegacyTransfer;
    if a.ins == INS_GET_ADDR then GetAddr(c, s, a.p1, a.data)
    else if a.ins == INS_SIGN then SignChunk(c, env, s, a.ins, TxJson, a.p1, a.data)
    else if a.ins == INS_SIGN_HASH then SignChunk(c, env, s, a.ins, TxHash, a.p1, a.data)
    else if a.ins == INS_SIGN_TRANSFER then SignChunk(c, env, s, a.ins, TxTransfer, a.p1, a.data)
    else if a.ins == INS_LEGACY_GET_VERSION then (s, Ok(Send(LegacyVersionReply(env))))
    else if a.ins == INS_LEGACY_VERIFY_ADDRESS then LegacyGetAddr(c, s, true, a)
    else if a.ins == INS_LEGACY_GET_PUBKEY then LegacyGetAddr(c, s, false, a)
    else if a.ins == INS_LEGACY_SIGN_JSON then LegacySign(c, env, s, a.ins, true, a.data)
    else if a.ins == INS_LEGACY_SIGN_HASH then LegacySign(c, env, s, a.ins, false, a.data)
    else LegacyTransfer(c, env, s, a)
  }

  predicate NeedsPin(ins: nat) {
    ins in {INS_GET_ADDR, INS_SIGN, INS_SIGN_HASH, INS_SIGN_TRANSFER, INS_LEGACY_GET_VERSION, INS_LEGACY_VERIFY_ADDRESS,
            INS_LEGACY_GET_PUBKEY, INS_LEGACY_SIGN_JSON, INS_LEGACY_SIGN_HASH, INS_LEGACY_TRANSFER}
  }

  /** One APDU. Any pending review is dropped first. */
  function Handle(c: Crypto, env: Env, was: State, a: Apdu): (State, Action) {
    hide Dispatch;
    var s := was.(pending := NoPending);
    if a.cla == 0xE0 && a.ins == 0x01 && a.p1 == 0 && a.p2 == 0 then (s, Send(Reply(env.deviceInfo, OK)))
    else if a.cla != CLA then (s, Send(Reply([], CLA_NOT_SUPPORTED)))
    else if a.ins == INS_GET_VERSION then (s, Send(VersionReply(env)))
    else if !NeedsPin(a.ins) then (s, Send(Reply([], INS_NOT_SUPPORTED)))
    else if !env.pinValidated then (s, Send(Reply([], COMMAND_NOT_ALLOWED)))
    else
      match Dispatch(c, env, s, a)
      case (t, Ok(action)) => (t, action)
      case (t, Err(sw)) => (t, Send(Reply([], sw)))
  }

  // ---- After the user's decision ---------------------------------------------------------------

  function AddressDone(s: State, approved: bool): (State, Reply) {
    (s.(pending := NoPending),
     if s.pending.PendingAddress? && approved then Reply((if s.pending.legacy then " " else "") + s.pending.pk, OK)
     else Reply([], COMMAND_NOT_ALLOWED))
  }

  /** What is signed of a message: a hash as it is, anything else by its blake2b-256. */
  function Digest(c: Crypto, msg: Bytes, txType: TxType): Option<Key32> {
    if msg == [] then None
    else if txType == TxHash then (if |msg| < HASH_LEN then None else Some(msg[..HASH_LEN]))
    else c.blake2b(msg)
  }

  function CryptoSign(c: Crypto, path: Path, msg: Bytes, txType: TxType): Option<Signature> {
    match Digest(c, msg, txType)
    case None => None
    case Some(hash) => c.sign(path, hash)
  }

  function Min(a: nat, b: nat): nat { if a <= b then a else b }

  /** The message a pending review is about. */
  function MessageOf(s: State, kind: SignKind): Bytes {
    match kind
    case SignModern(txType) => if txType == TxTransfer then s.template else s.tx
    case SignLegacy(_, msgLen) => s.tx[..Min(msgLen, |s.tx|)]
    case SignLegacyTransfer => s.template
  }

  function TypeOf(kind: SignKind): TxType {
    match kind
    case SignModern(txType) => txType
    case SignLegacy(txType, _) => txType
    case SignLegacyTransfer => TxTransfer
  }

  function SignReply(c: Crypto, s: State, kind: SignKind): Reply {
    if kind == SignLegacyTransfer && c.publicKey(s.signPath).None? then Reply([], EXECUTION_ERROR)
    else
      match CryptoSign(c, s.signPath, MessageOf(s, kind), TypeOf(kind))
      case None => Reply([], SIGN_VERIFY_ERROR)
      case Some(sig) => Reply(if kind == SignLegacyTransfer then sig + c.publicKey(s.signPath).value else sig, OK)
  }

  function SignDone(c: Crypto, s: State, approved: bool): (State, Reply) {
    (s.(pending := NoPending),
     if s.pending.PendingSign? && approved then SignReply(c, s, s.pending.kind) else Reply([], COMMAND_NOT_ALLOWED))
  }
}
