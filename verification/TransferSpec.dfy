/**
 Structured transfers: the twelve length-prefixed fields of a request, what each
 may hold, and the text of the template the device builds from them.
 */
module TransferSpec {
  import opened Base
  import opened Errors

  const TEMPLATE_BUF := 1280

  const RECIPIENT := 0
  const RECIPIENT_CHAIN := 1
  const NETWORK := 2
  const AMOUNT := 3
  const NAMESPACE := 4
  const MODULE := 5
  const GAS_PRICE := 6
  const GAS_LIMIT := 7
  const CREATION_TIME := 8
  const CHAIN_ID := 9
  const NONCE := 10
  const TTL := 11
  const FIELDS := 12

  const TRANSFER := 0
  const TRANSFER_CREATE := 1
  const TRANSFER_CROSSCHAIN := 2

  type Fields = f: seq<Bytes> | |f| == FIELDS witness seq(FIELDS, i => [])

  function MaxLen(field: nat): nat {
    if field == RECIPIENT then 64
    else if field == RECIPIENT_CHAIN then 2
    else if field == NETWORK then 20
    else if field == AMOUNT then 32
    else if field == NAMESPACE then 63
    else if field == MODULE then 32
    else if field == GAS_PRICE then 20
    else if field == GAS_LIMIT then 10
    else if field == CREATION_TIME then 12
    else if field == CHAIN_ID then 2
    else if field == NONCE then 32
    else 20
  }

  // ---- Content allowlist -----------------------------------------------------------------------

  predicate IsAlnum(c: char) { IsDigit(c) || 'a' <= c <= 'z' || 'A' <= c <= 'Z' }

  predicate IsPactIdent(c: char) { IsAlnum(c) || c in "%#+-_&$@<>=?*!|/" }

  predicate IsLowerHex(c: char) { IsDigit(c) || 'a' <= c <= 'f' }

  predicate IsNetworkByte(c: char) { IsAlnum(c) || c == '-' || c == '_' || c == '.' }

  /** Printable ASCII that needs no escape in a JSON string. */
  predicate IsPlainText(c: char) { ' ' <= c < '\U{7F}' && c != '"' && c != '\\' }

  /** The number of digits at the start of `v`. */
  function DigitRun(v: Bytes): (n: nat)
    ensures n <= |v| && Digits(v[..n]) && (n < |v| ==> !IsDigit(v[n]))
  {
    if v == [] || !IsDigit(v[0]) then 0 else 1 + DigitRun(v[1..])
  }

  /** What follows the digits `v` starts with; None if it starts with none. */
  function AfterDigits(v: Bytes): Option<Bytes> {
    if DigitRun(v) > 0 then Some(v[DigitRun(v)..]) else None
  }

  /** `digits ('.' digits)?` */
  predicate IsDecimal(v: Bytes) {
    match AfterDigits(v)
    case None => false
    case Some(rest) => rest == [] || (rest[0] == '.' && AfterDigits(rest[1..]) == Some([]))
  }

  /** The index of the first `e` or `E`; the length of `v` if there is none. */
  function ExponentAt(v: Bytes): (i: nat)
    ensures i <= |v|
  {
    if v == [] || v[0] == 'e' || v[0] == 'E' then 0 else 1 + ExponentAt(v[1..])
  }

  /** `digits ('.' digits)? ([eE] [+-]? digits)?` */
  predicate IsJsonNumber(v: Bytes) {
    var e := ExponentAt(v);
    if e == |v| then IsDecimal(v)
    else
      var exp := v[e + 1..];
      IsDecimal(v[..e]) && AfterDigits(if exp != [] && (exp[0] == '+' || exp[0] == '-') then exp[1..] else exp) ==
        Some([])
  }

  predicate FieldAllowed(field: nat, v: Bytes, txType: nat) {
    if field == RECIPIENT then forall c | c in v :: IsLowerHex(c)
    else if field == RECIPIENT_CHAIN && txType != TRANSFER_CROSSCHAIN then forall c | c in v :: IsDigit(c)
    else if field == RECIPIENT_CHAIN || field == CHAIN_ID then AfterDigits(v) == Some([])
    else if field == NETWORK then forall c | c in v :: IsNetworkByte(c)
    else if field == AMOUNT then IsDecimal(v) && '.' in v
    else if field == GAS_LIMIT || field == CREATION_TIME || field == TTL then IsDecimal(v)
    else if field == GAS_PRICE then IsJsonNumber(v)
    else if field == NAMESPACE || field == MODULE then forall c | c in v :: IsPactIdent(c)
    else forall c | c in v :: IsPlainText(c)
  }

  /** What `build` requires of the fields it has read. */
  predicate FieldsInRange(f: Fields) {
    |f[RECIPIENT]| == 64 && forall i | 1 <= i < FIELDS :: |f[i]| <= MaxLen(i)
  }

  predicate FieldsAllowed(f: Fields, txType: nat) {
    forall i | 0 <= i < FIELDS :: FieldAllowed(i, f[i], txType)
  }

  // ---- Reading the fields ----------------------------------------------------------------------

  /** One length-prefixed field at `off`, and where the next starts. */
  function ReadField(input: Bytes, off: nat): (r: Result<(Bytes, nat), ParserError>)
    ensures r.Ok? ==> off < r.value.1 <= |input|
  {
    if off >= |input| then Err(UnexpectedBufferEnd)
    else
      var len := input[off] as int;
      if off + 1 + len > |input| then Err(UnexpectedBufferEnd)
      else Ok((input[off + 1..off + 1 + len], off + 1 + len))
  }

  /** `n` fields from `off`. */
  function ReadFields(input: Bytes, off: nat, n: nat): (r: Result<(seq<Bytes>, nat), ParserError>)
    ensures r.Ok? ==> |r.value.0| == n && off <= r.value.1 && (n > 0 ==> r.value.1 <= |input|)
    decreases n
  {
    if n == 0 then Ok(([], off))
    else
      match ReadField(input, off)
      case Err(e) => Err(e)
      case Ok((field, next)) =>
        match ReadFields(input, next, n - 1)
        case Err(e) => Err(e)
        case Ok((rest, end)) => Ok(([field] + rest, end))
  }

  // ---- The template ----------------------------------------------------------------------------

  function HexDigit(n: int): char
    requires 0 <= n < 16
  {
    "0123456789abcdef"[n]
  }

  /** Lower-case hex, two characters a byte. */
  function HexLower(src: Bytes): (hex: Bytes)
    ensures |hex| == 2 * |src|
  {
    if src == [] then []
    else [HexDigit(src[0] as int / 16 % 16), HexDigit(src[0] as int % 16)] + HexLower(src[1..])
  }

  predicate UsesNamespace(f: Fields) { f[NAMESPACE] != [] && f[MODULE] != [] }

  function NsMod(f: Fields): seq<Bytes> {
    if UsesNamespace(f) then [f[NAMESPACE], ".", f[MODULE]] else ["coin"]
  }

  function HeadPieces(f: Fields): seq<Bytes> {
    ["{\"networkId\":\"", f[NETWORK], "\",\"payload\":{\"exec\":{\"data\":"]
  }

  function DataPieces(f: Fields, txType: nat): seq<Bytes> {
    if txType == TRANSFER then ["{}"]
    else ["{\"ks\":{\"pred\":\"keys-all\",\"keys\":[\"", f[RECIPIENT], "\"]}}"]
  }

  function CallName(txType: nat): Bytes {
    if txType == TRANSFER then ".transfer"
    else if txType == TRANSFER_CREATE then ".transfer-create"
    else ".transfer-crosschain"
  }

  function CallPieces(f: Fields, txType: nat): seq<Bytes> {
    [",\"code\":\"("] + NsMod(f) + [CallName(txType)]
  }

  function ArgumentPieces(f: Fields, txType: nat, addr: Bytes): seq<Bytes> {
    [" \\\"k:", addr, "\\\" \\\"k:", f[RECIPIENT], "\\\""] +
    (if txType != TRANSFER then [" (read-keyset \\\"ks\\\")"] else []) +
    (if txType == TRANSFER_CROSSCHAIN then [" \\\"", f[RECIPIENT_CHAIN], "\\\""] else []) +
    [" ", f[AMOUNT]]
  }

  function SignerPieces(f: Fields, txType: nat, addr: Bytes): seq<Bytes> {
    [")\"}},\"signers\":[{\"pubKey\":\"", addr, "\",\"clist\":[{\"args\":[\"k:", addr, "\",\"k:", f[RECIPIENT], "\",",
     f[AMOUNT]] +
    (if txType == TRANSFER_CROSSCHAIN then [",\"", f[RECIPIENT_CHAIN], "\""] else [])
  }

  function NamePieces(f: Fields, txType: nat): seq<Bytes> {
    ["],\"name\":\""] + NsMod(f) + [".TRANSFER"] +
    (if txType == TRANSFER_CROSSCHAIN then ["_XCHAIN"] else [])
  }

  function GasCapability(): Bytes { "\"},{\"args\":[],\"name\":" + "\"coin.GAS\"}]}],\"meta\":{\"creationTime\":" }

  function MetaPieces(f: Fields, addr: Bytes): seq<Bytes> {
    [GasCapability(), f[CREATION_TIME],
     ",\"ttl\":", f[TTL],
     ",\"gasLimit\":", f[GAS_LIMIT],
     ",\"chainId\":\"", f[CHAIN_ID],
     "\",\"gasPrice\":", f[GAS_PRICE],
     ",\"sender\":\"k:", addr]
  }

  function TailPieces(f: Fields): seq<Bytes> {
    ["\"},\"nonce\":\"", f[NONCE], "\"}"]
  }

  /** Everything the template is put together from, in order. */
  function Pieces(f: Fields, txType: nat, addr: Bytes): seq<Bytes> {
    HeadPieces(f) + DataPieces(f, txType) + CallPieces(f, txType) + ArgumentPieces(f, txType, addr) +
    SignerPieces(f, txType, addr) + NamePieces(f, txType) + MetaPieces(f, addr) + TailPieces(f)
  }

  /** The pieces in a row, then `rest`. */
  function Join(ps: seq<Bytes>, rest: Bytes): Bytes {
    if ps == [] then rest else Cat(ps[0], Join(ps[1..], rest))
  }

  function Format(f: Fields, txType: nat, addr: Bytes): Result<Bytes, ParserError> {
    var text := Join(Pieces(f, txType, addr), []);
    if |text| <= TEMPLATE_BUF then Ok(text) else Err(UnexpectedBufferEnd)
  }

  /** The transaction type and the fields of a request that is read to its end and keeps to the allowlist. */
  function ReadRequest(input: Bytes): (r: Result<(nat, Fields), ParserError>)
    ensures r.Ok? ==> r.value.0 <= 2 && FieldsInRange(r.value.1) && FieldsAllowed(r.value.1, r.value.0)
  {
    if input == [] then Err(UnexpectedBufferEnd)
    else
      var txType := input[0] as int;
      if txType != TRANSFER && txType != TRANSFER_CREATE && txType != TRANSFER_CROSSCHAIN then Err(UnexpectedValue)
      else
        match ReadFields(input, 1, FIELDS)
        case Err(e) => Err(e)
        case Ok((f, end)) =>
          if end != |input| then Err(UnexpectedUnparsedBytes)
          else if !FieldsInRange(f) then Err(ValueOutOfRange)
          else if !FieldsAllowed(f, txType) then Err(UnexpectedCharacters)
          else Ok((txType, f))
  }

  /** `build`: the template for a request and the device's public key. */
  function Build(input: Bytes, address: Option<Bytes>): Result<Bytes, ParserError> {
    match ReadRequest(input)
    case Err(e) => Err(e)
    case Ok((txType, f)) =>
      match address
      case None => Err(UnexpectedError)
      case Some(pk) => Format(f, txType, HexLower(pk))
  }
}
