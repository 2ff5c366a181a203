/** Parsing and validating a transaction: its review, or why it is refused. */
module ParserSpec {
  import opened Base
  import opened Errors
  import opened Json
  import opened ItemSpec
  import opened RenderSpec
  import opened Integrity
  import opened TransferSpec

  /** Length of a transaction hash, in bytes. */
  const HASH_LEN := 32

  type Key32 = s: Bytes | |s| == HASH_LEN witness seq(HASH_LEN, _ => ' ')

  type Signature = s: Bytes | |s| == 64 witness seq(64, _ => ' ')

  /** A derivation path of five components. */
  type Path = p: seq<nat> | |p| == 5 witness [0, 0, 0, 0, 0]

  /** Key derivation, Ed25519 and blake2b-256, each of which may fail. */
  datatype Crypto = Crypto(publicKey: Path -> Option<Key32>, sign: (Path, Key32) -> Option<Signature>,
    blake2b: Bytes -> Option<Key32>)

  datatype TxType = TxJson | TxHash | TxTransfer

  // ---- The hash as it is shown -----------------------------------------------------------------

  function ByteAt(d: Bytes, k: nat): nat { if k < |d| then d[k] as int % 256 else 0 }

  function Base64Char(n: nat): char
    requires n < 64
  {
    if n < 26 then ('A' as int + n) as char
    else if n < 52 then ('a' as int + n - 26) as char
    else if n < 62 then ('0' as int + n - 52) as char
    else if n == 62 then '-'
    else '_'
  }

  /** The `i`-th group of six bits. */
  function Sextet(d: Bytes, i: nat): (n: nat)
    ensures n < 64
  {
    var k, two := 6 * i / 8, ByteAt(d, 6 * i / 8) * 256 + ByteAt(d, 6 * i / 8 + 1);
    match 6 * i % 8
    case 0 => two / 1024 % 64
    case 6 => two / 16 % 64
    case 4 => two / 64 % 64
    case _ => two / 256 % 64
  }

  /** The unpadded URL-safe base64 of a 32-byte hash. */
  function HashShown(d: Bytes): (s: Bytes)
    ensures |s| == 43
  {
    seq(43, i requires 0 <= i < 43 => Base64Char(Sextet(d, i)))
  }

  // ---- The review ------------------------------------------------------------------------------

  /** The items to show, and what their renderers need. */
  datatype Review = Review(items: seq<Item>, context: Context)

  function ItemsToParser(e: ItemsError): ParserError {
    match e
    case BadCharacters => UnexpectedCharacters
    case BadMeta => InvalidMetaField
    case _ => UnexpectedError
  }

  /** A list that grows by `b`, within the slots there are. */
  function Extend(items: seq<Item>, b: Build): Result<seq<Item>, ParserError> {
    if |items| + |b.items| >= MAX_ITEMS then Err(ItemsToParser(TooManyItems))
    else match b.failure case Some(e) => Err(ItemsToParser(e)) case None => Ok(items + b.items)
  }

  /** The review items of a document, for the device's own key. */
  function TxReview(j: Json, key: Option<Key32>, digest: Option<Key32>, expert: bool): Result<Review, ParserError> {
    if j.GetResult(0, "verifiers").Ok? then Err(UnexpectedValue)
    else
      match key
      case None => Err(UnexpectedError)
      case Some(pk) =>
        match FindDeviceSigner(j, HexLower(pk))
        case Err(e) => Err(e)
        case Ok((signer, nsigners)) =>
          match Extend([], TxItems(j, signer, nsigners))
          case Err(e) => Err(e)
          case Ok(items) =>
            match digest
            case None => Err(UnexpectedError)
            case Some(hash) =>
              var context := Context(HashShown(hash), Some(HexLower(pk)), nsigners);
              if !expert then Ok(Review(items, context))
              else
                match Extend(items, Then(ExpertMeta(j), ExpertItems()))
                case Err(e) => Err(e)
                case Ok(all) => Ok(Review(all, context))
  }

  /** The review items of a bare hash. */
  function HashReview(hash: Key32, key: Option<Key32>, expert: bool): Review {
    Review(HashItems().items + (if expert then ExpertItems().items else []),
           Context(HashShown(hash), match key case None => None case Some(pk) => Some(HexLower(pk)), 0))
  }

  /** Every item can be shown. */
  predicate Shows(j: Json, r: Review) {
    hide Rendered;
    forall i | 0 <= i < |r.items| :: Rendered(j, r.items[i], r.context).Ok?
  }

  function Validated(j: Json, r: Result<Review, ParserError>): Result<Review, ParserError> {
    match r
    case Err(e) => Err(e)
    case Ok(review) => if Shows(j, review) then r else Err(UnexpectedError)
  }

  /** The review of a JSON text: it is read, its items are stored, and each of them can be shown. */
  function ReviewText(c: Crypto, path: Path, text: Bytes, expert: bool): Result<Review, ParserError> {
    match ReadJson(text)
    case Err(e) => Err(e)
    case Ok(j) => Validated(j, TxReview(j, c.publicKey(path), c.blake2b(text), expert))
  }

  /** The tokens of a text that `read_json` accepts. */
  function DocumentOf(text: Bytes): Json {
    match ReadJson(text)
    case Err(_) => JsonData([], [])
    case Ok(j) => j
  }

  /** The document that the items of a review read; a bare hash has none. */
  function ShownDocument(txType: TxType, text: Bytes): Json {
    if txType == TxHash then JsonData([], []) else DocumentOf(text)
  }

  /** The review of a transaction of each type; `text` is the JSON reviewed, none for a hash. */
  datatype Parsed = Parsed(review: Review, text: Bytes)

  /** `tx_parse` before the blind-signing decision, and the template it stores on the way. */
  function ParseTx(c: Crypto, path: Path, txType: TxType, msg: Bytes, template: Bytes, expert: bool)
    : (Bytes, Result<Parsed, ParserError>)
  {
    match txType
    case TxJson =>
      (match ReviewText(c, path, msg, expert)
       case Err(e) => (template, Err(e))
       case Ok(r) => (template, Ok(Parsed(r, msg))))
    case TxHash =>
      if |msg| != HASH_LEN then (template, Err(UnexpectedBufferEnd))
      else (template, HashParsed(msg, c.publicKey(path), expert))
    case TxTransfer =>
      match TransferSpec.Build(msg, c.publicKey(path))
      case Err(e) => (template, Err(e))
      case Ok(text) =>
        match ReviewText(c, path, text, expert)
        case Err(e) => (text, Err(e))
        case Ok(r) => (text, Ok(Parsed(r, text)))
  }

  function HashParsed(hash: Key32, key: Option<Key32>, expert: bool): Result<Parsed, ParserError> {
    match Validated(JsonData([], []), Ok(HashReview(hash, key, expert)))
    case Err(e) => Err(e)
    case Ok(r) => Ok(Parsed(r, []))
  }

  /** `tx_parse`: the template, and whether the review is a blind-signing one. */
  function TxParse(c: Crypto, path: Path, txType: TxType, msg: Bytes, template: Bytes, expert: bool, blindOn: bool)
    : (Bytes, Result<(Parsed, bool), ParserError>)
  {
    if txType == TxHash && !blindOn then (template, Err(BlindsignModeRequired))
    else if msg == [] then (template, Err(InitContextEmpty))
    else
      match ParseTx(c, path, txType, msg, template, expert)
      case (t, Err(e)) => (t, Err(e))
      case (t, Ok(p)) =>
        if txType != TxHash && !NeedsBlind(p.review.items) then (t, Ok((p, false)))
        else if blindOn then (t, Ok((p, true)))
        else (t, Err(BlindsignModeRequired))
  }
}
