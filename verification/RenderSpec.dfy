/** The text of a review item: its value in full, or a refusal when it is longer than the screen buffer. */
module RenderSpec {
  import opened Base
  import opened JsmnSpec
  import opened Json
  import opened ItemSpec
  import FeeSpec

  /** The size of the screen buffer; a value leaves one byte of it unused. */
  const VALUE_BUF := 300

  const WARNING_TEXT :=
    "UNSAFE TRANSACTION. This " + "transaction's code was not recognized " + "and does not limit capabilities " +
    "for all signers. " + "Signing this transaction may " + "make arbitrary actions on the chain " +
    "including loss of all funds."
  const HASH_WARNING_TEXT :=
    "Blind Signing a Transaction Hash " + "is a very unusual operation. " + "Do not continue unless you know " +
    "what you are doing"
  const CAUTION_TEXT := "'meta' field of transaction not recognized"
  const ROTATE_WARNING_TEXT := "Account rotation: new owner not shown"
  const NOT_PRINCIPAL_TEXT := "Recipient is not a principal account"
  const CAP_NOT_VERIFIED_TEXT := "Capability not verified"
  const TX_TOO_LARGE_TEXT :=
    "Transaction too large for Ledger to display." + "  PROCEED WITH GREAT CAUTION." + "  Do you want to continue?"

  /** Decimal notation. */
  function Decimal(n: nat): (s: Bytes)
    ensures s != [] && (n < 10 ==> |s| == 1)
  {
    if n < 10 then [('0' as int + n) as char] else Decimal(n / 10) + [('0' as int + n % 10) as char]
  }

  /** What a renderer needs beside the document: the hash as shown, the device's key in hex, the number of signers. */
  datatype Context = Context(hash: Bytes, address: Option<Bytes>, nsigners: nat)

  /** An argument as it is shown: a string between quotes, anything else as it is. */
  function ArgText(j: Json, a: nat): Bytes {
    if j.Tok(a).kind == String then "\"" + j.Span(a) + "\"" else j.Span(a)
  }

  /** `arg N: text`, comma-separated, from the `n`-th argument on. */
  function ArgsText(j: Json, args: seq<nat>, n: nat): Bytes
    requires n < |args|
    decreases |args| - n
  {
    "arg " + Decimal(n + 1) + ": " + ArgText(j, args[n]) +
      (if n + 1 == |args| then [] else ", " + ArgsText(j, args, n + 1))
  }

  function UnknownValue(j: Json, item: Item): Result<Bytes, ItemsError> {
    if !item.canDisplay then Ok("args cannot be displayed on Ledger")
    else
      match j.GetResult(item.token, "args")
      case Err(_) => Err(Failed)
      case Ok(args) => if j.Elements(args) == [] then Ok("no args") else Ok(ArgsText(j, j.Elements(args), 0))
  }

  /** The values of `gasLimit` and `gasPrice`. */
  function GasTokens(j: Json, meta: nat): Result<(nat, nat), ItemsError> {
    match (j.GetResult(meta, "gasLimit"), j.GetResult(meta, "gasPrice"))
    case (Ok(gl), Ok(gp)) => Ok((gl, gp))
    case _ => Err(Failed)
  }

  function NameValue(j: Json, item: Item): Result<Bytes, ItemsError> {
    match j.GetResult(item.token, "name")
    case Err(_) => Err(Failed)
    case Ok(name) =>
      var (ns, rest) := SplitNamespace(j.Span(name));
      if item.render == CapName then (if rest == [] then Err(LengthZero) else Ok(rest))
      else if ns.None? then Err(Failed)
      else if ns.value == [] then Err(LengthZero)
      else Ok(ns.value)
  }

  /** The value of an item, however long. */
  function Value(j: Json, item: Item, c: Context): Result<Bytes, ItemsError> {
    match item.render
    case NoRender => Err(Failed)
    case Std => if j.Span(item.token) == [] then Err(LengthZero) else Ok(j.Span(item.token))
    case WarningText => Ok(WARNING_TEXT)
    case HashWarningText => Ok(HASH_WARNING_TEXT)
    case CautionText => Ok(CAUTION_TEXT)
    case TxTooLarge => Ok(TX_TOO_LARGE_TEXT)
    case SigningText => Ok("Transaction")
    case RequiringText => Ok("Capabilities")
    case AmountText => if j.Span(item.token) == [] then Err(LengthZero) else Ok("KDA " + j.Span(item.token))
    case TransferText => Ok("Normal Transfer")
    case CrossTransferText => Ok("Cross-chain Transfer")
    case RotateText =>
      (match j.GetResult(item.token, "args")
       case Err(_) => Err(Failed)
       case Ok(args) => if j.Elements(args) == [] then Err(Failed) else Ok("\"" + j.Span(j.Elements(args)[0]) + "\""))
    case GasText =>
      (match GasTokens(j, item.token)
       case Err(e) => Err(e)
       case Ok((gl, gp)) => Ok("at most " + j.Span(gl) + " at price " + j.Span(gp)))
    case HashText => Ok(c.hash)
    case UnknownText => UnknownValue(j, item)
    case SignForAddrText => (match c.address case None => Err(Failed) case Some(hex) => Ok(hex))
    case SignersText => Ok(Decimal(c.nsigners))
    case MaxFeeText =>
      (match GasTokens(j, item.token)
       case Err(e) => Err(e)
       case Ok((gl, gp)) =>
         match (FeeSpec.Parse(j.Span(gl)), FeeSpec.Parse(j.Span(gp)))
         case (Some(a), Some(b)) => Ok("KDA " + FeeSpec.Product(a, b))
         case _ => Err(DataTooLarge))
    case RotateWarning => Ok(ROTATE_WARNING_TEXT)
    case NotPrincipal => Ok(NOT_PRINCIPAL_TEXT)
    case CapNotVerified => Ok(CAP_NOT_VERIFIED_TEXT)
    case CapName => NameValue(j, item)
    case CapNamespace => NameValue(j, item)
    case ExecText => Ok("exec (code)")
    case ContText => Ok("cont (continuation)")
  }

  /** The value is shown whole, or refused: never cut. */
  function Rendered(j: Json, item: Item, c: Context): Result<Bytes, ItemsError> {
    match Value(j, item, c)
    case Err(e) => Err(e)
    case Ok(text) => if |text| < VALUE_BUF then Ok(text) else Err(DataTooLarge)
  }
}
