/**
 The tokenizer as a function: what `Jsmn.Parser` computes, one top-level byte at
 a time, with the backward scans over the token array as recursive functions.
 */
module JsmnSpec {
  import opened Base
  import opened Syntax

  datatype Kind = Undefined | Object | Array | String | Primitive

  /** A byte span `[start, end)`; the span of a string excludes its quotes. */
  datatype Token = Token(kind: Kind, start: nat, end: nat)

  const EMPTY_TOKEN := Token(Undefined, 0, 0)

  /** "Not set" start or end. */
  const UNSET := 0xFFFF

  datatype JsmnError = NoMem | Inval | Part

  /** What the strict tokenizer accepts next. */
  datatype Expect = Root | AnyValue | ValueOrClose | Key | KeyOrClose | Colon | CommaOrClose | Done

  /** The parser's fields, without the position: the tokens so far, `toksuper` and `expect` (here `want`). */
  datatype Scan = Scan(toks: seq<Token>, sup: int, want: Expect)

  const START := Scan([], -1, Root)

  predicate WellFormed(s: Scan) { -1 <= s.sup < |s.toks| }

  predicate IsOpen(t: Token) { t.start != UNSET && t.end == UNSET }

  predicate IsContainer(k: Kind) { k == Array || k == Object }

  /** Index of the last open token, or -1. */
  function LastOpen(toks: seq<Token>): (i: int)
    ensures -1 <= i < |toks|
    ensures i >= 0 ==> IsOpen(toks[i])
    ensures forall k | i < k < |toks| :: !IsOpen(toks[k])
  {
    if toks == [] then -1
    else if IsOpen(toks[|toks| - 1]) then |toks| - 1
    else LastOpen(toks[..|toks| - 1])
  }

  /** Index of the last open object or array, or -1. */
  function LastOpenContainer(toks: seq<Token>): (i: int)
    ensures -1 <= i < |toks|
    ensures i >= 0 ==> IsOpen(toks[i]) && IsContainer(toks[i].kind)
    ensures forall k | i < k < |toks| :: !(IsOpen(toks[k]) && IsContainer(toks[k].kind))
  {
    if toks == [] then -1
    else if IsOpen(toks[|toks| - 1]) && IsContainer(toks[|toks| - 1].kind) then |toks| - 1
    else LastOpenContainer(toks[..|toks| - 1])
  }

  // ---- Strings and primitives ------------------------------------------------------------------

  /** The end of at most `n` hex digits from `i`; None at another byte. */
  function HexEnd(js: Bytes, i: nat, n: nat): (r: Option<nat>)
    requires i <= |js|
    ensures r.Some? ==> i <= r.value <= |js|
    decreases n
  {
    if n == 0 || i == |js| || js[i] == '\0' then Some(i)
    else if !IsHex(js[i]) then None
    else HexEnd(js, i + 1, n - 1)
  }

  /** The closing quote of a string, scanned from `i`. */
  function StringEnd(js: Bytes, i: nat, strict: bool): (r: Result<nat, JsmnError>)
    requires i <= |js|
    ensures r.Ok? ==> i <= r.value < |js|
    decreases |js| - i
  {
    if i == |js| || js[i] == '\0' then Err(Part)
    else if strict && js[i] < ' ' then Err(Inval)
    else if js[i] == '"' then Ok(i)
    else if js[i] == '\\' && i + 1 < |js| then
      if IsSimpleEscape(js[i + 1]) then StringEnd(js, i + 2, strict)
      else if js[i + 1] == 'u' then
        match HexEnd(js, i + 2, 4)
        case None => Err(Inval)
        case Some(h) => StringEnd(js, h, strict)
      else Err(Inval)
    else StringEnd(js, i + 1, strict)
  }

  /** The end of a primitive, scanned from `i`. */
  function PrimEnd(js: Bytes, i: nat): (r: Result<nat, JsmnError>)
    requires i <= |js|
    ensures r.Ok? ==> i <= r.value <= |js|
    decreases |js| - i
  {
    if i == |js| || js[i] == '\0' || IsDelimiter(js[i]) then Ok(i)
    else if js[i] < ' ' || js[i] >= '\U{7F}' then Err(Inval)
    else PrimEnd(js, i + 1)
  }

  // ---- The grammar check -----------------------------------------------------------------------

  function AfterOpen(e: Expect, brace: bool): Option<Expect> {
    match e
    case Root => if brace then Some(KeyOrClose) else None
    case AnyValue => Some(if brace then KeyOrClose else ValueOrClose)
    case ValueOrClose => Some(if brace then KeyOrClose else ValueOrClose)
    case _ => None
  }

  predicate MayClose(e: Expect, brace: bool) {
    e == CommaOrClose || (if brace then e == KeyOrClose else e == ValueOrClose)
  }

  function AfterString(e: Expect): Option<Expect> {
    match e
    case Key => Some(Colon)
    case KeyOrClose => Some(Colon)
    case AnyValue => Some(CommaOrClose)
    case ValueOrClose => Some(CommaOrClose)
    case _ => None
  }

  function AfterPrimitive(e: Expect): Option<Expect> {
    if e == AnyValue || e == ValueOrClose then Some(CommaOrClose) else None
  }

  // ---- One top-level byte ----------------------------------------------------------------------

  /** The state after one top-level byte, and the position of the next one. */
  type Next = Result<(Scan, nat), JsmnError>

  function OpenBracket(s: Scan, pos: nat, brace: bool, cap: nat, check: bool): Next {
    if check && AfterOpen(s.want, brace).None? then Err(Inval)
    else if |s.toks| >= cap then Err(NoMem)
    else
      var toks := s.toks + [Token(if brace then Object else Array, U16(pos), UNSET)];
      Ok((Scan(toks, |toks| - 1, if check then AfterOpen(s.want, brace).value else s.want), pos + 1))
  }

  function CloseBracket(s: Scan, pos: nat, brace: bool, check: bool): Next {
    var top := LastOpen(s.toks);
    if check && !MayClose(s.want, brace) then Err(Inval)
    else if top < 0 || s.toks[top].kind != (if brace then Object else Array) then Err(Inval)
    else
      var toks := s.toks[top := s.toks[top].(end := U16(pos + 1))];
      var sup := LastOpen(toks);
      Ok((Scan(toks, sup, if !check then s.want else if sup >= 0 then CommaOrClose else Done), pos + 1))
  }

  function Quote(js: Bytes, s: Scan, pos: nat, cap: nat, check: bool): Next
    requires pos < |js|
  {
    if check && AfterString(s.want).None? then Err(Inval)
    else
      match StringEnd(js, pos + 1, check)
      case Err(e) => Err(e)
      case Ok(end) =>
        if |s.toks| >= cap then Err(NoMem)
        else
          var toks := s.toks + [Token(String, U16(pos + 1), U16(end))];
          Ok((s.(toks := toks, want := if check then AfterString(s.want).value else s.want), end + 1))
  }

  function ColonByte(s: Scan, pos: nat, check: bool): Next {
    if check && s.want != Colon then Err(Inval)
    else Ok((s.(sup := |s.toks| - 1, want := if check then AnyValue else s.want), pos + 1))
  }

  function CommaSup(s: Scan): (sup: int)
    requires WellFormed(s)
    ensures -1 <= sup < |s.toks|
  {
    if s.sup >= 0 && IsContainer(s.toks[s.sup].kind) then s.sup
    else if LastOpenContainer(s.toks) >= 0 then LastOpenContainer(s.toks)
    else s.sup
  }

  /** What follows a `,` in the container `sup` names, if it is an open one. */
  function AfterComma(toks: seq<Token>, sup: int): Option<Expect>
    requires -1 <= sup < |toks|
  {
    if sup >= 0 && IsOpen(toks[sup]) && IsContainer(toks[sup].kind)
    then Some(if toks[sup].kind == Object then Key else AnyValue)
    else None
  }

  function CommaByte(s: Scan, pos: nat, check: bool): Next
    requires WellFormed(s)
  {
    var sup := CommaSup(s);
    if check && (s.want != CommaOrClose || AfterComma(s.toks, sup).None?) then Err(Inval)
    else Ok((s.(sup := sup, want := if check then AfterComma(s.toks, sup).value else s.want), pos + 1))
  }

  function OtherByte(js: Bytes, s: Scan, pos: nat, cap: nat, check: bool): Next
    requires pos < |js|
  {
    if check && AfterPrimitive(s.want).None? then Err(Inval)
    else
      match PrimEnd(js, pos)
      case Err(e) => Err(e)
      case Ok(end) =>
        if |s.toks| >= cap then Err(NoMem)
        else
          var toks := s.toks + [Token(Primitive, U16(pos), U16(end))];
          Ok((s.(toks := toks, want := if check then AfterPrimitive(s.want).value else s.want), end))
  }

  function Step(js: Bytes, pos: nat, s: Scan, cap: nat, strict: bool): (r: Next)
    requires pos < |js| && js[pos] != '\0' && WellFormed(s)
    ensures r.Ok? ==> WellFormed(r.value.0) && pos < r.value.1 <= |js|
  {
    var check := strict && s.want != Done;
    match js[pos]
    case '{' => OpenBracket(s, pos, true, cap, check)
    case '[' => OpenBracket(s, pos, false, cap, check)
    case '}' => CloseBracket(s, pos, true, check)
    case ']' => CloseBracket(s, pos, false, check)
    case '"' => Quote(js, s, pos, cap, check)
    case ':' => ColonByte(s, pos, check)
    case ',' => CommaByte(s, pos, check)
    case c => if IsBlank(c) then Ok((s, pos + 1)) else OtherByte(js, s, pos, cap, check)
  }

  /** Tokenizing `js[pos..]` up to the first NUL byte. */
  function Run(js: Bytes, pos: nat, s: Scan, cap: nat, strict: bool): (r: Result<seq<Token>, JsmnError>)
    requires pos <= |js| && WellFormed(s)
    decreases |js| - pos
  {
    if pos == |js| || js[pos] == '\0' then
      if LastOpen(s.toks) >= 0 then Err(Part) else Ok(s.toks)
    else
      match Step(js, pos, s, cap, strict)
      case Err(e) => Err(e)
      case Ok((next, p)) => Run(js, p, next, cap, strict)
  }

  /** `parse` and `parse_strict`: a fresh parser over `js` and `cap` token slots. */
  function Parse(js: Bytes, cap: nat, strict: bool): Result<seq<Token>, JsmnError> {
    Run(js, 0, START, cap, strict)
  }
}
