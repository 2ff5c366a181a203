/** The tokenizer as the program runs it: a parser object over a caller's token array. */
module Jsmn {
  import opened Base
  import opened Syntax
  import opened JsmnSpec

  class Parser {
    var pos: nat
    var toknext: nat
    var toksuper: int

    constructor ()
      ensures pos == 0 && toknext == 0 && toksuper == -1
    {
      pos, toknext, toksuper := 0, 0, -1;
    }

    /** The tokens stored so far, `toksuper` and the grammar state. */
    ghost function State(tokens: array<Token>, want: Expect): Scan
      requires toknext <= tokens.Length
      reads `toknext, `toksuper, tokens
    {
      Scan(tokens[..toknext], toksuper, want)
    }

    /** The state is `s`, and the unused slots are as they were cleared. */
    ghost predicate Holds(tokens: array<Token>, want: Expect, s: Scan)
      reads `toknext, `toksuper, tokens
    {
      toknext <= tokens.Length && WellFormed(s) && State(tokens, want) == s &&
      forall i | toknext <= i < tokens.Length :: tokens[i] == EMPTY_TOKEN
    }

    lemma {:induction false} HeldState(tokens: array<Token>, want: Expect, s: Scan)
      requires Holds(tokens, want, s)
      ensures toknext <= tokens.Length && WellFormed(s) && s == Scan(tokens[..toknext], toksuper, want)
      ensures forall i | toknext <= i < tokens.Length :: tokens[i] == EMPTY_TOKEN
    {
    }

    lemma {:induction false} Started(tokens: array<Token>)
      requires toknext == 0 && toksuper == -1 && forall i | 0 <= i < tokens.Length :: tokens[i] == EMPTY_TOKEN
      ensures Holds(tokens, Root, START)
    {
    }

    /** Takes the next slot and marks its span unset. */
    method AllocToken(tokens: array<Token>) returns (idx: Option<nat>)
      requires toknext <= tokens.Length
      modifies this`toknext, tokens
      ensures old(toknext) == tokens.Length ==> idx == None && toknext == old(toknext) && tokens[..] == old(tokens[..])
      ensures old(toknext) < tokens.Length ==>
                idx == Some(old(toknext)) && toknext == old(toknext) + 1 &&
                tokens[..] == old(tokens[..])[old(toknext) := old(tokens[toknext]).(start := UNSET, end := UNSET)]
    {
      if toknext >= tokens.Length {
        return None;
      }
      idx := Some(toknext);
      tokens[toknext] := tokens[toknext].(start := UNSET, end := UNSET);
      toknext := toknext + 1;
    }

    /** Stores `t` in a fresh slot; the position is put back when there is none. */
    method Store(tokens: array<Token>, t: Token, start: nat, ghost s: Scan, want: Expect)
        returns (r: Result<(), JsmnError>)
      requires Holds(tokens, want, s)
      modifies this, tokens
      ensures toksuper == old(toksuper)
      ensures old(toknext) >= tokens.Length ==> r == Err(NoMem) && pos == start
      ensures old(toknext) < tokens.Length ==>
                r == Ok(()) && pos == old(pos) && toknext == old(toknext) + 1 &&
                Holds(tokens, want, s.(toks := s.toks + [t]))
    {
      var idx := AllocToken(tokens);
      match idx
      case None =>
        pos := start;
        return Err(NoMem);
      case Some(i) =>
        tokens[i] := t;
        return Ok(());
    }

    /** A primitive from `pos`; leaves `pos` on its last byte. */
    method ParsePrimitive(js: Bytes, tokens: array<Token>, ghost s: Scan, want: Expect)
        returns (r: Result<(), JsmnError>)
      requires pos < |js| && js[pos] != '\0' && !IsDelimiter(js[pos]) && Holds(tokens, want, s)
      modifies this, tokens
      ensures toksuper == old(toksuper)
      ensures match PrimEnd(js, old(pos))
              case Err(e) => r == Err(e) && pos == old(pos)
              case Ok(end) =>
                if old(toknext) >= tokens.Length then r == Err(NoMem) && pos == old(pos)
                else r == Ok(()) && pos + 1 == end && toknext == old(toknext) + 1 &&
                     Holds(tokens, want, s.(toks := s.toks + [Token(Primitive, U16(old(pos)), U16(end))]))
    {
      hide Holds;
      var start := pos;
      while pos < |js| && js[pos] != '\0' && !IsDelimiter(js[pos])
        invariant start <= pos <= |js| && toksuper == old(toksuper) && toknext == old(toknext)
        invariant Holds(tokens, want, s)
        invariant PrimEnd(js, pos) == PrimEnd(js, start)
        decreases |js| - pos
      {
        if js[pos] < ' ' || js[pos] >= '\U{7F}' {
          pos := start;
          return Err(Inval);
        }
        pos := pos + 1;
      }
      assert pos > start;
      var t := Token(Primitive, U16(start), U16(pos));
      r := Store(tokens, t, start, s, want);
      if r.Ok? {
        pos := pos - 1;
      }
    }

    /** Moves over at most four hex digits; false at another byte. */
    method SkipHex(js: Bytes) returns (ok: bool)
      requires pos <= |js|
      modifies this`pos
      ensures pos >= old(pos) && (ok <==> HexEnd(js, old(pos), 4).Some?)
      ensures ok ==> pos == HexEnd(js, old(pos), 4).value
    {
      var i := 0;
      while i < 4 && pos < |js| && js[pos] != '\0'
        invariant 0 <= i <= 4 && old(pos) <= pos <= |js|
        invariant HexEnd(js, pos, 4 - i) == HexEnd(js, old(pos), 4)
      {
        if !IsHex(js[pos]) {
          return false;
        }
        pos := pos + 1;
        i := i + 1;
      }
      return true;
    }

    /** Moves to the last byte of the escape at `pos`; false if it is none. */
    method SkipEscape(js: Bytes, ghost strict: bool) returns (ok: bool)
      requires pos + 1 < |js| && js[pos] == '\\'
      modifies this`pos
      ensures ok ==> old(pos) < pos < |js| && StringEnd(js, old(pos), strict) == StringEnd(js, pos + 1, strict)
      ensures !ok ==> StringEnd(js, old(pos), strict) == Err(Inval)
    {
      pos := pos + 1;
      if js[pos] == 'u' {
        pos := pos + 1;
        ok := SkipHex(js);
        pos := pos - 1;
      } else {
        ok := IsSimpleEscape(js[pos]);
      }
    }

    /** A string from its opening quote; leaves `pos` on the closing one. */
    method ParseString(js: Bytes, tokens: array<Token>, strict: bool, ghost s: Scan, want: Expect)
      returns (r: Result<(), JsmnError>)
      requires pos < |js| && Holds(tokens, want, s)
      modifies this, tokens
      ensures toksuper == old(toksuper)
      ensures match StringEnd(js, old(pos) + 1, strict)
              case Err(e) => r == Err(e) && pos == old(pos)
              case Ok(end) =>
                if old(toknext) >= tokens.Length then r == Err(NoMem) && pos == old(pos)
                else r == Ok(()) && pos == end && toknext == old(toknext) + 1 &&
                     Holds(tokens, want, s.(toks := s.toks + [Token(String, U16(old(pos) + 1), U16(end))]))
    {
      hide Holds, IsHex;
      var start := pos;
      pos := pos + 1;
      while pos < |js| && js[pos] != '\0'
        invariant start < pos <= |js| && toksuper == old(toksuper) && toknext == old(toknext)
        invariant Holds(tokens, want, s)
        invariant StringEnd(js, pos, strict) == StringEnd(js, start + 1, strict)
        decreases |js| - pos
      {
        var c := js[pos];
        if strict && c < ' ' {
          pos := start;
          return Err(Inval);
        }
        if c == '"' {
          var t := Token(String, U16(start + 1), U16(pos));
          r := Store(tokens, t, start, s, want);
          return;
        }
        if c == '\\' && pos + 1 < |js| {
          var ok := SkipEscape(js, strict);
          if !ok {
            pos := start;
            return Err(Inval);
          }
        }
        pos := pos + 1;
      }
      pos := start;
      return Err(Part);
    }

    /** An opening bracket at `pos`. */
    method Open(tokens: array<Token>, brace: bool, check: bool, want: Expect, ghost s: Scan)
      returns (r: Result<Expect, JsmnError>)
      requires Holds(tokens, want, s)
      modifies this, tokens
      ensures pos == old(pos)
      ensures match OpenBracket(s, pos, brace, tokens.Length, check)
              case Err(e) => r == Err(e)
              case Ok((next, _)) => r == Ok(next.want) && toknext == old(toknext) + 1 && Holds(tokens, next.want, next)
    {
      var next := want;
      if check {
        var e := AfterOpen(want, brace);
        if e.None? {
          return Err(Inval);
        }
        next := e.value;
      }
      var idx := AllocToken(tokens);
      if idx.None? {
        return Err(NoMem);
      }
      tokens[idx.value] := tokens[idx.value].(kind := if brace then Object else Array);
      tokens[idx.value] := tokens[idx.value].(start := U16(pos));
      toksuper := toknext - 1;
      r := Ok(next);
    }

    /** A closing bracket at `pos`: the backward scans for the open token and for the one around it. */
    method Close(tokens: array<Token>, brace: bool, check: bool, want: Expect, ghost s: Scan)
      returns (r: Result<Expect, JsmnError>)
      requires Holds(tokens, want, s)
      modifies this, tokens
      ensures pos == old(pos)
      ensures match CloseBracket(s, pos, brace, check)
              case Err(e) => r == Err(e)
              case Ok((next, _)) => r == Ok(next.want) && toknext == old(toknext) && Holds(tokens, next.want, next)
    {
      hide Holds, LastOpen;
      HeldState(tokens, want, s);
      if check && !MayClose(want, brace) {
        return Err(Inval);
      }
      var kind := if brace then Object else Array;
      var i := ScanOpen(tokens, toknext - 1);
      HeldState(tokens, want, s);
      if i >= 0 && tokens[i].kind != kind {
        return Err(Inval);
      }
      if i == -1 {
        return Err(Inval);
      }
      ghost var closed := CloseToken(tokens, i, want, s);
      HeldState(tokens, want, s.(toks := closed, sup := -1));
      i := ScanOpen(tokens, i);
      if i >= 0 {
        toksuper := i;
      }
      Rescanned(tokens, if !check then want else if i >= 0 then CommaOrClose else Done, closed);
      r := Ok(if !check then want else if toksuper >= 0 then CommaOrClose else Done);
    }

    lemma {:induction false} Rescanned(tokens: array<Token>, want: Expect, toks: seq<Token>)
      requires toknext <= tokens.Length && tokens[..toknext] == toks && -1 <= toksuper < |toks|
      requires forall i | toknext <= i < tokens.Length :: tokens[i] == EMPTY_TOKEN
      ensures Holds(tokens, want, Scan(toks, toksuper, want))
    {
    }

    /** Ends token `i`; no token is the super token. */
    method CloseToken(tokens: array<Token>, i: nat, want: Expect, ghost s: Scan) returns (ghost closed: seq<Token>)
      requires Holds(tokens, want, s) && i < toknext && i == LastOpen(s.toks)
      modifies this`toksuper, tokens
      ensures closed == s.toks[i := s.toks[i].(end := U16(pos + 1))]
      ensures Holds(tokens, want, s.(toks := closed, sup := -1)) && forall k | i < k < toknext :: !IsOpen(tokens[k])
    {
      hide LastOpen;
      assert forall k | 0 <= k < toknext :: tokens[k] == s.toks[k];
      closed := s.toks[i := s.toks[i].(end := U16(pos + 1))];
      toksuper := -1;
      tokens[i] := tokens[i].(end := U16(pos + 1));
      assert tokens[..toknext] == closed;
    }

    /** Backwards from token `from`, after which none is open: the last open token, or -1. */
    method ScanOpen(tokens: array<Token>, from: int) returns (i: int)
      requires -1 <= from < toknext <= tokens.Length || (from == -1 && toknext <= tokens.Length)
      requires forall k | from < k < toknext :: !IsOpen(tokens[k])
      ensures i == LastOpen(tokens[..toknext])
    {
      i := from;
      while i >= 0 && !IsOpen(tokens[i])
        invariant -1 <= i && (i < toknext || i == -1)
        invariant forall k | i < k < toknext :: !IsOpen(tokens[k])
      {
        i := i - 1;
      }
      ghost var toks := tokens[..toknext];
      assert forall k | 0 <= k < toknext :: tokens[k] == toks[k];
    }

    /** The innermost open object or array, if `toksuper` names one. */
    method OpenContainer(tokens: array<Token>) returns (kind: Option<Kind>)
      requires toknext <= tokens.Length && -1 <= toksuper < toknext
      ensures kind == if toksuper >= 0 && IsOpen(tokens[toksuper]) && IsContainer(tokens[toksuper].kind)
                      then Some(tokens[toksuper].kind) else None
    {
      if toksuper >= 0 && IsOpen(tokens[toksuper]) && IsContainer(tokens[toksuper].kind) {
        kind := Some(tokens[toksuper].kind);
      } else {
        kind := None;
      }
    }

    /** A comma: points `toksuper` at the innermost open container, unless it names a container already. */
    method Comma(tokens: array<Token>, check: bool, want: Expect, ghost s: Scan) returns (r: Result<Expect, JsmnError>)
      requires Holds(tokens, want, s)
      modifies this`toksuper
      ensures match CommaByte(s, pos, check)
              case Err(e) => r == Err(e)
              case Ok((next, _)) => r == Ok(next.want) && Holds(tokens, next.want, next)
    {
      if check && want != CommaOrClose {
        return Err(Inval);
      }
      assert forall k | 0 <= k < toknext :: tokens[k] == s.toks[k];
      var supKind := if toksuper >= 0 then tokens[toksuper].kind else Undefined;
      if !IsContainer(supKind) {
        var i := toknext - 1;
        while i >= 0 && !(IsContainer(tokens[i].kind) && IsOpen(tokens[i]))
          invariant -1 <= i < toknext && toksuper == old(toksuper)
          invariant forall k | i < k < toknext :: !(IsContainer(tokens[k].kind) && IsOpen(tokens[k]))
        {
          i := i - 1;
        }
        assert i == LastOpenContainer(s.toks);
        if i >= 0 {
          toksuper := i;
        }
      }
      if check {
        var kind := OpenContainer(tokens);
        match kind
        case None => return Err(Inval);
        case Some(k) => return Ok(if k == Object then Key else AnyValue);
      }
      r := Ok(want);
    }

    /** One top-level byte, with all that belongs to it; leaves `pos` on its last byte. */
    method TopLevelByte(js: Bytes, tokens: array<Token>, strict: bool, want: Expect, ghost s: Scan)
      returns (r: Result<Expect, JsmnError>)
      requires pos < |js| && js[pos] != '\0' && Holds(tokens, want, s)
      modifies this, tokens
      ensures match Step(js, old(pos), s, tokens.Length, strict)
              case Err(e) => r == Err(e)
              case Ok((next, p)) => r == Ok(next.want) && pos + 1 == p && Holds(tokens, next.want, next)
    {
      var c := js[pos];
      var check := strict && want != Done;
      if c == '{' || c == '[' {
        r := Open(tokens, c == '{', check, want, s);
      } else if c == '}' || c == ']' {
        r := Close(tokens, c == '}', check, want, s);
      } else if c == '"' {
        var next := if check then AfterString(want) else Some(want);
        if next.None? {
          return Err(Inval);
        }
        var stored := ParseString(js, tokens, check, s, want);
        r := if stored.Err? then Err(stored.error) else Ok(next.value);
      } else if IsBlank(c) {
        r := Ok(want);
      } else if c == ':' {
        if check && want != Colon {
          return Err(Inval);
        }
        toksuper := toknext - 1;
        r := Ok(if check then AnyValue else want);
      } else if c == ',' {
        r := Comma(tokens, check, want, s);
      } else {
        var next := if check then AfterPrimitive(want) else Some(want);
        if next.None? {
          return Err(Inval);
        }
        var stored := ParsePrimitive(js, tokens, s, want);
        r := if stored.Err? then Err(stored.error) else Ok(next.value);
      }
    }
  }

  lemma {:induction false} RunUnfold(js: Bytes, pos: nat, s: Scan, cap: nat, strict: bool)
    requires pos <= |js| && WellFormed(s)
    ensures Run(js, pos, s, cap, strict) ==
            if pos == |js| || js[pos] == '\0' then (if LastOpen(s.toks) >= 0 then Err(Part) else Ok(s.toks))
            else match Step(js, pos, s, cap, strict)
                 case Err(e) => Err(e)
                 case Ok((next, p)) => Run(js, p, next, cap, strict)
  {
  }

  method Clear(tokens: array<Token>)
    modifies tokens
    ensures forall k | 0 <= k < tokens.Length :: tokens[k] == EMPTY_TOKEN
  {
    for i := 0 to tokens.Length
      invariant forall k | 0 <= k < i :: tokens[k] == EMPTY_TOKEN
    {
      tokens[i] := EMPTY_TOKEN;
    }
  }

  /** `parse` and `parse_strict`: the number of tokens written to `tokens`. */
  method Tokenize(js: Bytes, tokens: array<Token>, strict: bool) returns (r: Result<nat, JsmnError>)
    modifies tokens
    ensures match Parse(js, tokens.Length, strict)
            case Err(e) => r == Err(e)
            case Ok(toks) => r == Ok(|toks|) && |toks| <= tokens.Length && tokens[..|toks|] == toks &&
                             forall i | |toks| <= i < tokens.Length :: tokens[i] == EMPTY_TOKEN
  {
    hide Run, Step, LastOpen, Parser.Holds;
    Clear(tokens);
    var p := new Parser();
    var want := Root;
    ghost var s := START;
    p.Started(tokens);
    while p.pos < |js| && js[p.pos] != '\0'
      invariant fresh(p) && p.pos <= |js| && p.Holds(tokens, want, s) && WellFormed(s)
      invariant Run(js, p.pos, s, tokens.Length, strict) == Parse(js, tokens.Length, strict)
      decreases |js| - p.pos
    {
      ghost var step := Step(js, p.pos, s, tokens.Length, strict);
      RunUnfold(js, p.pos, s, tokens.Length, strict);
      var next := p.TopLevelByte(js, tokens, strict, want, s);
      if next.Err? {
        return Err(next.error);
      }
      want := next.value;
      p.pos := p.pos + 1;
      s := step.value.0;
    }
    p.HeldState(tokens, want, s);
    RunUnfold(js, p.pos, s, tokens.Length, strict);
    var open := p.ScanOpen(tokens, p.toknext - 1);
    return if open >= 0 then Err(Part) else Ok(p.toknext);
  }
}
