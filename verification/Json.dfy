/**
 Navigation over the flat token array. The walks never build a tree: they go
 through the tokens in order and skip those that start inside the last one taken.
 */
module Json {
  import opened Base
  import opened Errors
  import opened JsmnSpec

  /** The JSON token cap. */
  const MAX_TOKENS := 768

  /** A tokenized document. The indices are 16-bit: with at most `MAX_TOKENS` tokens none wraps. */
  type Json = j: JsonData | |j.tokens| <= MAX_TOKENS witness JsonData([], [])

  datatype JsonData = JsonData(buf: Bytes, tokens: seq<Token>) {
    /** Token `i`; an index past the end reads a zeroed token. */
    function Tok(i: nat): Token {
      if i < |tokens| then tokens[i] else EMPTY_TOKEN
    }

    /** The bytes of token `i`. */
    function Span(i: nat): Bytes {
      var t := Tok(i);
      if t.start <= t.end <= |buf| then buf[t.start..t.end] else []
    }

    /** The length of token `i`, a 16-bit difference. */
    function Len(i: nat): nat {
      var t := Tok(i);
      if t.start <= t.end then t.end - t.start else U16(0x1_0000 + U16(t.end) - U16(t.start))
    }

    predicate IsNull(i: nat) {
      Span(i) == "null" && Tok(i).end - Tok(i).start == 4
    }

    // ---- The walks as lists of token indices ---------------------------------------------------

    /** The elements of a container that ends at `end`, from token `ti` on, skipping what starts by `prevEnd`. */
    function ElementsFrom(end: nat, ti: nat, prevEnd: nat): seq<nat>
      decreases |tokens| - ti
    {
      if ti >= |tokens| || tokens[ti].start > end then []
      else if tokens[ti].start <= prevEnd then ElementsFrom(end, ti + 1, prevEnd)
      else [ti] + ElementsFrom(end, ti + 1, tokens[ti].end)
    }

    function Elements(arr: nat): seq<nat> {
      ElementsFrom(Tok(arr).end, arr + 1, Tok(arr).start)
    }

    /** The keys of an object that ends at `end`: every key is taken with the token after it as its value. */
    function KeysFrom(end: nat, ti: nat, prevEnd: nat): seq<nat>
      decreases |tokens| - ti
    {
      if ti + 1 >= |tokens| || tokens[ti].start > end then []
      else if tokens[ti].start <= prevEnd then KeysFrom(end, ti + 1, prevEnd)
      else [ti] + KeysFrom(end, ti + 1, tokens[ti + 1].end)
    }

    function Keys(obj: nat): seq<nat> {
      KeysFrom(Tok(obj).end, obj + 1, Tok(obj).start)
    }

    /** The bytes at token `k` are `key`, and its span is as long. */
    predicate KeyIs(k: nat, key: Bytes) {
      U16(|key|) == Tok(k).end - Tok(k).start && Starts(Tok(k).start, key, |key|)
    }

    /** The first `n` bytes of `key` are those at `start`. */
    predicate Starts(start: nat, key: Bytes, n: nat)
      requires n <= |key|
    {
      forall i | 0 <= i < n :: start + i < |buf| && buf[start + i] == key[i]
    }

    /** The first of the keys `ks` whose bytes are `key`. */
    function FirstKey(ks: seq<nat>, key: Bytes): (r: Option<nat>)
      ensures r.Some? ==> r.value in ks
    {
      if ks == [] then None
      else if KeyIs(ks[0], key) then Some(ks[0])
      else FirstKey(ks[1..], key)
    }

    /** The value token of the first member named `key`. */
    function Get(obj: nat, key: Bytes): Option<nat> {
      match FirstKey(Keys(obj), key)
      case None => None
      case Some(k) => Some(k + 1)
    }

    function GetResult(obj: nat, key: Bytes): Result<nat, ParserError> {
      if obj < |tokens| && Get(obj, key).Some? then Ok(Get(obj, key).value) else Err(NoData)
    }

    function Nth(list: seq<nat>, owner: nat, n: nat): Result<nat, ParserError> {
      if owner < |tokens| && n < |list| then Ok(list[n]) else Err(NoData)
    }

    function Count(list: seq<nat>, owner: nat): Result<nat, ParserError> {
      if owner < |tokens| then Ok(|list|) else Err(NoData)
    }

    // ---- The walks as the program runs them ----------------------------------------------------

    method ArrayGetElementCount(arr: nat) returns (r: Result<nat, ParserError>)
      ensures r == Count(Elements(arr), arr)
    {
      var out := 0;
      if arr >= |tokens| {
        return Err(NoData);
      }
      var at := Tok(arr);
      var ti := arr + 1;
      var prevEnd := at.start;
      while ti < |tokens| && tokens[ti].start <= at.end
        invariant out + |ElementsFrom(at.end, ti, prevEnd)| == |Elements(arr)|
        decreases |tokens| - ti
      {
        var cur := tokens[ti];
        if cur.start > prevEnd {
          prevEnd := cur.end;
          out := out + 1;
        }
        ti := ti + 1;
      }
      return Ok(out);
    }

    method ArrayGetNthElement(arr: nat, element: nat) returns (r: Result<nat, ParserError>)
      ensures r == Nth(Elements(arr), arr, element)
    {
      if arr >= |tokens| {
        return Err(NoData);
      }
      var at := Tok(arr);
      var out := arr + 1;
      var count := 0;
      var prevEnd := at.start;
      while out < |tokens| && tokens[out].start <= at.end
        invariant count <= element
        invariant Nth(Elements(arr), arr, element) == Nth(ElementsFrom(at.end, out, prevEnd), arr, element - count)
        decreases |tokens| - out
      {
        var cur := tokens[out];
        if cur.start > prevEnd {
          prevEnd := cur.end;
          if count == element {
            return Ok(out);
          }
          count := count + 1;
        }
        out := out + 1;
      }
      return Err(NoData);
    }

    method ObjectGetElementCount(obj: nat) returns (r: Result<nat, ParserError>)
      ensures r == Count(Keys(obj), obj)
    {
      var out := 0;
      if obj >= |tokens| {
        return Err(NoData);
      }
      var ot := Tok(obj);
      var ti := obj + 1;
      var prevEnd := ot.start;
      while ti + 1 < |tokens| && tokens[ti].start <= ot.end
        invariant out + |KeysFrom(ot.end, ti, prevEnd)| == |Keys(obj)|
        decreases |tokens| - ti
      {
        var key := tokens[ti];
        ti := ti + 1;
        var value := tokens[ti];
        if key.start > prevEnd {
          prevEnd := value.end;
          out := out + 1;
        }
      }
      return Ok(out);
    }

    method ObjectGetNthKey(obj: nat, element: nat) returns (r: Result<nat, ParserError>)
      ensures r == Nth(Keys(obj), obj, element)
    {
      if obj >= |tokens| {
        return Err(NoData);
      }
      var ot := Tok(obj);
      var out := obj + 1;
      var count := 0;
      var prevEnd := ot.start;
      while out + 1 < |tokens| && tokens[out].start <= ot.end
        invariant count <= element
        invariant Nth(Keys(obj), obj, element) == Nth(KeysFrom(ot.end, out, prevEnd), obj, element - count)
        decreases |tokens| - out
      {
        var key := tokens[out];
        out := out + 1;
        var value := tokens[out];
        if key.start > prevEnd {
          prevEnd := value.end;
          if count == element {
            return Ok(out - 1);
          }
          count := count + 1;
        }
      }
      return Err(NoData);
    }

    method ObjectGetNthValue(obj: nat, element: nat) returns (r: Result<nat, ParserError>)
      ensures r == match Nth(Keys(obj), obj, element) case Ok(k) => Ok(k + 1) case Err(e) => Err(e)
    {
      var key := ObjectGetNthKey(obj, element);
      r := match key case Ok(k) => Ok(k + 1) case Err(e) => Err(e);
    }

    /** Compares token `k` with `key`, length first, then byte by byte. */
    method MatchKey(k: nat, key: Bytes) returns (found: bool)
      requires k < |tokens|
      ensures found == KeyIs(k, key)
    {
      var keyTok := tokens[k];
      if U16(|key|) != keyTok.end - keyTok.start {
        return false;
      }
      var i := 0;
      while i < |key|
        invariant 0 <= i <= |key| && Starts(keyTok.start, key, i)
      {
        var b := key[i];
        if keyTok.start + i >= |buf| || buf[keyTok.start + i] != b {
          return false;
        }
        i := i + 1;
      }
      return true;
    }

    method ObjectGetValue(obj: nat, key: Bytes) returns (r: Result<nat, ParserError>)
      ensures r == GetResult(obj, key)
    {
      if obj >= |tokens| {
        return Err(NoData);
      }
      var ot := Tok(obj);
      var out := obj + 1;
      var prevEnd := ot.start;
      while out + 1 < |tokens| && tokens[out].start <= ot.end
        invariant FirstKey(Keys(obj), key) == FirstKey(KeysFrom(ot.end, out, prevEnd), key)
        decreases |tokens| - out
      {
        ghost var here := out;
        ghost var more := KeysFrom(ot.end, out, prevEnd);
        var keyTok := tokens[out];
        out := out + 1;
        var value := tokens[out];
        if keyTok.start > prevEnd {
          prevEnd := value.end;
          assert more[0] == here && more[1..] == KeysFrom(ot.end, out, prevEnd);
          assert FirstKey(more, key) == if KeyIs(here, key) then Some(here) else FirstKey(more[1..], key);
          var found := MatchKey(out - 1, key);
          if found {
            return Ok(out);
          }
        }
      }
      return Err(NoData);
    }
  }

  /** Iterates the keys of an object in order. */
  class ObjectKeys {
    const json: Json
    const objectEnd: nat
    var ti: nat
    var prevEnd: nat
    var done: bool

    /** The keys still to come. */
    ghost function Rest(): seq<nat>
      reads this
    {
      if done then [] else json.KeysFrom(objectEnd, ti, prevEnd)
    }

    constructor (json: Json, obj: nat)
      ensures this.json == json && Rest() == json.Keys(obj)
    {
      this.json := json;
      objectEnd := json.Tok(obj).end;
      ti := obj + 1;
      prevEnd := json.Tok(obj).start;
      done := false;
    }

    method Next() returns (r: Option<nat>)
      modifies this
      ensures old(Rest()) == [] ==> r == None && Rest() == []
      ensures old(Rest()) != [] ==> r == Some(old(Rest())[0]) && Rest() == old(Rest())[1..]
    {
      while !done
        invariant Rest() == old(Rest())
        decreases !done, |json.tokens| - ti
      {
        if ti + 1 >= |json.tokens| || json.tokens[ti].start > objectEnd {
          done := true;
          break;
        }
        var keyIdx := ti;
        ti := ti + 1;
        if json.tokens[keyIdx].start > prevEnd {
          prevEnd := json.tokens[ti].end;
          return Some(keyIdx);
        }
      }
      return None;
    }
  }

  // ---- Key integrity ---------------------------------------------------------------------------

  predicate HasBackslash(s: Bytes) { '\\' in s }

  /** Key `n` of `ks` is equal to an earlier one. */
  predicate Repeats(j: Json, ks: seq<nat>, n: nat)
    requires n < |ks|
  {
    exists b | 0 <= b < n :: j.Span(ks[b]) == j.Span(ks[n])
  }

  /** Why the keys `ks` are refused, from the `n`-th on: the first of them with an escape or equal to an earlier one. */
  function KeysRefusal(j: Json, ks: seq<nat>, n: nat): Option<ParserError>
    requires n <= |ks|
    decreases |ks| - n
  {
    if n == |ks| then None
    else if HasBackslash(j.Span(ks[n])) then Some(UnexpectedCharacters)
    else if Repeats(j, ks, n) then Some(DuplicatedField)
    else KeysRefusal(j, ks, n + 1)
  }

  /** Why the objects from token `i` on are refused, the first of them that is. */
  function Refusal(j: Json, i: nat): Option<ParserError>
    requires i <= |j.tokens|
    decreases |j.tokens| - i
  {
    if i == |j.tokens| then None
    else if j.tokens[i].kind == Object && KeysRefusal(j, j.Keys(i), 0).Some? then KeysRefusal(j, j.Keys(i), 0)
    else Refusal(j, i + 1)
  }

  function AsResult(refusal: Option<ParserError>): Result<(), ParserError> {
    match refusal
    case None => Ok(())
    case Some(e) => Err(e)
  }

  /** Every key of every object, against the earlier keys of its object. */
  method CheckKeyIntegrity(j: Json) returns (r: Result<(), ParserError>)
    ensures r == AsResult(Refusal(j, 0))
  {
    for obj := 0 to |j.tokens|
      invariant Refusal(j, 0) == Refusal(j, obj)
    {
      if j.tokens[obj].kind == Object {
        r := CheckObjectKeys(j, obj);
        if r.Err? {
          return;
        }
      }
    }
    return Ok(());
  }

  method CheckObjectKeys(j: Json, obj: nat) returns (r: Result<(), ParserError>)
    requires obj < |j.tokens|
    ensures r == AsResult(KeysRefusal(j, j.Keys(obj), 0))
  {
    hide JsonData.KeysFrom, JsonData.Span;
    ghost var ks := j.Keys(obj);
    var outer := new ObjectKeys(j, obj);
    var n := 0;
    var a := outer.Next();
    while a.Some?
      invariant fresh(outer) && 0 <= n <= |ks|
      invariant if n < |ks| then a == Some(ks[n]) && outer.Rest() == ks[n + 1..] else a == None
      invariant KeysRefusal(j, ks, 0) == KeysRefusal(j, ks, n)
      decreases |ks| - n
    {
      var key := j.Span(a.value);
      if '\\' in key {
        return Err(UnexpectedCharacters);
      }
      var earlier := HasEarlierKey(j, obj, n, key);
      if earlier {
        return Err(DuplicatedField);
      }
      n := n + 1;
      a := outer.Next();
    }
    return Ok(());
  }

  /** Whether one of the first `n` keys of `obj` is `key`. */
  method HasEarlierKey(j: Json, obj: nat, n: nat, key: Bytes) returns (found: bool)
    requires n <= |j.Keys(obj)|
    ensures found <==> exists b | 0 <= b < n :: j.Span(j.Keys(obj)[b]) == key
  {
    hide JsonData.KeysFrom, JsonData.Span;
    ghost var ks := j.Keys(obj);
    var inner := new ObjectKeys(j, obj);
    var m := 0;
    while m < n
      invariant fresh(inner) && 0 <= m <= n && inner.Rest() == ks[m..]
      invariant forall b | 0 <= b < m :: j.Span(ks[b]) != key
    {
      var b := inner.Next();
      if j.Span(b.value) == key {
        return true;
      }
      m := m + 1;
    }
    return false;
  }
}
