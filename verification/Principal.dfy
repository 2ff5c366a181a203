/** Whether an account name is a Pact principal, that is, names the guard it is bound to. */
module Principal {
  import opened Base

  predicate IsAlpha(c: char) { 'a' <= c <= 'z' || 'A' <= c <= 'Z' }

  predicate IsSymbol(c: char) { c in "%#+-_&$@<>=^?*!|/~" }

  predicate IsBase64Url(c: char) { IsAlpha(c) || IsDigit(c) || c == '-' || c == '_' }

  predicate IsHexDigit(c: char) { IsDigit(c) || 'a' <= c <= 'f' || 'A' <= c <= 'F' }

  function IdentRun(s: Bytes): (n: nat)
    ensures n <= |s|
  {
    if s == [] || !(IsAlpha(s[0]) || IsDigit(s[0]) || IsSymbol(s[0])) then 0 else 1 + IdentRun(s[1..])
  }

  /** What follows the identifier `s` starts with. */
  function Ident(s: Bytes): Option<Bytes> {
    if s == [] || !(IsAlpha(s[0]) || IsSymbol(s[0])) then None
    else
      var n := 1 + IdentRun(s[1..]);
      if s[..n] == "true" || s[..n] == "false" then None else Some(s[n..])
  }

  function DotIdent(s: Bytes): Option<Bytes> {
    if s != [] && s[0] == '.' then Ident(s[1..]) else None
  }

  function OrElse(a: Option<Bytes>, b: Bytes): Bytes { if a.Some? then a.value else b }

  /** `ident ('.' ident)?` */
  function ModuleName(s: Bytes): Option<Bytes> {
    match Ident(s)
    case None => None
    case Some(rest) => Some(OrElse(DotIdent(rest), rest))
  }

  /** `ident ('.' ident ('.' ident)?)?` */
  function Name(s: Bytes): Option<Bytes> {
    match Ident(s)
    case None => None
    case Some(rest) =>
      match DotIdent(rest)
      case None => Some(rest)
      case Some(more) => Some(OrElse(DotIdent(more), more))
  }

  function Hash(s: Bytes): Option<Bytes> {
    if |s| >= 43 && forall i | 0 <= i < 43 :: IsBase64Url(s[i]) then Some(s[43..]) else None
  }

  function Colon(s: Option<Bytes>): Option<Bytes> {
    match s
    case None => None
    case Some(t) => if t != [] && t[0] == ':' then Some(t[1..]) else None
  }

  predicate IsPrincipal(account: Bytes) {
    |account| >= 2 && account[1] == ':' &&
    var body := account[2..];
    match account[0]
    case 'k' => |body| == 64 && forall c | c in body :: IsHexDigit(c)
    case 'w' => (match Colon(Hash(body)) case None => false case Some(t) => Name(t) == Some([]))
    case 'r' => body != []
    case 'u' => (match Colon(Name(body)) case None => false case Some(t) => Hash(t) == Some([]))
    case 'm' => (match Colon(ModuleName(body)) case None => false case Some(t) => Name(t) == Some([]))
    case 'p' => (match Colon(Hash(body)) case None => false case Some(t) => Name(t) == Some([]))
    case 'c' => Hash(body) == Some([])
    case _ => false
  }

  // ---- The grammar -----------------------------------------------------------------------------

  predicate IsIdentByte(c: char) { IsAlpha(c) || IsDigit(c) || IsSymbol(c) }

  /** Letters, digits and symbols, no digit first; neither `true` nor `false`. */
  predicate IsIdent(s: Bytes) {
    s != [] && !IsDigit(s[0]) && (forall c | c in s :: IsIdentByte(c)) && s != "true" && s != "false"
  }

  /** At most `most` identifiers with dots between them. */
  ghost predicate IsName(s: Bytes, most: nat)
    decreases most
  {
    most > 0 && (IsIdent(s) || exists a, b :: IsIdent(a) && IsName(b, most - 1) && s == a + ("." + b))
  }

  predicate IsHash(s: Bytes) { |s| == 43 && forall c | c in s :: IsBase64Url(c) }

  /** `text` is `a:b`. */
  predicate Splits(text: Bytes, a: Bytes, b: Bytes) { text == a + (":" + b) }

  /** What may follow an identifier. */
  predicate Ends(rest: Bytes) { rest == [] || !IsIdentByte(rest[0]) }

  lemma {:induction false} RunIs(a: Bytes, rest: Bytes)
    requires (forall c | c in a :: IsIdentByte(c)) && Ends(rest)
    ensures IdentRun(a + rest) == |a|
  {
    if a == [] {
      assert a + rest == rest;
    } else {
      assert (a + rest)[1..] == a[1..] + rest && (a + rest)[0] == a[0] && a[0] in a;
      RunIs(a[1..], rest);
    }
  }

  lemma {:induction false} RunBytes(s: Bytes)
    ensures forall i | 0 <= i < IdentRun(s) :: IsIdentByte(s[i])
    ensures Ends(s[IdentRun(s)..])
  {
    if s != [] && IsIdentByte(s[0]) {
      RunBytes(s[1..]);
      assert s[IdentRun(s)..] == s[1..][IdentRun(s[1..])..];
      forall i | 0 <= i < IdentRun(s) ensures IsIdentByte(s[i]) {
        if i > 0 { assert s[i] == s[1..][i - 1]; }
      }
    }
  }

  /** An identifier is read up to where it ends. */
  lemma {:induction false} IdentReads(a: Bytes, rest: Bytes)
    requires IsIdent(a) && Ends(rest)
    ensures Ident(a + rest) == Some(rest)
  {
    var s := a + rest;
    assert s[1..] == a[1..] + rest && s[0] == a[0] && a[0] in a;
    RunIs(a[1..], rest);
    assert s[..|a|] == a && s[|a|..] == rest;
  }

  lemma {:induction false} IdentRead(s: Bytes) returns (a: Bytes)
    requires Ident(s).Some?
    ensures IsIdent(a) && Ends(Ident(s).value) && s == a + Ident(s).value
  {
    var n := 1 + IdentRun(s[1..]);
    RunBytes(s[1..]);
    a := s[..n];
    assert s[n..] == s[1..][n - 1..];
    forall i | 0 <= i < n ensures IsIdentByte(a[i]) {
      if i > 0 { assert a[i] == s[1..][i - 1]; }
    }
  }

  /** What is left after at most `most` more identifiers, each behind a dot. */
  function Rest(s: Bytes, most: nat): Bytes
    decreases most
  {
    if most == 0 then s
    else
      match DotIdent(s)
      case None => s
      case Some(more) => Rest(more, most - 1)
  }

  lemma {:induction false} NamesAre(s: Bytes)
    ensures ModuleName(s) == match Ident(s) case None => None case Some(rest) => Some(Rest(rest, 1))
    ensures Name(s) == match Ident(s) case None => None case Some(rest) => Some(Rest(rest, 2))
  {
    hide Ident;
  }

  /** What may follow a name. */
  predicate NameEnds(rest: Bytes) { rest == [] || rest[0] == ':' }

  /** A name of at most `most` identifiers, read up to `rest`. */
  lemma {:induction false} NameReads(name: Bytes, most: nat, rest: Bytes)
    requires IsName(name, most) && NameEnds(rest)
    ensures Ident(name + rest).Some? && Rest(Ident(name + rest).value, most - 1) == rest
    decreases most
  {
    hide Ident, IsIdent;
    if IsIdent(name) {
      IdentReads(name, rest);
      NoDot(rest, most - 1);
    } else {
      var a, b :| IsIdent(a) && IsName(b, most - 1) && name == a + ("." + b);
      var more := "." + (b + rest);
      assert name + rest == a + more;
      IdentReads(a, more);
      NameReads(b, most - 1, rest);
      assert more[1..] == b + rest;
    }
  }

  lemma {:induction false} NoDot(rest: Bytes, most: nat)
    requires NameEnds(rest)
    ensures Rest(rest, most) == rest
  {
  }

  lemma {:induction false} NameRead(s: Bytes, most: nat) returns (name: Bytes)
    requires most > 0 && Ident(s).Some? && NameEnds(Rest(Ident(s).value, most - 1))
    ensures IsName(name, most) && s == name + Rest(Ident(s).value, most - 1)
    decreases most
  {
    hide Ident, IsIdent;
    var a := IdentRead(s);
    var rest := Ident(s).value;
    name := a;
    if most > 1 && DotIdent(rest).Some? {
      var b := NameRead(rest[1..], most - 1);
      name := a + ("." + b);
      assert rest == "." + rest[1..];
    }
  }

  /** A name up to the end, or up to a colon. */
  lemma {:induction false} WholeName(s: Bytes)
    ensures Name(s) == Some([]) <==> IsName(s, 3)
  {
    hide Ident, IsName, Name, ModuleName, Rest;
    NamesAre(s);
    if IsName(s, 3) { NameReads(s, 3, []); assert s + [] == s; }
    if Name(s) == Some([]) { var name := NameRead(s, 3); assert name + [] == name; }
  }

  lemma {:induction false} NameColon(s: Bytes, most: nat, name: Bytes, t: Bytes)
    requires most == 2 || most == 3
    requires IsName(name, most) && Splits(s, name, t)
    ensures Colon(if most == 2 then ModuleName(s) else Name(s)) == Some(t)
  {
    hide Ident, IsName, Name, ModuleName, Rest;
    NamesAre(s);
    NameReads(name, most, ":" + t);
  }

  lemma {:induction false} ColonName(s: Bytes, most: nat) returns (name: Bytes)
    requires most == 2 || most == 3
    requires Colon(if most == 2 then ModuleName(s) else Name(s)).Some?
    ensures IsName(name, most) && Splits(s, name, Colon(if most == 2 then ModuleName(s) else Name(s)).value)
  {
    hide Ident, IsName, Name, ModuleName, Rest;
    NamesAre(s);
    var rest := Rest(Ident(s).value, most - 1);
    name := NameRead(s, most);
    assert rest == ":" + rest[1..];
  }

  lemma {:induction false} HashReads(s: Bytes)
    ensures Hash(s) == Some([]) <==> IsHash(s)
  {
    if IsHash(s) {
      assert s[43..] == [];
      forall i | 0 <= i < 43 ensures IsBase64Url(s[i]) { assert s[i] in s; }
    }
    if Hash(s) == Some([]) { assert |s[43..]| == 0; }
  }

  lemma {:induction false} HashColon(s: Bytes, h: Bytes, t: Bytes)
    requires IsHash(h) && Splits(s, h, t)
    ensures Colon(Hash(s)) == Some(t)
  {
    assert forall i | 0 <= i < 43 :: s[i] == h[i] && h[i] in h;
    assert s[43..] == ":" + t;
  }

  lemma {:induction false} ColonHash(s: Bytes)
    requires Colon(Hash(s)).Some?
    ensures IsHash(s[..43]) && Splits(s, s[..43], Colon(Hash(s)).value)
  {
    assert s[43..] == ":" + s[43..][1..];
  }

  /** What follows the letter and the colon of a principal, by the letter. */
  ghost predicate Guard(letter: char, body: Bytes) {
    match letter
    case 'k' => |body| == 64 && forall c | c in body :: IsHexDigit(c)
    case 'w' => exists h, n :: IsHash(h) && IsName(n, 3) && Splits(body, h, n)
    case 'r' => body != []
    case 'u' => exists n, h :: IsName(n, 3) && IsHash(h) && Splits(body, n, h)
    case 'm' => exists m, n :: IsName(m, 2) && IsName(n, 3) && Splits(body, m, n)
    case 'p' => exists h, n :: IsHash(h) && IsName(n, 3) && Splits(body, h, n)
    case 'c' => IsHash(body)
    case _ => false
  }

  lemma {:induction false} HashThenName(body: Bytes)
    ensures (match Colon(Hash(body)) case None => false case Some(t) => Name(t) == Some([])) <==>
            exists h, n :: IsHash(h) && IsName(n, 3) && Splits(body, h, n)
  {
    hide Hash, Name, IsName, IsHash, Splits;
    if h, n :| IsHash(h) && IsName(n, 3) && Splits(body, h, n) {
      HashColon(body, h, n);
      WholeName(n);
    }
    if Colon(Hash(body)).Some? {
      ColonHash(body);
      WholeName(Colon(Hash(body)).value);
      assert IsHash(body[..43]) && Splits(body, body[..43], Colon(Hash(body)).value);
    }
  }

  lemma {:induction false} NameThenHash(body: Bytes)
    ensures (match Colon(Name(body)) case None => false case Some(t) => Hash(t) == Some([])) <==>
            exists n, h :: IsName(n, 3) && IsHash(h) && Splits(body, n, h)
  {
    hide Hash, Name, IsName, IsHash, Splits;
    if n, h :| IsName(n, 3) && IsHash(h) && Splits(body, n, h) {
      NameColon(body, 3, n, h);
      HashReads(h);
    }
    if Colon(Name(body)).Some? {
      var n := ColonName(body, 3);
      HashReads(Colon(Name(body)).value);
    }
  }

  lemma {:induction false} ModuleThenName(body: Bytes)
    ensures (match Colon(ModuleName(body)) case None => false case Some(t) => Name(t) == Some([])) <==>
            exists m, n :: IsName(m, 2) && IsName(n, 3) && Splits(body, m, n)
  {
    hide ModuleName, Name, IsName, Splits;
    if m, n :| IsName(m, 2) && IsName(n, 3) && Splits(body, m, n) {
      NameColon(body, 2, m, n);
      WholeName(n);
    }
    if Colon(ModuleName(body)).Some? {
      var m := ColonName(body, 2);
      WholeName(Colon(ModuleName(body)).value);
    }
  }

  /** A principal is a letter, a colon and what the guard of that letter is written as. */
  lemma {:induction false} PrincipalGrammar(account: Bytes)
    ensures IsPrincipal(account) <==> |account| >= 2 && account[1] == ':' && Guard(account[0], account[2..])
  {
    hide Hash, Name, ModuleName, IsName, IsHash, Splits, Colon;
    if |account| >= 2 {
      var body := account[2..];
      HashThenName(body);
      NameThenHash(body);
      ModuleThenName(body);
      HashReads(body);
    }
  }
}
