/**
 The JSON texts the tokenizer is meant to recognise: RFC 8259, sections 2, 4, 5
 and 7, with section 6 (numbers and the three literal names) relaxed to any run
 of printable bytes that contains no separator.

 A `Value` is a concrete syntax tree: it keeps the blanks, so that printing is a
 function. `Print(v, rest)` is the text of `v` followed by `rest`.
 */
module Syntax {
  import opened Base

  datatype Value =
    | Str(body: Bytes)
    | Prim(text: Bytes)
    | Arr(pad: Bytes, elems: seq<Elem>)
    | Obj(pad: Bytes, members: seq<Member>)

  /** `lead value trail`, between `[` or `,` and `,` or `]`. */
  datatype Elem = Elem(lead: Bytes, value: Value, trail: Bytes)

  /** `lead "key" afterKey : beforeValue value trail`. */
  datatype Member = Member(lead: Bytes, key: Bytes, afterKey: Bytes, beforeValue: Bytes, value: Value, trail: Bytes)

  /** A whole JSON text: `lead root trail`. */
  datatype Doc = Doc(lead: Bytes, root: Value, trail: Bytes)

  // ---- Printing --------------------------------------------------------------------------------

  function Print(v: Value, rest: Bytes): Bytes
    decreases v, 1
  {
    match v
    case Str(body) => Quoted(body, rest)
    case Prim(text) => Cat(text, rest)
    case Arr(pad, elems) => Cat("[", if elems == [] then Cat(pad, Cat("]", rest)) else PrintElems(elems, rest))
    case Obj(pad, members) => Cat("{", if members == [] then Cat(pad, Cat("}", rest)) else PrintMembers(members, rest))
  }

  function Quoted(body: Bytes, rest: Bytes): Bytes { Cat("\"", Cat(body, Cat("\"", rest))) }

  /** The elements of a non-empty array, its closing bracket, then `rest`. */
  function PrintElems(es: seq<Elem>, rest: Bytes): Bytes
    requires es != []
    decreases es, 1
  {
    Cat(es[0].lead, Print(es[0].value, Cat(es[0].trail, PrintMoreElems(es, rest))))
  }

  /** After the first element: the closing bracket, or a comma and the other elements. */
  function PrintMoreElems(es: seq<Elem>, rest: Bytes): Bytes
    requires es != []
    decreases es, 0
  {
    if |es| == 1 then Cat("]", rest) else Cat(",", PrintElems(es[1..], rest))
  }

  function PrintMembers(ms: seq<Member>, rest: Bytes): Bytes
    requires ms != []
    decreases ms, 1
  {
    PrintKey(ms[0], Print(ms[0].value, Cat(ms[0].trail, PrintMoreMembers(ms, rest))))
  }

  /** A member up to its value. */
  function PrintKey(m: Member, rest: Bytes): Bytes {
    Cat(m.lead, Quoted(m.key, Cat(m.afterKey, Cat(":", Cat(m.beforeValue, rest)))))
  }

  function PrintMoreMembers(ms: seq<Member>, rest: Bytes): Bytes
    requires ms != []
    decreases ms, 0
  {
    if |ms| == 1 then Cat("}", rest) else Cat(",", PrintMembers(ms[1..], rest))
  }

  function PrintDoc(d: Doc): Bytes { Cat(d.lead, Print(d.root, d.trail)) }

  // ---- Lengths ---------------------------------------------------------------------------------

  function Len(v: Value): nat
    decreases v, 1
  {
    match v
    case Str(body) => |body| + 2
    case Prim(text) => |text|
    case Arr(pad, elems) => 1 + (if elems == [] then |pad| + 1 else LenElems(elems))
    case Obj(pad, members) => 1 + (if members == [] then |pad| + 1 else LenMembers(members))
  }


  /** Up to and including the closing bracket. */
  function LenElems(es: seq<Elem>): nat
    requires es != []
    decreases es, 1
  {
    |es[0].lead| + Len(es[0].value) + |es[0].trail| + 1 + LenMoreElems(es)
  }

  function LenMoreElems(es: seq<Elem>): nat
    requires es != []
    decreases es, 0
  {
    if |es| == 1 then 0 else LenElems(es[1..])
  }

  /** From the start of a member to its value. */
  function LenToValue(m: Member): nat {
    |m.lead| + |m.key| + 2 + |m.afterKey| + 1 + |m.beforeValue|
  }

  function LenMembers(ms: seq<Member>): nat
    requires ms != []
    decreases ms, 1
  {
    LenToValue(ms[0]) + Len(ms[0].value) + |ms[0].trail| + 1 + LenMoreMembers(ms)
  }

  function LenMoreMembers(ms: seq<Member>): nat
    requires ms != []
    decreases ms, 0
  {
    if |ms| == 1 then 0 else LenMembers(ms[1..])
  }

  lemma {:induction false} PrintLength(v: Value, rest: Bytes)
    ensures |Print(v, rest)| == Len(v) + |rest|
    decreases v, 1
  {
    match v
    case Str(_) =>
    case Prim(_) =>
    case Arr(_, elems) => if elems != [] { PrintElemsLength(elems, rest); }
    case Obj(_, members) => if members != [] { PrintMembersLength(members, rest); }
  }

  lemma {:induction false} PrintElemsLength(es: seq<Elem>, rest: Bytes)
    requires es != []
    ensures |PrintElems(es, rest)| == LenElems(es) + |rest|
    decreases es, 0
  {
    if |es| > 1 { PrintElemsLength(es[1..], rest); }
    PrintLength(es[0].value, Cat(es[0].trail, PrintMoreElems(es, rest)));
  }

  lemma {:induction false} PrintMembersLength(ms: seq<Member>, rest: Bytes)
    requires ms != []
    ensures |PrintMembers(ms, rest)| == LenMembers(ms) + |rest|
    decreases ms, 0
  {
    if |ms| > 1 { PrintMembersLength(ms[1..], rest); }
    PrintLength(ms[0].value, Cat(ms[0].trail, PrintMoreMembers(ms, rest)));
  }

  // ---- Well-formedness -------------------------------------------------------------------------

  predicate IsHex(c: char) { IsDigit(c) || 'A' <= c <= 'F' || 'a' <= c <= 'f' }

  predicate IsSimpleEscape(c: char) { c in {'"', '/', '\\', 'b', 'f', 'r', 'n', 't'} }

  /** RFC 8259, section 7: a byte that stands for itself, `\` and one of eight bytes, or `\u` and four hex digits. */
  predicate ValidBody(s: Bytes) {
    s == [] || (UnitLen(s) > 0 && ValidBody(s[UnitLen(s)..]))
  }

  /** Length of the first unit of a string body; 0 if it does not start with one. */
  function UnitLen(s: Bytes): (n: nat)
    ensures n <= |s|
  {
    if s == [] then 0
    else if s[0] != '\\' then (if s[0] >= ' ' && s[0] != '"' then 1 else 0)
    else if |s| >= 2 && IsSimpleEscape(s[1]) then 2
    else if |s| >= 6 && s[1] == 'u' && (forall i | 2 <= i < 6 :: IsHex(s[i])) then 6
    else 0
  }

  /** A byte that ends a primitive. */
  predicate IsDelimiter(c: char) { IsBlank(c) || c in {':', ',', ']', '}'} }

  predicate IsPrimByte(c: char) { ' ' <= c < '\U{7F}' && !IsDelimiter(c) }

  predicate ValidPrim(s: Bytes) {
    s != [] && s[0] !in {'{', '[', '"'} && forall i | 0 <= i < |s| :: IsPrimByte(s[i])
  }

  predicate Valid(v: Value)
    decreases v, 1
  {
    match v
    case Str(body) => ValidBody(body)
    case Prim(text) => ValidPrim(text)
    case Arr(pad, elems) => if elems == [] then Blank(pad) else pad == [] && ValidElems(elems)
    case Obj(pad, members) => if members == [] then Blank(pad) else pad == [] && ValidMembers(members)
  }

  predicate ValidElems(es: seq<Elem>)
    decreases es, 0
  {
    es == [] || (Blank(es[0].lead) && Blank(es[0].trail) && Valid(es[0].value) && ValidElems(es[1..]))
  }

  predicate ValidMembers(ms: seq<Member>)
    decreases ms, 0
  {
    ms == [] ||
    (Blank(ms[0].lead) && ValidBody(ms[0].key) && Blank(ms[0].afterKey) && Blank(ms[0].beforeValue) &&
     Blank(ms[0].trail) && Valid(ms[0].value) && ValidMembers(ms[1..]))
  }

  /** `ws object ws`. */
  predicate ValidDoc(d: Doc) {
    Blank(d.lead) && Blank(d.trail) && d.root.Obj? && Valid(d.root)
  }
}
