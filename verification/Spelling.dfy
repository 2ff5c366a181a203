/** Where the values of a document can spell the escape of a byte: in the syntax tree, and in the arguments shown. */
module Spelling {
  import opened Base
  import opened Syntax
  import opened JsmnSpec
  import opened Json
  import opened Lookups
  import opened Nodes
  import opened ItemSpec
  import opened Review
  import opened ReviewProof
  import opened RenderSpec
  import opened Display
  import opened Integrity
  import opened Texts

  /**
   A value spells one in a primitive, or in a string where an escaped backslash stands before an `x`, at any depth.
   Keys are left out: no key of an accepted document has a backslash.
   */
  predicate TreeSpells(v: Syntax.Value, full: bool)
    decreases v, 1
  {
    match v
    case Str(body) => BodySpells(body, full)
    case Prim(text) => Spells(text, full)
    case Arr(_, elems) => ElemsSpell(elems, full)
    case Obj(_, members) => MembersSpell(members, full)
  }

  predicate ElemsSpell(es: seq<Elem>, full: bool)
    decreases es, 0
  {
    es != [] && (TreeSpells(es[0].value, full) || ElemsSpell(es[1..], full))
  }

  predicate MembersSpell(ms: seq<Syntax.Member>, full: bool)
    decreases ms, 0
  {
    ms != [] && (TreeSpells(ms[0].value, full) || MembersSpell(ms[1..], full))
  }

  // ---- In the text of a value ------------------------------------------------------------------

  lemma {:induction false} AfterBlank(pad: Bytes, rest: Bytes, full: bool)
    requires Blank(pad)
    ensures Spells(Cat(pad, rest), full) <==> Spells(rest, full)
    ensures Breaks(rest) ==> Breaks(Cat(pad, rest))
  {
    hide Spells;
    assert forall c | c in pad :: IsBlank(c);
    SpellsAfterPlain(pad, rest, full);
    if pad != [] { assert Cat(pad, rest)[0] == pad[0] && pad[0] in pad; } else { assert Cat(pad, rest) == rest; }
  }

  lemma {:induction false} AfterMark(mark: Bytes, rest: Bytes, full: bool)
    requires mark in {"\"", "[", "]", "{", "}", ",", ":"}
    ensures (Spells(Cat(mark, rest), full) <==> Spells(rest, full)) && Breaks(Cat(mark, rest))
  {
    hide Spells;
    assert Cat(mark, rest)[0] == mark[0];
    SpellsAfterPlain(mark, rest, full);
  }

  lemma {:induction false} QuotedSpells(body: Bytes, rest: Bytes, full: bool)
    ensures Spells(Quoted(body, rest), full) <==> Spells(body, full) || Spells(rest, full)
  {
    hide Spells, Breaks;
    AfterMark("\"", rest, full);
    SpellsCat(body, Cat("\"", rest), full);
    AfterMark("\"", Cat(body, Cat("\"", rest)), full);
  }

  /** The text of a value spells one exactly if the value does. */
  lemma {:induction false} TextSpells(v: Syntax.Value, rest: Bytes, full: bool)
    requires Good(v) && Breaks(rest)
    ensures Spells(Print(v, rest), full) <==> TreeSpells(v, full) || Spells(rest, full)
    decreases v, 1
  {
    hide Spells, BodySpells, Breaks, ValidBody;
    match v
    case Str(body) =>
      QuotedSpells(body, rest, full);
      SpellsInBody(body, full);
    case Prim(text) => SpellsCat(text, rest, full);
    case Arr(pad, elems) =>
      if elems == [] {
        AfterMark("]", rest, full);
        AfterBlank(pad, Cat("]", rest), full);
        AfterMark("[", Cat(pad, Cat("]", rest)), full);
      } else {
        ElemTextSpells(elems, rest, full);
        AfterMark("[", PrintElems(elems, rest), full);
      }
    case Obj(pad, members) =>
      if members == [] {
        AfterMark("}", rest, full);
        AfterBlank(pad, Cat("}", rest), full);
        AfterMark("{", Cat(pad, Cat("}", rest)), full);
      } else {
        MemberTextSpells(members, rest, full);
        AfterMark("{", PrintMembers(members, rest), full);
      }
  }

  lemma {:induction false} ElemTextSpells(es: seq<Elem>, rest: Bytes, full: bool)
    requires es != [] && ValidElems(es) && SoundKeysElems(es) && Breaks(rest)
    ensures Spells(PrintElems(es, rest), full) <==> ElemsSpell(es, full) || Spells(rest, full)
    decreases es, 0
  {
    hide Spells, TreeSpells, Print, Valid, SoundKeys, Breaks;
    var e, more := es[0], PrintMoreElems(es, rest);
    if |es| == 1 {
      AfterMark("]", rest, full);
    } else {
      ElemTextSpells(es[1..], rest, full);
      AfterMark(",", PrintElems(es[1..], rest), full);
    }
    AfterBlank(e.trail, more, full);
    TextSpells(e.value, Cat(e.trail, more), full);
    AfterBlank(e.lead, Print(e.value, Cat(e.trail, more)), full);
  }

  lemma {:induction false} MemberTextSpells(ms: seq<Syntax.Member>, rest: Bytes, full: bool)
    requires ms != [] && ValidMembers(ms) && SoundKeysMembers(ms) && DistinctKeys(KeyNames(ms)) && Breaks(rest)
    ensures Spells(PrintMembers(ms, rest), full) <==> MembersSpell(ms, full) || Spells(rest, full)
    decreases ms, 0
  {
    hide Spells, TreeSpells, Print, Valid, SoundKeys, Breaks, PrintKey, DistinctKeys;
    var m, more := ms[0], PrintMoreMembers(ms, rest);
    KeysBehind(ms);
    if |ms| == 1 {
      AfterMark("}", rest, full);
    } else {
      MemberTextSpells(ms[1..], rest, full);
      AfterMark(",", PrintMembers(ms[1..], rest), full);
    }
    AfterBlank(m.trail, more, full);
    TextSpells(m.value, Cat(m.trail, more), full);
    KeyTextSpells(m, Print(m.value, Cat(m.trail, more)), full);
  }

  lemma {:induction false} KeysBehind(ms: seq<Syntax.Member>)
    requires ms != [] && DistinctKeys(KeyNames(ms))
    ensures !HasBackslash(ms[0].key) && DistinctKeys(KeyNames(ms[1..]))
  {
    hide HasBackslash;
    var names, rest := KeyNames(ms), KeyNames(ms[1..]);
    assert names[0] == ms[0].key;
    assert forall i | 0 <= i < |rest| :: rest[i] == names[i + 1];
  }

  lemma {:induction false} KeyTextSpells(m: Syntax.Member, rest: Bytes, full: bool)
    requires Blank(m.lead) && Blank(m.afterKey) && Blank(m.beforeValue) && !HasBackslash(m.key)
    ensures Spells(PrintKey(m, rest), full) <==> Spells(rest, full)
  {
    hide Spells, Blank;
    AfterBlank(m.beforeValue, rest, full);
    AfterMark(":", Cat(m.beforeValue, rest), full);
    AfterBlank(m.afterKey, Cat(":", Cat(m.beforeValue, rest)), full);
    QuotedSpells(m.key, Cat(m.afterKey, Cat(":", Cat(m.beforeValue, rest))), full);
    NoneSpelled(m.key, full);
    AfterBlank(m.lead, Quoted(m.key, Cat(m.afterKey, Cat(":", Cat(m.beforeValue, rest)))), full);
  }

  // ---- The parts of an accepted document -------------------------------------------------------

  lemma {:induction false} GoodNamed(ms: seq<Syntax.Member>, key: Bytes)
    requires ValidMembers(ms) && SoundKeysMembers(ms) && Named(ms, key).Some?
    ensures Good(Named(ms, key).value)
    decreases |ms|
  {
    hide Valid, SoundKeys;
    if ms[0].key != key { GoodNamed(ms[1..], key); }
  }

  lemma {:induction false} GoodGet(v: Syntax.Value, key: Bytes)
    requires Good(v) && Get(v, key).Some?
    ensures Good(Get(v, key).value)
  {
    hide Named, DistinctKeys;
    GoodNamed(v.members, key);
  }

  lemma {:induction false} GoodElem(es: seq<Elem>, i: nat)
    requires ValidElems(es) && SoundKeysElems(es) && i < |es|
    ensures Good(es[i].value)
    decreases |es|
  {
    hide Valid, SoundKeys;
    if i > 0 { GoodElem(es[1..], i - 1); }
  }

  lemma {:induction false} GoodMembers(ms: seq<Syntax.Member>, i: nat)
    requires ValidMembers(ms) && SoundKeysMembers(ms) && DistinctKeys(KeyNames(ms)) && i < |KeysAndValues(ms)|
    ensures Good(KeysAndValues(ms)[i])
    decreases |ms|
  {
    hide DistinctKeys;
    if ms != [] {
      KeysBehind(ms);
      if i >= 2 { GoodMembers(ms[1..], i - 2); }
    }
  }

  lemma {:induction false} GoodKid(v: Syntax.Value, i: nat)
    requires Good(v) && i < |Kids(v)|
    ensures Good(Kids(v)[i])
  {
    hide DistinctKeys, KeysAndValues;
    match v
    case Arr(_, elems) => GoodElem(elems, i);
    case Obj(_, members) => GoodMembers(members, i);
  }

  // ---- In the arguments shown ------------------------------------------------------------------

  /** One of the values spells an escape. */
  predicate AnySpells(vs: seq<Syntax.Value>, full: bool) { exists i | 0 <= i < |vs| :: TreeSpells(vs[i], full) }

  /** What a line shows spells an escape: one of the arguments, or the first, where they are shown. */
  predicate LineSpells(line: Line, full: bool) {
    match line.render
    case UnknownText => line.canDisplay && AnySpells(ArgsOf(line.value), full)
    case RotateText => ArgsOf(line.value) != [] && TreeSpells(ArgsOf(line.value)[0], full)
    case _ => false
  }

  lemma {:induction false} ArgIsText(j: Json, a: nat, v: Syntax.Value)
    requires Tells(j, a, v)
    ensures ArgText(j, a) == Print(v, [])
  {
    if v.Str? { assert Quoted(v.body, []) == "\"" + v.body + "\""; }
  }

  lemma {:induction false} BareHead(n: nat, text: Bytes, full: bool)
    ensures var head := "arg " + RenderSpec.Decimal(n) + ": "; Spells(head + text, full) <==> Spells(text, full)
  {
    hide Bare, Spells, RenderSpec.Decimal, HasBackslash;
    FramesBare();
    DecimalBare(n);
    BareCat("arg ", RenderSpec.Decimal(n));
    BareCat("arg " + RenderSpec.Decimal(n), ": ");
    var head := "arg " + RenderSpec.Decimal(n) + ": ";
    BareMeets(head, NoBackslash);
    NoBackslashIn(head);
    SpellsAfterPlain(head, text, full);
  }

  lemma {:induction false} NoBackslashIn(s: Bytes)
    requires Meets(s, NoBackslash)
    ensures '\\' !in s
  {
  }

  lemma {:induction false} CommaSpells(text: Bytes, full: bool)
    ensures (Spells(", " + text, full) <==> Spells(text, full)) && Breaks(", " + text) && Breaks([])
  {
    hide Spells;
    SpellsAfterPlain(", ", text, full);
  }

  lemma {:induction false} ArgsSpell(j: Json, args: seq<nat>, kids: seq<Syntax.Value>, n: nat, full: bool)
    requires |args| == |kids| && n < |args|
    requires forall i | 0 <= i < |args| :: Tells(j, args[i], kids[i]) && Good(kids[i])
    ensures Spells(ArgsText(j, args, n), full) <==> AnySpells(kids[n..], full)
    decreases |args| - n
  {
    hide Spells, TreeSpells, Tells, Good, ArgText, RenderSpec.Decimal, Breaks, AnySpells, Print;
    var text := ArgText(j, args[n]);
    ArgIsText(j, args[n], kids[n]);
    CommaSpells([], full);
    TextSpells(kids[n], [], full);
    NothingSpelled(full);
    AnySplit(kids, n, full);
    var head := "arg " + RenderSpec.Decimal(n + 1) + ": ";
    if n + 1 == |args| {
      NoneSpells(kids[n + 1..], full);
      BareHead(n + 1, text, full);
      assert head + text + [] == head + text;
    } else {
      ArgsSpell(j, args, kids, n + 1, full);
      var more := ", " + ArgsText(j, args, n + 1);
      CommaSpells(ArgsText(j, args, n + 1), full);
      SpellsCat(text, more, full);
      BareHead(n + 1, text + more, full);
      assert head + text + more == head + (text + more);
    }
  }

  lemma {:induction false} NothingSpelled(full: bool)
    ensures !Spells([], full)
  {
  }

  lemma {:induction false} NoneSpells(vs: seq<Syntax.Value>, full: bool)
    requires vs == []
    ensures !AnySpells(vs, full)
  {
  }

  lemma {:induction false} AnySplit(vs: seq<Syntax.Value>, n: nat, full: bool)
    requires n < |vs|
    ensures AnySpells(vs[n..], full) <==> TreeSpells(vs[n], full) || AnySpells(vs[n + 1..], full)
  {
    hide TreeSpells;
    var a, b := vs[n..], vs[n + 1..];
    if i :| 0 <= i < |a| && TreeSpells(a[i], full) {
      if i > 0 { assert b[i - 1] == a[i]; }
    }
    if i :| 0 <= i < |b| && TreeSpells(b[i], full) { assert a[i + 1] == b[i]; }
    assert a[0] == vs[n];
  }

  /** The arguments of a capability, as an item shows them, spell an escape exactly if the arguments shown do. */
  lemma {:induction false} ItemSpells(j: Json, item: Item, line: Line, c: Context, full: bool)
    requires StandsFor(j, item, line) && ShowsArgs(item.render) && line.value.Obj? && Good(line.value)
    requires RenderSpec.Value(j, item, c).Ok?
    ensures Spells(RenderSpec.Value(j, item, c).value, full) <==> LineSpells(line, full)
  {
    hide Node, JsonData.GetResult, JsonData.Elements, Child, Kids, ArgsText, Spells, TreeSpells, Good, Tells, Print,
      HasBackslash;
    var cap := line.value;
    if item.render == UnknownText && !item.canDisplay {
      FramesBare();
      BareMeets("args cannot be displayed on Ledger", NoBackslash);
      NoBackslashIn("args cannot be displayed on Ledger");
      NoneSpelled("args cannot be displayed on Ledger", full);
    } else {
      CapArgs(j, item.token, cap);
      var args, v := j.GetResult(item.token, "args").value, Get(cap, "args").value;
      NodeKids(j, args, v);
      GoodGet(cap, "args");
      forall i | 0 <= i < |Kids(v)| ensures Good(Kids(v)[i]) { GoodKid(v, i); }
      if item.render == RotateText {
        RotateSpells(j, j.Elements(args)[0], Kids(v)[0], full);
      } else if j.Elements(args) == [] {
        NoArgsSpelled(full);
      } else {
        ArgsSpell(j, j.Elements(args), Kids(v), 0, full);
        assert Kids(v)[0..] == Kids(v);
      }
    }
  }

  lemma {:induction false} NoArgsSpelled(full: bool)
    ensures !Spells("no args", full)
  {
    FramesBare();
    BareMeets("no args", NoBackslash);
    NoneSpelled("no args", full);
  }

  /** The account of a rotation, between quotes. */
  lemma {:induction false} RotateSpells(j: Json, a: nat, v: Syntax.Value, full: bool)
    requires Tells(j, a, v) && Good(v)
    ensures Spells("\"" + j.Span(a) + "\"", full) <==> TreeSpells(v, full)
  {
    hide Spells, TreeSpells, Good, Print, Breaks;
    ArgIsText(j, a, v);
    CommaSpells([], full);
    TextSpells(v, [], full);
    QuotedSpells(j.Span(a), [], full);
    assert Quoted(j.Span(a), []) == "\"" + j.Span(a) + "\"";
    NothingSpelled(full);
  }
}
