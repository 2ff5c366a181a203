/** Nodes of a document by their tokens: what the lookups find, in terms of the values of the syntax tree. */
module Nodes {
  import opened Base
  import opened Errors
  import opened Syntax
  import opened JsmnSpec
  import opened Json
  import opened Lookups
  import Recognition

  /** Token `at` is the first token of the value `v`. */
  ghost predicate Node(j: Json, at: nat, v: Value) {
    exists pos: nat :: Located(j, Ref(v, at, pos))
  }

  /** Token `at` has the kind and the text of `v`. */
  predicate Tells(j: Json, at: nat, v: Value) {
    at < |j.tokens| && j.Tok(at).kind == KindOf(v) && j.Span(at) == Text(v) && j.Len(at) == |Text(v)| &&
    j.Tok(at).end - j.Tok(at).start == |Text(v)|
  }

  /** The value of the member `key` of an object. */
  function Get(v: Value, key: Bytes): Option<Value> { Child(v, Down.Key(key)) }

  function ValuesOf(es: seq<Elem>): (vs: seq<Value>)
    ensures |vs| == |es| && forall i | 0 <= i < |es| :: vs[i] == es[i].value
  {
    seq(|es|, i requires 0 <= i < |es| => es[i].value)
  }

  function KeysAndValues(ms: seq<Syntax.Member>): seq<Value> {
    if ms == [] then [] else [Str(ms[0].key), ms[0].value] + KeysAndValues(ms[1..])
  }

  /** What the element walks go through: the elements of an array, the keys and values of an object. */
  function Kids(v: Value): seq<Value> {
    match v
    case Arr(_, elems) => ValuesOf(elems)
    case Obj(_, members) => KeysAndValues(members)
    case _ => []
  }

  lemma {:induction false} NodePos(j: Json, at: nat, v: Value) returns (pos: nat)
    requires Node(j, at, v)
    ensures Located(j, Ref(v, at, pos))
  {
    hide Located;
    pos :| Located(j, Ref(v, at, pos));
  }

  lemma {:induction false} NodeTells(j: Json, at: nat, v: Value)
    requires Node(j, at, v)
    ensures Tells(j, at, v) && (j.IsNull(at) <==> Text(v) == "null")
  {
    hide Located, Print;
    var pos := NodePos(j, at, v);
    NodeText(j, Ref(v, at, pos));
  }

  lemma {:induction false} MakeNode(j: Json, r: Ref)
    requires Located(j, r)
    ensures Node(j, r.at, r.v)
  {
    hide Located;
  }

  lemma {:induction false} NodeGet(j: Json, at: nat, v: Value, key: Bytes)
    requires Node(j, at, v) && v.Obj?
    ensures match Get(v, key)
            case None => j.GetResult(at, key) == Err(NoData)
            case Some(w) => j.GetResult(at, key).Ok? && Node(j, j.GetResult(at, key).value, w)
  {
    hide Located, Fields, Named, JsonData.GetResult;
    var pos := NodePos(j, at, v);
    var r := Ref(v, at, pos);
    FieldIsNamed(v.members, at + 1, pos + 1, key);
    GetIsMember(j, r, key);
    if Get(v, key).Some? { MakeNode(j, Lookups.Member(r, key).value); }
  }

  lemma {:induction false} NodeElems(j: Json, at: nat, v: Value)
    requires Node(j, at, v) && v.Arr?
    ensures |j.Elements(at)| == |v.elems|
    ensures forall i | 0 <= i < |v.elems| :: Node(j, j.Elements(at)[i], v.elems[i].value)
  {
    hide Located, ElemRefs, JsonData.Elements, Node;
    var pos := NodePos(j, at, v);
    var r := Ref(v, at, pos);
    ArrayWalk(j, r);
    ElemIsNth(v.elems, at + 1, pos + 1, 0);
    forall i | 0 <= i < |v.elems| ensures Node(j, j.Elements(at)[i], v.elems[i].value) {
      ElemIsNth(v.elems, at + 1, pos + 1, i);
      assert ElemsOf(r)[i] in ElemsOf(r);
      MakeNode(j, ElemsOf(r)[i]);
    }
  }

  lemma {:induction false} NodeLeaf(j: Json, at: nat, v: Value)
    requires Node(j, at, v) && (v.Str? || v.Prim?)
    ensures j.Elements(at) == [] && j.Keys(at) == []
  {
    hide Located;
    var pos := NodePos(j, at, v);
    LeafWalk(j, Ref(v, at, pos));
  }

  lemma {:induction false} KeyTells(j: Json, f: Field)
    requires FieldLocated(j, f)
    ensures Tells(j, f.keyAt, Str(f.key))
  {
    hide Located;
  }

  /** The keys and values of located members. */
  lemma {:induction false} KidsOfFields(j: Json, ms: seq<Syntax.Member>, at: nat, pos: nat)
    requires forall f | f in Fields(ms, at, pos) :: FieldLocated(j, f)
    ensures |KidAts(Fields(ms, at, pos))| == |KeysAndValues(ms)| == 2 * |ms|
    ensures forall i | 0 <= i < |KeysAndValues(ms)| :: Tells(j, KidAts(Fields(ms, at, pos))[i], KeysAndValues(ms)[i])
    decreases |ms|
  {
    hide FieldLocated, Tells;
    if ms != [] {
      var p := pos + LenToValue(ms[0]);
      var f := Field(ms[0].key, at, Ref(ms[0].value, at + 1, p));
      var next, q := at + 1 + Recognition.Size(ms[0].value), p + Len(ms[0].value) + |ms[0].trail| + 1;
      var rest := Fields(ms[1..], next, q);
      assert Fields(ms, at, pos) == [f] + rest && ([f] + rest)[1..] == rest;
      assert f in Fields(ms, at, pos);
      KeyTells(j, f);
      ValueTells(j, f);
      KidsOfFields(j, ms[1..], next, q);
    }
  }

  lemma {:induction false} ValueTells(j: Json, f: Field)
    requires FieldLocated(j, f)
    ensures Tells(j, f.value.at, f.value.v)
  {
    hide Located, Tells;
    MakeNode(j, f.value);
    NodeTells(j, f.value.at, f.value.v);
  }

  /** The element walks find the node's kids in order. */
  lemma {:induction false} NodeKids(j: Json, at: nat, v: Value)
    requires Node(j, at, v)
    ensures |j.Elements(at)| == |Kids(v)| && forall i | 0 <= i < |Kids(v)| :: Tells(j, j.Elements(at)[i], Kids(v)[i])
    ensures v.Obj? ==> |Kids(v)| == 2 * |v.members|
  {
    hide Located, Fields, JsonData.Elements, Tells, Node, KeysAndValues, FieldLocated;
    match v
    case Arr(_, elems) =>
      NodeElems(j, at, v);
      forall i | 0 <= i < |elems| ensures Tells(j, j.Elements(at)[i], elems[i].value) {
        NodeTells(j, j.Elements(at)[i], elems[i].value);
      }
    case Obj(_, members) =>
      var pos := NodePos(j, at, v);
      MixedWalk(j, Ref(v, at, pos));
      ObjectWalk(j, Ref(v, at, pos));
      KidsOfFields(j, members, at + 1, pos + 1);
    case Str(_) => NodeLeaf(j, at, v);
    case Prim(_) => NodeLeaf(j, at, v);
  }

  /** The keys of an object node, and the values beside them. */
  lemma {:induction false} NodeKeys(j: Json, at: nat, v: Value)
    requires Node(j, at, v) && v.Obj?
    ensures |j.Keys(at)| == |v.members|
    ensures forall i | 0 <= i < |v.members| ::
              Tells(j, j.Keys(at)[i], Str(v.members[i].key)) && Node(j, j.Keys(at)[i] + 1, v.members[i].value)
  {
    hide Located, Fields, JsonData.Keys, Tells, Node, FieldLocated;
    var pos := NodePos(j, at, v);
    ObjectWalk(j, Ref(v, at, pos));
    FieldsAre(v.members, at + 1, pos + 1);
    var fs := FieldsOf(Ref(v, at, pos));
    forall i | 0 <= i < |v.members|
      ensures Tells(j, j.Keys(at)[i], Str(v.members[i].key)) && Node(j, j.Keys(at)[i] + 1, v.members[i].value)
    {
      assert fs[i] in fs;
      KeyTells(j, fs[i]);
      ValueAfterKey(j, fs[i]);
    }
  }

  lemma {:induction false} ValueAfterKey(j: Json, f: Field)
    requires FieldLocated(j, f)
    ensures Node(j, f.keyAt + 1, f.value.v)
  {
    hide Located;
    MakeNode(j, f.value);
  }

  lemma {:induction false} FieldsAre(ms: seq<Syntax.Member>, at: nat, pos: nat)
    ensures |Fields(ms, at, pos)| == |ms|
    ensures forall i | 0 <= i < |ms| ::
              Fields(ms, at, pos)[i].key == ms[i].key && Fields(ms, at, pos)[i].value.v == ms[i].value
    decreases |ms|
  {
    if ms != [] {
      var p := pos + LenToValue(ms[0]);
      FieldsAre(ms[1..], at + 1 + Recognition.Size(ms[0].value), p + Len(ms[0].value) + |ms[0].trail| + 1);
    }
  }
}
