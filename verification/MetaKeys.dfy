/** What a recognised `meta` holds: every lookup in it that follows the checks succeeds. */
module MetaKeys {
  import opened Base
  import opened Errors
  import opened Syntax
  import opened Json
  import opened Lookups
  import opened Nodes
  import opened ItemSpec
  import opened ItemLookups
  import opened Review
  import opened ReviewProof
  import R = RenderSpec
  import Integrity

  predicate Distinct(names: seq<Bytes>) { forall a, b | 0 <= a < b < |names| :: names[a] != names[b] }

  /** Recognised names are distinct and, as a set, a prefix of the six keywords. */
  lemma {:induction false} MetaNamesPrefix(names: seq<Bytes>)
    ensures MetaNames(names) <==>
              && |names| <= 6 && Distinct(names)
              && ItemLookups.Members(names) == ItemLookups.Members(META_KEYWORDS[..|names|])
  {
    if |names| <= 6 && Distinct(names) {
      KeywordsDistinct();
      DistinctCount(names);
      DistinctCount(META_KEYWORDS[..|names|]);
      if MetaNames(names) { SameSet(ItemLookups.Members(names), ItemLookups.Members(META_KEYWORDS[..|names|])); }
      if ItemLookups.Members(names) == ItemLookups.Members(META_KEYWORDS[..|names|]) {
        forall n | n in names ensures n in META_KEYWORDS[..|names|] { assert n in ItemLookups.Members(names); }
      }
    }
  }

  lemma {:induction false} DistinctCounts(names: seq<Bytes>)
    ensures Distinct(names) <==> forall n :: multiset(names)[n] <= 1
    decreases |names|
  {
    if names != [] {
      var front, last := names[..|names| - 1], names[|names| - 1];
      DistinctCounts(front);
      assert names == front + [last] && multiset(names) == multiset(front) + multiset{last};
      if last in front {
        var i :| 0 <= i < |front| && front[i] == last;
        assert names[i] == names[|names| - 1] && multiset(names)[last] >= 2;
      } else {
        assert multiset(front)[last] == 0;
        assert forall i | 0 <= i < |front| :: front[i] == names[i];
        assert Distinct(front) <==> Distinct(names);
        assert forall n :: multiset(names)[n] == multiset(front)[n] + (if n == last then 1 else 0);
        if forall n :: multiset(names)[n] <= 1 {
          forall n ensures multiset(front)[n] <= 1 { assert multiset(names)[n] <= 1; }
        }
      }
    }
  }

  /** Their order does not matter. */
  lemma {:induction false} MetaOrder(a: seq<Bytes>, b: seq<Bytes>)
    requires multiset(a) == multiset(b)
    ensures MetaNames(a) <==> MetaNames(b)
  {
    hide MetaNames, Distinct;
    DistinctCounts(a);
    DistinctCounts(b);
    assert |multiset(a)| == |a| && |multiset(b)| == |b|;
    forall n ensures n in a <==> n in b { assert n in a <==> n in multiset(a); assert n in b <==> n in multiset(b); }
    MetaNamesPrefix(a);
    MetaNamesPrefix(b);
  }

  /** With a sender, all six are there. */
  lemma {:induction false} AllSix(names: seq<Bytes>)
    requires MetaNames(names) && "sender" in names
    ensures |names| == 6 && forall k | k in META_KEYWORDS :: k in names
  {
    KeywordsDistinct();
    assert META_KEYWORDS[5] == "sender";
    MetaNamesPrefix(names);
    assert META_KEYWORDS[..6] == META_KEYWORDS;
    forall k | k in META_KEYWORDS && |names| == 6 ensures k in names {
      assert k in ItemLookups.Members(META_KEYWORDS[..6]);
    }
  }

  lemma {:induction false} NamedKey(ms: seq<Syntax.Member>, key: Bytes)
    ensures key in Integrity.KeyNames(ms) <==> Named(ms, key).Some?
    decreases |ms|
  {
    var names := Integrity.KeyNames(ms);
    if ms != [] {
      NamedKey(ms[1..], key);
      assert names == [ms[0].key] + Integrity.KeyNames(ms[1..]);
    }
  }

  /** A recognised `meta` that has a sender: each keyword is found. */
  ghost predicate HasAllSix(j: Json, at: nat, meta: Value) {
    Node(j, at, meta) && meta.Obj? && forall k | k in META_KEYWORDS :: Get(meta, k).Some? && j.GetResult(at, k).Ok?
  }

  lemma {:induction false} RecognisedHasAll(j: Json, root: Value)
    requires Node(j, 0, root) && root.Obj? && ValidateMeta(j).Ok? &&
             j.GetResult(j.GetResult(0, "meta").value, "sender").Ok?
    ensures Get(root, "meta").Some? && HasAllSix(j, j.GetResult(0, "meta").value, Get(root, "meta").value)
  {
    hide Node, JsonData.GetResult, ValidateMeta, Named, MetaNames;
    RecognisedIs(j, root);
    MetaIsObject(root);
    var at, meta := j.GetResult(0, "meta").value, Get(root, "meta").value;
    NodeGet(j, at, meta, "sender");
    NamedKey(meta.members, "sender");
    AllSix(Integrity.KeyNames(meta.members));
    forall k | k in META_KEYWORDS ensures Get(meta, k).Some? && j.GetResult(at, k).Ok? {
      NamedKey(meta.members, k);
      NodeGet(j, at, meta, k);
    }
  }

  /**
   The lookups of the chain, the gas and the fee cannot fail: after the checks on `meta`, the only refusals are
   those of a value.
   */
  lemma {:induction false} MetaLookups(j: Json, root: Value)
    requires Node(j, 0, root) && root.Obj?
    ensures MetaItems(j).failure in {None, Some(BadMeta), Some(BadCharacters)}
    ensures MetaItems(j).failure == None && ValidateMeta(j).Ok? ==>
              && Get(root, "meta").Some? && HasAllSix(j, j.GetResult(0, "meta").value, Get(root, "meta").value)
              && R.GasTokens(j, j.GetResult(0, "meta").value).Ok?
  {
    hide Node, JsonData.GetResult, JsonData.IsNull, ValidateMeta, ShownUnescaped, IntegerIfGiven, HasAllSix;
    if ValidateMeta(j).Ok? {
      ValidGiven(j);
      if j.GetResult(j.GetResult(0, "meta").value, "sender").Ok? {
        RecognisedHasAll(j, root);
        KeywordsFound(j, j.GetResult(0, "meta").value, Get(root, "meta").value);
      }
    }
  }

  lemma {:induction false} ValidGiven(j: Json)
    requires ValidateMeta(j).Ok?
    ensures MetaGiven(j) == Some(j.GetResult(0, "meta").value) && j.GetResult(0, "meta").Ok?
  {
    hide JsonData.GetResult, MetaNames, JsonData.Keys;
  }

  lemma {:induction false} KeywordsFound(j: Json, at: nat, meta: Value)
    requires HasAllSix(j, at, meta)
    ensures j.GetResult(at, "chainId").Ok? && j.GetResult(at, "gasLimit").Ok? && j.GetResult(at, "gasPrice").Ok?
  {
    hide Node, JsonData.GetResult, Child;
    assert META_KEYWORDS[2] == "gasLimit" && META_KEYWORDS[3] == "chainId" && META_KEYWORDS[4] == "gasPrice";
  }
}
