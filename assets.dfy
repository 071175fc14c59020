/**
  Asset condensation (`condenseAssets` in lib/main.js): assets that share an
  `entity_compare_string` are merged into one row whose `minvalue` and
  `maxvalue` are the sums over the group.
*/
module Assets {

  /** One asset row; the condensed output uses the same three fields. */
  datatype Asset = Asset(compareString: string, minValue: int, maxValue: int)

  /** The two summed fields. */
  datatype Field = MinValue | MaxValue

  /** The running totals kept per key in the dictionary `assetHash`. */
  datatype Totals = Totals(minValue: int, maxValue: int)

  function FieldOf(a: Asset, f: Field): int {
    match f
    case MinValue => a.minValue
    case MaxValue => a.maxValue
  }

  /** What asset `a` adds to the total of key `k`. */
  function Contribution(a: Asset, k: string, f: Field): int {
    if a.compareString == k then FieldOf(a, f) else 0
  }

  /** The sum of field `f` over all assets whose key is `k`. */
  function Sum(assets: seq<Asset>, k: string, f: Field): int
    decreases |assets|
  {
    if |assets| == 0 then 0
    else Sum(assets[..|assets| - 1], k, f) + Contribution(assets[|assets| - 1], k, f)
  }

  /** The distinct keys of `assets`, in the order they first occur. */
  function Keys(assets: seq<Asset>): seq<string>
    decreases |assets|
  {
    if |assets| == 0 then []
    else
      var earlier := Keys(assets[..|assets| - 1]);
      var k := assets[|assets| - 1].compareString;
      if k in earlier then earlier else earlier + [k]
  }

  /** `k` is the key of some asset of `assets`. */
  ghost predicate HasKey(assets: seq<Asset>, k: string) {
    exists i :: 0 <= i < |assets| && assets[i].compareString == k
  }

  /** The specification of condensation: one row per distinct key, carrying both sums. */
  function Condensed(assets: seq<Asset>): seq<Asset> {
    var keys := Keys(assets);
    seq(|keys|, j requires 0 <= j < |keys| =>
      Asset(keys[j], Sum(assets, keys[j], MinValue), Sum(assets, keys[j], MaxValue)))
  }

  /** `s` has no repeated element. */
  predicate Distinct(s: seq<string>) {
    forall i, j :: 0 <= i < j < |s| ==> s[i] != s[j]
  }

  // ---------------------------------------------------------------- lemmas

  /** The keys are pairwise distinct and are exactly the keys of the input. */
  lemma {:induction false} KeysExact(assets: seq<Asset>)
    ensures Distinct(Keys(assets))
    ensures forall k :: k in Keys(assets) <==> HasKey(assets, k)
  {
    if |assets| > 0 {
      var init := assets[..|assets| - 1];
      KeysExact(init);
      forall k ensures HasKey(assets, k) <==> HasKey(init, k) || k == assets[|assets| - 1].compareString {
        if HasKey(assets, k) {
          var i :| 0 <= i < |assets| && assets[i].compareString == k;
          if i < |assets| - 1 { assert init[i] == assets[i]; }
        }
        if HasKey(init, k) {
          var i :| 0 <= i < |init| && init[i].compareString == k;
          assert assets[i] == init[i];
        }
      }
    }
  }

  /** A key that no asset carries has zero totals. */
  lemma {:induction false} SumAbsent(assets: seq<Asset>, k: string, f: Field)
    requires !HasKey(assets, k)
    ensures Sum(assets, k, f) == 0
  {
    if |assets| > 0 {
      var init := assets[..|assets| - 1];
      assert !HasKey(init, k) by {
        forall i | 0 <= i < |init| ensures init[i].compareString != k {
          assert init[i] == assets[i];
        }
      }
      SumAbsent(init, k, f);
    }
  }

  /** Sums split over concatenation. */
  lemma {:induction false} SumAppend(s: seq<Asset>, t: seq<Asset>, k: string, f: Field)
    ensures Sum(s + t, k, f) == Sum(s, k, f) + Sum(t, k, f)
    decreases |t|
  {
    if |t| > 0 {
      var t' := t[..|t| - 1];
      assert (s + t)[..|s + t| - 1] == s + t';
      assert (s + t)[|s + t| - 1] == t[|t| - 1];
      SumAppend(s, t', k, f);
    } else {
      assert s + t == s;
    }
  }

  /** Taking one asset out of a sequence takes its contribution out of every sum. */
  lemma SumRemove(t: seq<Asset>, j: nat, k: string, f: Field)
    requires j < |t|
    ensures Sum(t, k, f) == Sum(t[..j] + t[j + 1..], k, f) + Contribution(t[j], k, f)
  {
    var a, b := t[..j], t[j + 1..];
    assert t == (a + [t[j]]) + b;
    SumAppend(a + [t[j]], b, k, f);
    assert (a + [t[j]])[..|a|] == a;
    SumAppend(a, b, k, f);
  }

  /** Taking one element out of a sequence takes it out of its multiset. */
  lemma MultisetRemove(t: seq<Asset>, j: nat)
    requires j < |t|
    ensures multiset(t[..j] + t[j + 1..]) == multiset(t) - multiset{t[j]}
  {
    assert t == t[..j] + [t[j]] + t[j + 1..];
  }

  /** Sums depend only on the multiset of assets, not on their order. */
  lemma {:induction false} SumPermutation(s: seq<Asset>, t: seq<Asset>, k: string, f: Field)
    requires multiset(s) == multiset(t)
    ensures Sum(s, k, f) == Sum(t, k, f)
    decreases |s|
  {
    if |s| == 0 {
      assert |t| == |multiset(t)| == 0;
    } else {
      var n := |s| - 1;
      assert s[n] in multiset(s);
      var j :| 0 <= j < |t| && t[j] == s[n];
      MultisetRemove(s, n);
      MultisetRemove(t, j);
      SumPermutation(s[..n] + s[n + 1..], t[..j] + t[j + 1..], k, f);
      SumRemove(s, n, k, f);
      SumRemove(t, j, k, f);
    }
  }

  /**
    The condensed rows have pairwise distinct keys, their key set is the
    input's, and every row of key `k` holds the sums over the assets of key `k`.
  */
  lemma CondensedSpec(assets: seq<Asset>)
    ensures var rows := Condensed(assets);
      && (forall i, j :: 0 <= i < j < |rows| ==> rows[i].compareString != rows[j].compareString)
      && (forall k :: (exists i :: 0 <= i < |rows| && rows[i].compareString == k) <==> HasKey(assets, k))
      && (forall i :: 0 <= i < |rows| ==>
            rows[i].minValue == Sum(assets, rows[i].compareString, MinValue) &&
            rows[i].maxValue == Sum(assets, rows[i].compareString, MaxValue))
  {
    KeysExact(assets);
    var rows := Condensed(assets);
    var keys := Keys(assets);
    forall k ensures (exists i :: 0 <= i < |rows| && rows[i].compareString == k) <==> HasKey(assets, k) {
      if HasKey(assets, k) {
        assert k in keys;
        var i :| 0 <= i < |keys| && keys[i] == k;
        assert rows[i].compareString == k;
      }
    }
  }

  /** A row belongs to the condensation exactly when its key occurs and it carries that key's sums. */
  lemma CondensedMember(assets: seq<Asset>, r: Asset)
    ensures r in Condensed(assets) <==>
      HasKey(assets, r.compareString) &&
      r.minValue == Sum(assets, r.compareString, MinValue) &&
      r.maxValue == Sum(assets, r.compareString, MaxValue)
  {
    KeysExact(assets);
    var keys := Keys(assets);
    if HasKey(assets, r.compareString) && r.minValue == Sum(assets, r.compareString, MinValue)
      && r.maxValue == Sum(assets, r.compareString, MaxValue)
    {
      var i :| 0 <= i < |keys| && keys[i] == r.compareString;
      assert Condensed(assets)[i] == r;
    }
  }

  /** Reordering the input yields the same set of condensed rows. */
  lemma CondensedOrderIndependent(s: seq<Asset>, t: seq<Asset>)
    requires multiset(s) == multiset(t)
    ensures (set r | r in Condensed(s)) == (set r | r in Condensed(t))
  {
    forall k ensures HasKey(s, k) <==> HasKey(t, k) {
      if HasKey(s, k) {
        var i :| 0 <= i < |s| && s[i].compareString == k;
        assert s[i] in multiset(t);
      }
      if HasKey(t, k) {
        var i :| 0 <= i < |t| && t[i].compareString == k;
        assert t[i] in multiset(s);
      }
    }
    forall r ensures r in Condensed(s) <==> r in Condensed(t) {
      CondensedMember(s, r);
      CondensedMember(t, r);
      SumPermutation(s, t, r.compareString, MinValue);
      SumPermutation(s, t, r.compareString, MaxValue);
    }
  }

  /** Two equal assets under one key merge into a single row with doubled values. */
  lemma DuplicatesMerge(k: string)
    ensures Condensed([Asset(k, 5, 10), Asset(k, 5, 10)]) == [Asset(k, 10, 20)]
  {
    var s := [Asset(k, 5, 10), Asset(k, 5, 10)];
    assert s[..1] == [Asset(k, 5, 10)];
    assert s[..1][..0] == [];
    assert Keys(s[..1]) == [k];
    assert Keys(s) == [k];
    assert Sum(s[..1], k, MinValue) == 5;
    assert Sum(s[..1], k, MaxValue) == 10;
    assert Sum(s, k, MinValue) == 10 && Sum(s, k, MaxValue) == 20;
  }

  // ----------------------------------------------------------- the method

  /**
    condenseAssets: first fills the dictionary `assetHash` (here `hash`, with
    `order` recording the order in which its keys were inserted), then pushes
    one row per key into `ret`.
  */
  method Condense(assets: seq<Asset>) returns (ret: seq<Asset>)
    ensures ret == Condensed(assets)
  {
    var hash: map<string, Totals> := map[];
    var order: seq<string> := [];
    for i := 0 to |assets|
      invariant order == Keys(assets[..i])
      invariant forall k :: k in hash <==> k in order
      invariant forall k :: k in hash ==>
        hash[k] == Totals(Sum(assets[..i], k, MinValue), Sum(assets[..i], k, MaxValue))
    {
      var asset := assets[i];
      assert assets[..i + 1][..i] == assets[..i];
      if asset.compareString !in hash {
        KeysExact(assets[..i]);
        SumAbsent(assets[..i], asset.compareString, MinValue);
        SumAbsent(assets[..i], asset.compareString, MaxValue);
        hash := hash[asset.compareString := Totals(asset.minValue, asset.maxValue)];
        order := order + [asset.compareString];
      } else {
        var t := hash[asset.compareString];
        hash := hash[asset.compareString :=
          Totals(t.minValue + asset.minValue, t.maxValue + asset.maxValue)];
      }
    }
    assert assets[..|assets|] == assets;
    ret := [];
    for j := 0 to |order|
      invariant |ret| == j
      invariant forall t :: 0 <= t < j ==> ret[t] == Condensed(assets)[t]
    {
      var key := order[j];
      ret := ret + [Asset(key, hash[key].minValue, hash[key].maxValue)];
    }
  }
}
