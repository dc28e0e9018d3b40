/** Hash maps that accumulate: each addition is folded into the entry of its key. */
module Grid {
  datatype Item<K, V> = Item(key: K, value: V)

  /** How a map's values accumulate. */
  datatype Adder<!V> = Adder(zero: V, plus: (V, V) -> V)

  function At<K, V>(a: Adder<V>, g: map<K, V>, k: K): V {
    if k in g then g[k] else a.zero
  }

  function AddItem<K, V>(a: Adder<V>, g: map<K, V>, x: Item<K, V>): map<K, V> {
    g[x.key := a.plus(At(a, g, x.key), x.value)]
  }

  function AddAll<K, V>(a: Adder<V>, g: map<K, V>, items: seq<Item<K, V>>): map<K, V> {
    if items == [] then g else AddItem(a, AddAll(a, g, items[..|items| - 1]), items[|items| - 1])
  }

  /** The values with one key, accumulated from `from` in order. */
  function Total<K(==), V>(a: Adder<V>, from: V, items: seq<Item<K, V>>, k: K): V {
    if items == [] then from
    else
      var rest, x := Total(a, from, items[..|items| - 1], k), items[|items| - 1];
      if x.key == k then a.plus(rest, x.value) else rest
  }

  predicate Mentions<K(==), V>(items: seq<Item<K, V>>, k: K) {
    exists i :: 0 <= i < |items| && items[i].key == k
  }

  lemma MentionsSnoc<K, V>(items: seq<Item<K, V>>, x: Item<K, V>, k: K)
    ensures Mentions(items + [x], k) <==> Mentions(items, k) || x.key == k
  {
    if Mentions(items, k) {
      var i :| 0 <= i < |items| && items[i].key == k;
      assert (items + [x])[i] == items[i];
    }
    if x.key == k {
      assert (items + [x])[|items|] == x;
    }
  }

  /** What the map holds after any additions: for each key its total, and no other keys. */
  lemma {:induction false} AddAllAt<K, V>(a: Adder<V>, g: map<K, V>, items: seq<Item<K, V>>, k: K)
    ensures k in AddAll(a, g, items) <==> k in g || Mentions(items, k)
    ensures At(a, AddAll(a, g, items), k) == Total(a, At(a, g, k), items, k)
    decreases |items|
  {
    if items != [] {
      var n := |items| - 1;
      AddAllAt(a, g, items[..n], k);
      assert items == items[..n] + [items[n]];
      MentionsSnoc(items[..n], items[n], k);
    }
  }

  lemma {:induction false} AddAllConcat<K, V>(a: Adder<V>, g: map<K, V>, x: seq<Item<K, V>>, y: seq<Item<K, V>>)
    ensures AddAll(a, g, x + y) == AddAll(a, AddAll(a, g, x), y)
    decreases |y|
  {
    if y == [] {
      assert x + y == x;
    } else {
      var n := |y| - 1;
      assert (x + y)[..|x + y| - 1] == x + y[..n];
      AddAllConcat(a, g, x, y[..n]);
    }
  }

  lemma AddAllSnoc<K, V>(a: Adder<V>, g: map<K, V>, items: seq<Item<K, V>>, x: Item<K, V>)
    ensures AddAll(a, g, items + [x]) == AddItem(a, AddAll(a, g, items), x)
  {
    assert (items + [x])[..|items|] == items;
  }

  lemma AddAllGrows<K, V>(a: Adder<V>, g: map<K, V>, x: seq<Item<K, V>>, y: seq<Item<K, V>>)
    ensures AddAll(a, g, x).Keys <= AddAll(a, g, x + y).Keys
    ensures |AddAll(a, g, x).Keys| <= |AddAll(a, g, x + y).Keys|
  {
    AddAllConcat(a, g, x, y);
    forall k | k in AddAll(a, g, x) ensures k in AddAll(a, g, x + y) {
      AddAllAt(a, AddAll(a, g, x), y, k);
    }
    Cardinality(AddAll(a, g, x).Keys, AddAll(a, g, x + y).Keys);
  }

  lemma AddItemSize<K, V>(a: Adder<V>, g: map<K, V>, x: Item<K, V>)
    ensures |AddItem(a, g, x)| == |AddItem(a, g, x).Keys| == |g| + if x.key in g then 0 else 1
  {
    assert AddItem(a, g, x).Keys == g.Keys + {x.key};
  }

  lemma {:induction false} Cardinality<K>(s: set<K>, t: set<K>)
    requires s <= t
    ensures |s| <= |t|
  {
    if s != {} {
      var x :| x in s;
      Cardinality(s - {x}, t - {x});
    }
  }
}
