/** Values numbered on first sight, and cells stored under a bucket and such a number. */
module Interning {
  import opened Grid

  /** `index` numbers each distinct value by its place in `values`. */
  ghost predicate Interned<S(!new)>(values: seq<S>, index: map<S, nat>) {
    && (forall s :: s in index ==> index[s] < |values| && values[index[s]] == s)
    && (forall i :: 0 <= i < |values| ==> values[i] in index && index[values[i]] == i)
  }

  lemma InternNext<S(!new)>(values: seq<S>, index: map<S, nat>, s: S)
    requires Interned(values, index) && s !in index
    ensures Interned(values + [s], index[s := |values|])
  {
  }

  ghost predicate Numbered<V>(count: nat, cells: map<(int, nat), V>) {
    forall p :: p in cells ==> p.1 < count
  }

  /** The cells as their readers know them: by bucket and value. */
  ghost function View<S(!new), V>(values: seq<S>, index: map<S, nat>, cells: map<(int, nat), V>): map<(int, S), V>
    requires Interned(values, index) && Numbered(|values|, cells)
  {
    map p | p in cells :: (p.0, values[p.1]) := cells[p]
  }

  lemma ViewAt<S(!new), V>(values: seq<S>, index: map<S, nat>, cells: map<(int, nat), V>, b: int, i: nat)
    requires Interned(values, index) && Numbered(|values|, cells) && i < |values|
    ensures (b, values[i]) in View(values, index, cells) <==> (b, i) in cells
    ensures (b, i) in cells ==> View(values, index, cells)[(b, values[i])] == cells[(b, i)]
  {
  }

  lemma ViewHas<S(!new), V>(values: seq<S>, index: map<S, nat>, cells: map<(int, nat), V>, k: (int, S))
    requires Interned(values, index) && Numbered(|values|, cells)
    ensures k in View(values, index, cells) <==> k.1 in index && (k.0, index[k.1]) in cells
    ensures k in View(values, index, cells) ==> View(values, index, cells)[k] == cells[(k.0, index[k.1])]
  {
    if k.1 in index {
      ViewAt(values, index, cells, k.0, index[k.1]);
      assert k == (k.0, values[index[k.1]]);
    }
  }

  lemma ViewIntern<S(!new), V>(values: seq<S>, index: map<S, nat>, cells: map<(int, nat), V>, s: S)
    requires Interned(values, index) && Numbered(|values|, cells) && s !in index
    ensures Interned(values + [s], index[s := |values|]) && Numbered(|values| + 1, cells)
    ensures View(values + [s], index[s := |values|], cells) == View(values, index, cells)
  {
    InternNext(values, index, s);
  }

  lemma ViewNone<S(!new), V>(values: seq<S>, index: map<S, nat>, cells: map<(int, nat), V>)
    requires Interned(values, index) && cells == map[]
    ensures View(values, index, cells) == map[]
  {
  }

  lemma ViewPut<S(!new), V>(values: seq<S>, index: map<S, nat>, cells: map<(int, nat), V>, p: (int, nat), v: V)
    requires Interned(values, index) && Numbered(|values|, cells) && p.1 < |values|
    ensures View(values, index, cells[p := v]) == View(values, index, cells)[(p.0, values[p.1]) := v]
  {
    hide View;
    var cells', key := cells[p := v], (p.0, values[p.1]);
    var view', want := View(values, index, cells'), View(values, index, cells)[key := v];
    forall k ensures (k in view' <==> k in want) && (k in want ==> view'[k] == want[k]) {
      ViewHas(values, index, cells, k);
      ViewHas(values, index, cells', k);
    }
  }

  lemma ViewAdd<S(!new), V>(a: Adder<V>, values: seq<S>, index: map<S, nat>, cells: map<(int, nat), V>, b: int,
                            i: nat, v: V)
    requires Interned(values, index) && Numbered(|values|, cells) && i < |values|
    ensures View(values, index, cells[(b, i) := a.plus(At(a, cells, (b, i)), v)]) ==
            AddItem(a, View(values, index, cells), Item((b, values[i]), v))
  {
    ViewAt(values, index, cells, b, i);
    ViewPut(values, index, cells, (b, i), a.plus(At(a, cells, (b, i)), v));
  }

  lemma {:induction false} ViewSize<S(!new), V>(values: seq<S>, index: map<S, nat>, cells: map<(int, nat), V>)
    requires Interned(values, index) && Numbered(|values|, cells)
    ensures |View(values, index, cells).Keys| == |cells.Keys|
    decreases |cells|
  {
    hide View;
    if cells != map[] {
      var p :| p in cells;
      var rest, k := cells - {p}, (p.0, values[p.1]);
      ViewSize(values, index, rest);
      assert cells == rest[p := cells[p]] && cells.Keys == rest.Keys + {p};
      ViewPut(values, index, rest, p, cells[p]);
      ViewAt(values, index, rest, p.0, p.1);
      assert View(values, index, cells).Keys == View(values, index, rest).Keys + {k};
    } else {
      assert cells.Keys == {};
      ViewNone(values, index, cells);
    }
  }
}
