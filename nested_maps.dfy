/** Later-wins merging of string-keyed objects. Both core files use it:
    the router builder for `paths[path][method]` and `components[kind][name]`,
    and the aggregator for `paths[path][method]` and `components.schemas`. */
module NestedMaps {

  /** A two-level object such as `paths[path][method]`. */
  type NestedMap<V> = map<string, map<string, V>>

  /** The object under `k`, or the empty object when there is none (`m[k] || {}`). */
  function Inner<V>(m: NestedMap<V>, k: string): map<string, V> {
    if k in m then m[k] else map[]
  }

  /** `m[k][k2]` exists. */
  predicate Defines<V>(m: NestedMap<V>, k: string, k2: string) {
    k in m && k2 in m[k]
  }

  /** Merges `incoming` into `acc` one level deep: every outer key of either
      survives, and under a shared outer key the inner entries of `incoming`
      replace those of `acc` with the same inner key (see MergeAt). */
  function MergeNested<V>(acc: NestedMap<V>, incoming: NestedMap<V>): (r: NestedMap<V>)
    ensures r.Keys == acc.Keys + incoming.Keys
  {
    map k | k in acc.Keys + incoming.Keys :: Inner(acc, k) + Inner(incoming, k)
  }

  /** Entry by entry, a merge keeps what either side defines and prefers `incoming`. */
  lemma MergeAt<V>(acc: NestedMap<V>, incoming: NestedMap<V>, k: string, k2: string)
    ensures Defines(MergeNested(acc, incoming), k, k2) <==> Defines(acc, k, k2) || Defines(incoming, k, k2)
    ensures Defines(incoming, k, k2) ==> MergeNested(acc, incoming)[k][k2] == incoming[k][k2]
    ensures Defines(acc, k, k2) && !Defines(incoming, k, k2) ==> MergeNested(acc, incoming)[k][k2] == acc[k][k2]
  {
  }

  /** Merging a single entry `{k: {k2: x}}` sets that one slot and leaves every
      other slot, including the other inner keys under `k`, as it was. */
  lemma MergeOneSlot<V>(acc: NestedMap<V>, k: string, k2: string, x: V, key: string, inner: string)
    ensures var r := MergeNested(acc, map[k := map[k2 := x]]);
      && (key == k && inner == k2 ==> Defines(r, key, inner) && r[key][inner] == x)
      && (!(key == k && inner == k2) ==>
            (Defines(r, key, inner) <==> Defines(acc, key, inner)) &&
            (Defines(acc, key, inner) ==> r[key][inner] == acc[key][inner]))
  {
    MergeAt(acc, map[k := map[k2 := x]], key, inner);
  }

  /** Merging nothing changes nothing. */
  lemma MergeNothing<V>(m: NestedMap<V>)
    ensures MergeNested(m, map[]) == m
  {
    var r := MergeNested(m, map[]);
    forall x | x in r
      ensures r[x] == m[x]
    {
      assert m[x] + map[] == m[x];
    }
  }

  /** Merging the same object a second time changes nothing. */
  lemma MergeAgain<V>(acc: NestedMap<V>, m: NestedMap<V>)
    ensures MergeNested(MergeNested(acc, m), m) == MergeNested(acc, m)
  {
    var once := MergeNested(acc, m);
    var twice := MergeNested(once, m);
    forall x | x in twice
      ensures twice[x] == once[x]
    {
      assert Inner(once, x) == Inner(acc, x) + Inner(m, x);
      assert Inner(acc, x) + Inner(m, x) + Inner(m, x) == Inner(acc, x) + Inner(m, x);
    }
  }

  /** Merges the objects of `ms` into `init`, in order. */
  function FoldNested<V>(init: NestedMap<V>, ms: seq<NestedMap<V>>): NestedMap<V>
    decreases |ms|
  {
    if ms == [] then init else MergeNested(FoldNested(init, ms[..|ms| - 1]), ms[|ms| - 1])
  }

  /** An outer key survives the fold exactly when `init` or some merged object has it. */
  lemma {:induction false} FoldKeys<V>(init: NestedMap<V>, ms: seq<NestedMap<V>>, k: string)
    ensures k in FoldNested(init, ms) <==> k in init || exists i :: 0 <= i < |ms| && k in ms[i]
    decreases |ms|
  {
    if ms != [] {
      var n := |ms| - 1;
      var prev := ms[..n];
      assert FoldNested(init, ms) == MergeNested(FoldNested(init, prev), ms[n]);
      FoldKeys(init, prev, k);
      forall i | 0 <= i < n
        ensures prev[i] == ms[i]
      {
      }
    }
  }

  /** An entry `[k][k2]` survives the fold exactly when `init` or some merged object has it. */
  lemma {:induction false} FoldDefines<V>(init: NestedMap<V>, ms: seq<NestedMap<V>>, k: string, k2: string)
    ensures Defines(FoldNested(init, ms), k, k2) <==>
            Defines(init, k, k2) || exists i :: 0 <= i < |ms| && Defines(ms[i], k, k2)
    decreases |ms|
  {
    if ms != [] {
      var n := |ms| - 1;
      var prev := ms[..n];
      var before := FoldNested(init, prev);
      assert Defines(FoldNested(init, ms), k, k2) <==> Defines(before, k, k2) || Defines(ms[n], k, k2) by {
        assert FoldNested(init, ms) == MergeNested(before, ms[n]);
        MergeAt(before, ms[n], k, k2);
      }
      FoldDefines(init, prev, k, k2);
      forall i | 0 <= i < n
        ensures prev[i] == ms[i]
      {
      }
    }
  }

  /** The entry `[k][k2]` of the fold is the one of the last object that defines it. */
  lemma {:induction false} FoldLastWins<V>(init: NestedMap<V>, ms: seq<NestedMap<V>>, i: nat, k: string, k2: string)
    requires i < |ms| && Defines(ms[i], k, k2)
    requires forall j :: i < j < |ms| ==> !Defines(ms[j], k, k2)
    ensures Defines(FoldNested(init, ms), k, k2)
    ensures FoldNested(init, ms)[k][k2] == ms[i][k][k2]
    decreases |ms|
  {
    var n := |ms| - 1;
    var prev := ms[..n];
    var before := FoldNested(init, prev);
    var fold := FoldNested(init, ms);
    assert && (Defines(fold, k, k2) <==> Defines(before, k, k2) || Defines(ms[n], k, k2))
           && (Defines(ms[n], k, k2) ==> fold[k][k2] == ms[n][k][k2])
           && (Defines(before, k, k2) && !Defines(ms[n], k, k2) ==> fold[k][k2] == before[k][k2]) by {
      assert fold == MergeNested(before, ms[n]);
      MergeAt(before, ms[n], k, k2);
    }
    if i < n {
      assert !Defines(ms[n], k, k2);
      forall j | i < j < n
        ensures !Defines(prev[j], k, k2)
      {
        assert prev[j] == ms[j];
      }
      assert prev[i] == ms[i];
      FoldLastWins(init, prev, i, k, k2);
    }
  }

  /** Merges the objects of `ms` into `init`, in order, one level deep
      (`Object.assign({}, acc, m)` for each `m`). */
  function FoldFlat<V>(init: map<string, V>, ms: seq<map<string, V>>): map<string, V>
    decreases |ms|
  {
    if ms == [] then init else FoldFlat(init, ms[..|ms| - 1]) + ms[|ms| - 1]
  }

  /** A key survives the flat fold exactly when `init` or some merged object has it. */
  lemma {:induction false} FlatKeys<V>(init: map<string, V>, ms: seq<map<string, V>>, k: string)
    ensures k in FoldFlat(init, ms) <==> k in init || exists i :: 0 <= i < |ms| && k in ms[i]
    decreases |ms|
  {
    if ms != [] {
      var n := |ms| - 1;
      FlatKeys(init, ms[..n], k);
      if exists i :: 0 <= i < n && k in ms[..n][i] {
        var i :| 0 <= i < n && k in ms[..n][i];
        assert k in ms[i];
      }
      if exists i :: 0 <= i < |ms| && k in ms[i] {
        var i :| 0 <= i < |ms| && k in ms[i];
        if i < n {
          assert ms[..n][i] == ms[i];
        }
      }
    }
  }

  /** The value under `k` in the flat fold is the one of the last object that has `k`. */
  lemma {:induction false} FlatLastWins<V>(init: map<string, V>, ms: seq<map<string, V>>, i: nat, k: string)
    requires i < |ms| && k in ms[i]
    requires forall j :: i < j < |ms| ==> k !in ms[j]
    ensures k in FoldFlat(init, ms) && FoldFlat(init, ms)[k] == ms[i][k]
    decreases |ms|
  {
    var n := |ms| - 1;
    if i < n {
      forall j | i < j < n
        ensures k !in ms[..n][j]
      {
        assert ms[..n][j] == ms[j];
      }
      FlatLastWins(init, ms[..n], i, k);
    }
  }

  /** Merges `incoming` into `acc` entry by entry, as the source's
      `Object.entries(incoming).forEach(([k, v]) => acc[k] = {...(acc[k] || {}), ...v})`
      does. */
  method MergeEntries<V>(acc: NestedMap<V>, incoming: NestedMap<V>) returns (r: NestedMap<V>)
    ensures r == MergeNested(acc, incoming)
  {
    r := acc;
    var todo := incoming.Keys;
    while todo != {}
      invariant todo <= incoming.Keys
      invariant r.Keys == acc.Keys + (incoming.Keys - todo)
      invariant forall k :: k in r ==> r[k] == Inner(acc, k) + Taken(incoming, todo, k)
      decreases todo
    {
      var k :| k in todo;
      var next := r[k := Inner(r, k) + incoming[k]];
      forall j | j in next
        ensures next[j] == Inner(acc, j) + Taken(incoming, todo - {k}, j)
      {
        if j == k {
          assert Inner(r, k) == Inner(acc, k);
        } else {
          assert next[j] == r[j];
        }
      }
      r := next;
      todo := todo - {k};
    }
    MergedWhenAllTaken(acc, incoming, r);
  }

  /** Once nothing is left to take, the entry-by-entry result is the merge. */
  lemma MergedWhenAllTaken<V>(acc: NestedMap<V>, incoming: NestedMap<V>, r: NestedMap<V>)
    requires r.Keys == acc.Keys + incoming.Keys
    requires forall k :: k in r ==> r[k] == Inner(acc, k) + Taken(incoming, {}, k)
    ensures r == MergeNested(acc, incoming)
  {
    var m := MergeNested(acc, incoming);
    forall k | k in r
      ensures r[k] == m[k]
    {
      assert Taken(incoming, {}, k) == Inner(incoming, k);
    }
  }

  /** What the entry-by-entry merge has already taken from `incoming` under `k`. */
  function Taken<V>(incoming: NestedMap<V>, todo: set<string>, k: string): map<string, V> {
    if k in todo then map[] else Inner(incoming, k)
  }
}
