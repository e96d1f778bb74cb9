/**
  String-keyed records in insertion order: a JavaScript object built by
  `r[key] = value`, or a `Map` filled by `m.set(key, value)`, as
  `Object.entries` / `Map.prototype.values` later enumerate it.
*/
module Records {
  import opened Wrappers

  type Record<V> = seq<(string, V)>

  function Keys<V>(r: Record<V>): seq<string>
  {
    seq(|r|, i requires 0 <= i < |r| => r[i].0)
  }

  function KeySet<V>(r: Record<V>): set<string>
  {
    set k | k in Keys(r)
  }

  predicate DistinctKeys<V>(r: Record<V>)
  {
    forall i, j :: 0 <= i < j < |r| ==> r[i].0 != r[j].0
  }

  /** Position of the first member with key `k`, or -1. */
  function IndexOf<V>(r: Record<V>, k: string): (i: int)
    ensures -1 <= i < |r|
    ensures 0 <= i ==> r[i].0 == k && forall j :: 0 <= j < i ==> r[j].0 != k
    ensures i == -1 <==> k !in KeySet(r)
  {
    if |r| == 0 then -1
    else if r[0].0 == k then
      assert Keys(r)[0] == k;
      0
    else
      var j := IndexOf(r[1..], k);
      assert Keys(r) == [r[0].0] + Keys(r[1..]);
      if j < 0 then -1 else j + 1
  }

  lemma KeysAgree<V, W>(a: Record<V>, b: Record<W>)
    requires |a| == |b| && forall i :: 0 <= i < |a| ==> a[i].0 == b[i].0
    ensures Keys(a) == Keys(b)
  {
  }

  lemma KeySetSnoc<V>(r: Record<V>, e: (string, V))
    ensures KeySet(r + [e]) == KeySet(r) + {e.0}
  {
    assert Keys(r + [e]) == Keys(r) + [e.0];
  }

  /** A member in front: its key in front, and kept distinct when it is new. */
  lemma KeysCons<V>(e: (string, V), r: Record<V>)
    ensures Keys([e] + r) == [e.0] + Keys(r)
    ensures KeySet([e] + r) == {e.0} + KeySet(r)
    ensures DistinctKeys(r) && e.0 !in KeySet(r) ==> DistinctKeys([e] + r)
  {
    assert Keys([e] + r) == [e.0] + Keys(r);
    if DistinctKeys(r) && e.0 !in KeySet(r) {
      forall i, j | 0 <= i < j < |r| + 1 ensures ([e] + r)[i].0 != ([e] + r)[j].0 {
        if i == 0 { assert Keys(r)[j - 1] == r[j - 1].0; }
      }
    }
  }

  /** Dropping the first member keeps the rest distinct. */
  lemma DistinctTail<V>(r: Record<V>)
    requires r != [] && DistinctKeys(r)
    ensures DistinctKeys(r[1..])
  {
    forall i, j | 0 <= i < j < |r| - 1 ensures r[1..][i].0 != r[1..][j].0 {
      assert r[1..][i] == r[i + 1] && r[1..][j] == r[j + 1];
    }
  }

  lemma KeySetPair<V>(e1: (string, V), e2: (string, V))
    ensures KeySet([e1, e2]) == {e1.0, e2.0}
  {
    assert Keys([e1, e2]) == [e1.0, e2.0];
  }

  /** The keys of a longer prefix: one more key. */
  lemma KeySetTake<V>(r: Record<V>, i: nat)
    requires i < |r|
    ensures KeySet(r[..i + 1]) == KeySet(r[..i]) + {r[i].0}
  {
    assert r[..i + 1] == r[..i] + [r[i]];
    KeySetSnoc(r[..i], r[i]);
  }

  /** `IndexOf` finds the first occurrence. */
  lemma {:induction false} IndexOfFirst<V>(r: Record<V>, k: string, i: nat)
    requires i < |r| && r[i].0 == k
    requires forall j :: 0 <= j < i ==> r[j].0 != k
    ensures IndexOf(r, k) == i
  {
    if i > 0 {
      IndexOfFirst(r[1..], k, i - 1);
    }
  }

  /** `r[k]`: the value stored under `k`, or `None` for `undefined`. */
  function Get<V>(r: Record<V>, k: string): (o: Option<V>)
    ensures o.Some? <==> k in KeySet(r)
    ensures o.Some? ==> exists i :: 0 <= i < |r| && r[i] == (k, o.value)
  {
    var i := IndexOf(r, k);
    if i < 0 then None else Some(r[i].1)
  }

  /**
    `r[k] = v`: an existing key keeps its position and takes the new value,
    a new key is appended.
  */
  function Put<V>(r: Record<V>, k: string, v: V): (r': Record<V>)
    ensures k in KeySet(r) ==> |r'| == |r| && Keys(r') == Keys(r)
    ensures k !in KeySet(r) ==> r' == r + [(k, v)]
    ensures KeySet(r') == KeySet(r) + {k}
    ensures Get(r', k) == Some(v)
    ensures forall k' :: k' != k ==> Get(r', k') == Get(r, k')
    ensures DistinctKeys(r) ==> DistinctKeys(r')
  {
    var i := IndexOf(r, k);
    if i < 0 then
      var r' := r + [(k, v)];
      assert Keys(r') == Keys(r) + [k];
      forall j | 0 <= j < |r| ensures r'[j].0 != k {
        assert Keys(r)[j] == r[j].0;
      }
      IndexOfFirst(r', k, |r|);
      forall k' | k' != k ensures IndexOf(r', k') == IndexOf(r, k') {
        var j := IndexOf(r, k');
        if j >= 0 { IndexOfFirst(r', k', j); }
      }
      r'
    else
      var r' := r[i := (k, v)];
      assert Keys(r') == Keys(r);
      IndexOfFirst(r', k, i);
      forall k' | k' != k ensures IndexOf(r', k') == IndexOf(r, k') {
        var j := IndexOf(r, k');
        if j >= 0 { IndexOfFirst(r', k', j); }
      }
      r'
  }

  /** The record left by assigning the members of `es` one after another. */
  function PutAll<V>(r: Record<V>, es: Record<V>): Record<V>
  {
    if es == [] then r
    else
      var last := es[|es| - 1];
      Put(PutAll(r, es[..|es| - 1]), last.0, last.1)
  }

  /** One more assignment extends the fold by one member. */
  lemma PutAllStep<V>(spec: Record<V>, i: nat, p: Record<V>, key: string, v: V)
    requires i < |spec| && spec[i] == (key, v) && p == PutAll([], spec[..i])
    ensures Put(p, key, v) == PutAll([], spec[..i + 1])
  {
    assert spec[..i + 1][..i] == spec[..i];
  }

  lemma PutAllKeys<V>(r: Record<V>, es: Record<V>)
    ensures KeySet(PutAll(r, es)) == KeySet(r) + KeySet(es)
    ensures DistinctKeys(r) ==> DistinctKeys(PutAll(r, es))
  {
    PutAllKeySet(r, es);
    if DistinctKeys(r) {
      PutAllDistinct(r, es);
    }
  }

  lemma {:induction false} PutAllKeySet<V>(r: Record<V>, es: Record<V>)
    ensures KeySet(PutAll(r, es)) == KeySet(r) + KeySet(es)
  {
    if es != [] {
      var init := es[..|es| - 1];
      var last := es[|es| - 1];
      var p := PutAll(r, init);
      PutAllKeySet(r, init);
      assert es == init + [last];
      KeySetSnoc(init, last);
      calc {
        KeySet(PutAll(r, es));
        KeySet(Put(p, last.0, last.1));
        KeySet(p) + {last.0};
        KeySet(r) + KeySet(init) + {last.0};
        KeySet(r) + KeySet(es);
      }
    }
  }

  lemma {:induction false} PutAllDistinct<V>(r: Record<V>, es: Record<V>)
    requires DistinctKeys(r)
    ensures DistinctKeys(PutAll(r, es))
  {
    if es != [] {
      var init := es[..|es| - 1];
      var last := es[|es| - 1];
      PutAllDistinct(r, init);
      assert PutAll(r, es) == Put(PutAll(r, init), last.0, last.1);
    }
  }

  /** Assigning members whose keys are all new and distinct appends them in order. */
  lemma {:induction false} PutAllFresh<V>(r: Record<V>, es: Record<V>)
    requires DistinctKeys(r + es)
    ensures PutAll(r, es) == r + es
  {
    if es != [] {
      var init := es[..|es| - 1];
      assert r + es == (r + init) + [es[|es| - 1]];
      assert DistinctKeys(r + init) by {
        forall i, j | 0 <= i < j < |r + init| ensures (r + init)[i].0 != (r + init)[j].0 {
          assert (r + init)[i] == (r + es)[i] && (r + init)[j] == (r + es)[j];
        }
      }
      PutAllFresh(r, init);
      var last := es[|es| - 1];
      assert last.0 !in KeySet(r + init) by {
        forall m | 0 <= m < |r + init| ensures (r + init)[m].0 != last.0 {
          assert (r + init)[m] == (r + es)[m] && last == (r + es)[|r + es| - 1];
        }
      }
    }
  }

  /** Assigning distinct keys to an empty record keeps them all, in order. */
  lemma PutAllEmpty<V>(es: Record<V>)
    requires DistinctKeys(es)
    ensures PutAll([], es) == es
  {
    assert [] + es == es;
    PutAllFresh([], es);
  }

  /** Records with the same key at every position: distinct keys carry over. */
  lemma DistinctKeysAgree<V, W>(a: Record<V>, b: Record<W>)
    requires |a| == |b| && forall i :: 0 <= i < |a| ==> a[i].0 == b[i].0
    requires DistinctKeys(b)
    ensures DistinctKeys(a)
  {
    forall i, j | 0 <= i < j < |a| ensures a[i].0 != a[j].0 {
      assert a[i].0 == b[i].0 && a[j].0 == b[j].0;
    }
  }

  /** Every value stored by `PutAll` was stored by one of its assignments or was already there. */
  lemma {:induction false} PutAllValues<V>(r: Record<V>, es: Record<V>, i: nat)
    requires i < |PutAll(r, es)|
    ensures PutAll(r, es)[i] in r || PutAll(r, es)[i] in es
  {
    if es != [] {
      var init := es[..|es| - 1];
      var last := es[|es| - 1];
      var p := PutAll(r, init);
      var j := IndexOf(p, last.0);
      if j < 0 {
        if i < |p| { PutAllValues(r, init, i); } 
      } else if i != j {
        PutAllValues(r, init, i);
      }
    }
  }
}
