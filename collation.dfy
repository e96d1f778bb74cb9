/**
  The key order used to sort object entries before a signature is built.
  `localeCompare` is replaced by code-point lexicographic order, a strict
  total order on strings; JavaScript's `Array.prototype.sort` is stable, and
  so is the insertion sort below.
*/
module Collation {
  import opened Records

  predicate Less(a: string, b: string)
  {
    if a == [] then b != []
    else if b == [] then false
    else if a[0] != b[0] then a[0] < b[0]
    else Less(a[1..], b[1..])
  }

  lemma {:induction false} LessIrreflexive(a: string)
    ensures !Less(a, a)
  {
    if a != [] { LessIrreflexive(a[1..]); }
  }

  lemma {:induction false} LessAsymmetric(a: string, b: string)
    ensures Less(a, b) ==> !Less(b, a)
  {
    if a != [] && b != [] && a[0] == b[0] { LessAsymmetric(a[1..], b[1..]); }
  }

  lemma {:induction false} LessTransitive(a: string, b: string, c: string)
    requires Less(a, b) && Less(b, c)
    ensures Less(a, c)
  {
    if a != [] && a[0] == b[0] && b[0] == c[0] {
      LessTransitive(a[1..], b[1..], c[1..]);
    }
  }

  lemma {:induction false} LessTotal(a: string, b: string)
    ensures a == b || Less(a, b) || Less(b, a)
  {
    if a != [] && b != [] && a[0] == b[0] {
      LessTotal(a[1..], b[1..]);
      if a[1..] == b[1..] { assert a == [a[0]] + a[1..] && b == [b[0]] + b[1..]; }
    }
  }

  /** Entries in non-decreasing key order. */
  predicate Sorted<V>(r: Record<V>)
  {
    forall i, j :: 0 <= i < j < |r| ==> !Less(r[j].0, r[i].0)
  }

  /** Keys in strictly increasing order. */
  predicate StrictlySorted(ks: seq<string>)
  {
    forall i, j :: 0 <= i < j < |ks| ==> Less(ks[i], ks[j])
  }

  /** Places `x` after every entry whose key is not greater than its own. */
  function Insert<V>(x: (string, V), r: Record<V>): (r': Record<V>)
    ensures |r'| == |r| + 1
    ensures multiset(r') == multiset(r) + multiset{x}
  {
    if r == [] then [x]
    else if Less(x.0, r[0].0) then [x] + r
    else
      assert r == [r[0]] + r[1..];
      [r[0]] + Insert(x, r[1..])
  }

  lemma {:induction false} InsertKeys<V>(x: (string, V), r: Record<V>)
    ensures KeySet(Insert(x, r)) == KeySet(r) + {x.0}
    ensures DistinctKeys(r) && x.0 !in KeySet(r) ==> DistinctKeys(Insert(x, r))
  {
    if r == [] {
      assert Keys([x]) == [x.0];
    } else if Less(x.0, r[0].0) {
      KeysCons(x, r);
    } else {
      var rest := Insert(x, r[1..]);
      InsertKeys(x, r[1..]);
      assert r == [r[0]] + r[1..];
      KeysCons(r[0], r[1..]);
      KeysCons(r[0], rest);
      if DistinctKeys(r) && x.0 !in KeySet(r) {
        DistinctTail(r);
        assert r[0].0 !in KeySet(rest);
      }
    }
  }

  lemma {:induction false} InsertSorted<V>(x: (string, V), r: Record<V>)
    requires Sorted(r)
    ensures Sorted(Insert(x, r))
  {
    if r == [] {
    } else if Less(x.0, r[0].0) {
      InsertFront(x, r);
    } else {
      assert Sorted(r[1..]);
      InsertSorted(x, r[1..]);
      InsertBehind(x, r, Insert(x, r[1..]));
    }
  }

  lemma InsertFront<V>(x: (string, V), r: Record<V>)
    requires r != [] && Less(x.0, r[0].0) && Sorted(r)
    ensures Sorted([x] + r)
  {
    forall j | 0 < j < |r| + 1 ensures !Less(([x] + r)[j].0, x.0) {
      var y := r[j - 1].0;
      LessTotal(r[0].0, y);
      if Less(r[0].0, y) { LessTransitive(x.0, r[0].0, y); }
      LessAsymmetric(x.0, y);
    }
  }

  lemma InsertBehind<V>(x: (string, V), r: Record<V>, rest: Record<V>)
    requires r != [] && !Less(x.0, r[0].0) && Sorted(r)
    requires multiset(rest) == multiset(r[1..]) + multiset{x}
    requires Sorted(rest)
    ensures Sorted([r[0]] + rest)
  {
    forall j | 0 <= j < |rest| ensures !Less(rest[j].0, r[0].0) {
      assert rest[j] in multiset(rest);
      if rest[j] != x {
        assert rest[j] in multiset(r[1..]);
        var m :| 0 <= m < |r[1..]| && r[1..][m] == rest[j];
        assert r[m + 1] == rest[j];
      }
    }
  }

  /** `entries.sort(([a], [b]) => a.localeCompare(b))`. */
  function SortByKey<V>(r: Record<V>): (s: Record<V>)
    ensures |s| == |r|
    ensures multiset(s) == multiset(r)
  {
    if r == [] then []
    else
      var init := r[..|r| - 1];
      assert r == init + [r[|r| - 1]];
      Insert(r[|r| - 1], SortByKey(init))
  }

  /** The sorted entries are in key order, with the same keys, still distinct when they were. */
  lemma {:induction false} SortByKeyProperties<V>(r: Record<V>)
    ensures Sorted(SortByKey(r))
    ensures KeySet(SortByKey(r)) == KeySet(r)
    ensures DistinctKeys(r) ==> DistinctKeys(SortByKey(r))
  {
    if r != [] {
      var init := r[..|r| - 1];
      var last := r[|r| - 1];
      assert r == init + [last];
      SortByKeyProperties(init);
      KeySetSnoc(init, last);
      InsertSorted(last, SortByKey(init));
      InsertKeys(last, SortByKey(init));
      if DistinctKeys(r) {
        assert DistinctKeys(init);
        assert last.0 !in KeySet(init) by {
          forall m | 0 <= m < |init| ensures Keys(init)[m] != last.0 {
            assert init[m] == r[m];
          }
        }
      }
    }
  }

  /** Two strictly increasing key lists with the same elements are equal. */
  lemma {:induction false} StrictlySortedUnique(a: seq<string>, b: seq<string>)
    requires StrictlySorted(a) && StrictlySorted(b)
    requires forall x :: x in a <==> x in b
    ensures a == b
  {
    assert a != [] ==> a[0] in b;
    assert b != [] ==> b[0] in a;
    if a != [] && b != [] {
      var i :| 0 <= i < |b| && b[i] == a[0];
      assert i == 0 || Less(b[0], a[0]);
      var j :| 0 <= j < |a| && a[j] == b[0];
      assert j == 0 || Less(a[0], b[0]);
      LessAsymmetric(a[0], b[0]);
      assert a[0] == b[0];
      forall x ensures x in a[1..] <==> x in b[1..] {
        assert x in a[1..] <==> x in a && x != a[0] by {
          if x in a[1..] {
            var i :| 0 <= i < |a[1..]| && a[1..][i] == x;
            LessIrreflexive(a[0]);
            assert Less(a[0], a[i + 1]);
          }
          if x in a && x != a[0] {
            var i :| 0 <= i < |a| && a[i] == x;
            assert a[1..][i - 1] == x;
          }
        }
        assert x in b[1..] <==> x in b && x != b[0] by {
          if x in b[1..] {
            var i :| 0 <= i < |b[1..]| && b[1..][i] == x;
            LessIrreflexive(b[0]);
            assert Less(b[0], b[i + 1]);
          }
          if x in b && x != b[0] {
            var i :| 0 <= i < |b| && b[i] == x;
            assert b[1..][i - 1] == x;
          }
        }
      }
      StrictlySortedUnique(a[1..], b[1..]);
      assert a == [a[0]] + a[1..] && b == [b[0]] + b[1..];
    }
  }

  /** With distinct keys, the sorted key order is strict. */
  lemma SortedDistinctIsStrict<V>(r: Record<V>)
    requires Sorted(r) && DistinctKeys(r)
    ensures StrictlySorted(Keys(r))
  {
    forall i, j | 0 <= i < j < |r| ensures Less(Keys(r)[i], Keys(r)[j]) {
      LessTotal(r[i].0, r[j].0);
    }
  }

  /** A value-wise map over a record, keys untouched. */
  function MapValues<V, W>(r: Record<V>, f: V -> W): (m: Record<W>)
    ensures |m| == |r| && Keys(m) == Keys(r)
  {
    seq(|r|, i requires 0 <= i < |r| => (r[i].0, f(r[i].1)))
  }

  lemma {:induction false} InsertMapValues<V, W>(x: (string, V), r: Record<V>, f: V -> W)
    ensures Insert((x.0, f(x.1)), MapValues(r, f)) == MapValues(Insert(x, r), f)
  {
    var m := MapValues(r, f);
    if r == [] {
      assert MapValues([x], f) == [(x.0, f(x.1))];
    } else if Less(x.0, r[0].0) {
      MapValuesCons(x, r, f);
    } else {
      InsertMapValues(x, r[1..], f);
      MapValuesCons(r[0], r[1..], f);
      assert r == [r[0]] + r[1..];
      MapValuesCons(r[0], Insert(x, r[1..]), f);
    }
  }

  lemma MapValuesCons<V, W>(e: (string, V), r: Record<V>, f: V -> W)
    ensures MapValues([e] + r, f) == [(e.0, f(e.1))] + MapValues(r, f)
  {
  }

  /** Sorting looks only at keys, so it commutes with mapping the values. */
  lemma {:induction false} SortMapValues<V, W>(r: Record<V>, f: V -> W)
    ensures SortByKey(MapValues(r, f)) == MapValues(SortByKey(r), f)
  {
    if r != [] {
      var init := r[..|r| - 1];
      assert MapValues(r, f)[..|r| - 1] == MapValues(init, f);
      SortMapValues(init, f);
      InsertMapValues(r[|r| - 1], SortByKey(init), f);
    }
  }

  /** Two sorted records with distinct keys and the same entries are equal. */
  lemma SortedPermutationUnique<V>(a: Record<V>, b: Record<V>)
    requires Sorted(a) && Sorted(b) && DistinctKeys(a) && DistinctKeys(b)
    requires multiset(a) == multiset(b)
    ensures a == b
  {
    assert forall k :: k in Keys(a) <==> k in Keys(b) by {
      forall k ensures k in Keys(a) ==> k in Keys(b) {
        if k in Keys(a) {
          var i :| 0 <= i < |a| && Keys(a)[i] == k;
          assert a[i] in multiset(b);
          var j :| 0 <= j < |b| && b[j] == a[i];
          assert Keys(b)[j] == k;
        }
      }
      forall k ensures k in Keys(b) ==> k in Keys(a) {
        if k in Keys(b) {
          var i :| 0 <= i < |b| && Keys(b)[i] == k;
          assert b[i] in multiset(a);
          var j :| 0 <= j < |a| && a[j] == b[i];
          assert Keys(a)[j] == k;
        }
      }
    }
    SortedDistinctIsStrict(a);
    SortedDistinctIsStrict(b);
    StrictlySortedUnique(Keys(a), Keys(b));
    assert |a| == |b| by { assert |multiset(a)| == |multiset(b)|; }
    forall i | 0 <= i < |a| ensures a[i] == b[i] {
      assert a[i] in multiset(b);
      var j :| 0 <= j < |b| && b[j] == a[i];
      assert Keys(a)[i] == Keys(b)[i];
      assert Keys(b)[j] == b[j].0;
    }
  }
}
