/**
 * Insertion-ordered dictionaries: PHP arrays with string keys and the
 * own properties of a JavaScript object. Iteration follows `keys`;
 * assigning to a key that is present replaces its value in place, and
 * assigning to a new key appends it.
 */
module OrderedMaps {
  import opened Wrappers

  datatype OrderedMap<K, V> = OrderedMap(keys: seq<K>, values: map<K, V>)
  {
    /** Every key occurs once in `keys`, and `keys` lists exactly the keys of `values`. */
    ghost predicate Valid() {
      && (forall i, j :: 0 <= i < j < |keys| ==> keys[i] != keys[j])
      && (forall k {:trigger k in keys} :: k in values ==> k in keys)
      && (forall i :: 0 <= i < |keys| ==> keys[i] in values)
    }

    /** `$a[ $k ] = $v`. */
    function Put(k: K, v: V): (r: OrderedMap<K, V>)
      requires Valid()
      ensures r.Valid()
      ensures r.values == values[k := v]
      ensures r.keys == if k in values then keys else keys + [k]
    {
      if k in values then OrderedMap(keys, values[k := v]) else OrderedMap(keys + [k], values[k := v])
    }

    /** `array_key_exists( $k, $a ) ? $a[ $k ] : null`. */
    function Get(k: K): Option<V> {
      if k in values then Some(values[k]) else None
    }

    /** The `$key => $value` pairs in iteration order. */
    function Items(): (r: seq<(K, V)>)
      requires Valid()
      ensures |r| == |keys|
      ensures forall i :: 0 <= i < |r| ==> r[i].0 == keys[i] && keys[i] in values && r[i].1 == values[keys[i]]
    {
      seq(|keys|, i requires 0 <= i < |keys| => (keys[i], values[keys[i]]))
    }
  }

  /** `array()` / `{}`. */
  function Empty<K, V>(): (r: OrderedMap<K, V>)
    ensures r.Valid() && r.keys == [] && r.values == map[]
  {
    OrderedMap([], map[])
  }

  /**
   * Starting from `init`, visit `xs` in order; an element for which `f`
   * yields `(k, v)` performs `$m[ $k ] = $v`, any other is skipped.
   */
  function Fold<T, K, V>(init: OrderedMap<K, V>, xs: seq<T>, f: T -> Option<(K, V)>): (m: OrderedMap<K, V>)
    requires init.Valid()
    ensures m.Valid()
    decreases |xs|
  {
    if xs == [] then init
    else
      var m := Fold(init, xs[..|xs| - 1], f);
      match f(xs[|xs| - 1])
      case None => m
      case Some(kv) => m.Put(kv.0, kv.1)
  }

  /** The plain assignment of a pair, for folding a list of pairs. */
  function Assign<K, V>(kv: (K, V)): Option<(K, V)> {
    Some(kv)
  }

  /** `$m[ $k ] = $v` for every pair, in order (`array_merge`, repeated property assignment). */
  function PutAll<K, V>(m: OrderedMap<K, V>, kvs: seq<(K, V)>): (r: OrderedMap<K, V>)
    requires m.Valid()
    ensures r.Valid()
  {
    Fold(m, kvs, Assign)
  }

  /** Element `i` of `xs` assigns key `k`. */
  ghost predicate AssignsAt<T, K, V>(xs: seq<T>, f: T -> Option<(K, V)>, i: int, k: K) {
    0 <= i < |xs| && f(xs[i]).Some? && f(xs[i]).value.0 == k
  }

  /** Some element assigns `a` before (or where) the first element that assigns `b`. */
  ghost predicate AssignedBefore<T, K, V>(xs: seq<T>, f: T -> Option<(K, V)>, a: K, b: K) {
    exists i :: AssignsAt(xs, f, i, a) && forall j :: 0 <= j <= i ==> !AssignsAt(xs, f, j, b)
  }

  /** The keys a fold assigns. */
  ghost function AssignedKeys<T, K, V>(xs: seq<T>, f: T -> Option<(K, V)>): set<K> {
    set i | 0 <= i < |xs| && f(xs[i]).Some? :: f(xs[i]).value.0
  }

  lemma AssignsAtPrefix<T, K, V>(xs: seq<T>, f: T -> Option<(K, V)>, n: nat, i: int, k: K)
    requires n <= |xs| && i < n
    ensures AssignsAt(xs[..n], f, i, k) <==> AssignsAt(xs, f, i, k)
  {
    if 0 <= i { assert xs[..n][i] == xs[i]; }
  }

  /** The fold's keys are the initial keys and the assigned ones. */
  lemma {:induction false} FoldKeys<T, K, V>(init: OrderedMap<K, V>, xs: seq<T>, f: T -> Option<(K, V)>)
    requires init.Valid()
    ensures forall k :: k in Fold(init, xs, f).values <==> k in init.values || exists i :: AssignsAt(xs, f, i, k)
    decreases |xs|
  {
    if xs != [] {
      var n := |xs| - 1;
      var ys := xs[..n];
      var m0 := Fold(init, ys, f);
      var m := Fold(init, xs, f);
      FoldKeys(init, ys, f);
      forall k ensures k in m.values <==> k in init.values || exists i :: AssignsAt(xs, f, i, k) {
        if exists i :: AssignsAt(ys, f, i, k) {
          var i :| AssignsAt(ys, f, i, k);
          AssignsAtPrefix(xs, f, n, i, k);
        }
        if exists i :: AssignsAt(xs, f, i, k) {
          var i :| AssignsAt(xs, f, i, k);
          if i < n {
            AssignsAtPrefix(xs, f, n, i, k);
          }
        }
        match f(xs[n])
        case None =>
          assert m == m0;
          assert !AssignsAt(xs, f, n, k);
        case Some(kv) =>
          assert m.values == m0.values[kv.0 := kv.1];
          assert AssignsAt(xs, f, n, k) <==> k == kv.0;
      }
    }
  }

  /** A key holds the value of the last element that assigns it. */
  lemma {:induction false} FoldLastWins<T, K, V>(init: OrderedMap<K, V>, xs: seq<T>, f: T -> Option<(K, V)>, i: nat)
    requires init.Valid()
    requires i < |xs| && f(xs[i]).Some?
    requires forall j :: i < j < |xs| ==> !AssignsAt(xs, f, j, f(xs[i]).value.0)
    ensures f(xs[i]).value.0 in Fold(init, xs, f).values
    ensures Fold(init, xs, f).values[f(xs[i]).value.0] == f(xs[i]).value.1
    decreases |xs|
  {
    var n := |xs| - 1;
    var ys := xs[..n];
    if i < n {
      assert ys[i] == xs[i];
      forall j | i < j < |ys| ensures !AssignsAt(ys, f, j, f(ys[i]).value.0) {
        AssignsAtPrefix(xs, f, n, j, f(xs[i]).value.0);
      }
      FoldLastWins(init, ys, f, i);
      assert !AssignsAt(xs, f, n, f(xs[i]).value.0);
    }
  }

  /** A key no element assigns keeps its initial value. */
  lemma {:induction false} FoldKeepsUnassigned<T, K, V>(init: OrderedMap<K, V>, xs: seq<T>, f: T -> Option<(K, V)>, k: K)
    requires init.Valid() && k in init.values
    requires forall j :: 0 <= j < |xs| ==> !AssignsAt(xs, f, j, k)
    ensures k in Fold(init, xs, f).values && Fold(init, xs, f).values[k] == init.values[k]
    decreases |xs|
  {
    if xs != [] {
      var n := |xs| - 1;
      forall j | 0 <= j < n ensures !AssignsAt(xs[..n], f, j, k) {
        AssignsAtPrefix(xs, f, n, j, k);
      }
      FoldKeepsUnassigned(init, xs[..n], f, k);
      assert !AssignsAt(xs, f, n, k);
    }
  }

  /** A fold never reorders or removes the keys it started with. */
  lemma {:induction false} FoldKeepsOrder<T, K, V>(init: OrderedMap<K, V>, xs: seq<T>, f: T -> Option<(K, V)>)
    requires init.Valid()
    ensures init.keys <= Fold(init, xs, f).keys
    decreases |xs|
  {
    if xs != [] {
      FoldKeepsOrder(init, xs[..|xs| - 1], f);
    }
  }

  /** An ordering fact about a prefix of `xs` still holds of `xs`. */
  lemma AssignedBeforeExtends<T, K, V>(xs: seq<T>, f: T -> Option<(K, V)>, n: nat, a: K, b: K)
    requires n <= |xs| && AssignedBefore(xs[..n], f, a, b)
    ensures AssignedBefore(xs, f, a, b)
  {
    var i :| AssignsAt(xs[..n], f, i, a) && forall j :: 0 <= j <= i ==> !AssignsAt(xs[..n], f, j, b);
    AssignsAtPrefix(xs, f, n, i, a);
    forall j | 0 <= j <= i ensures !AssignsAt(xs, f, j, b) {
      AssignsAtPrefix(xs, f, n, j, b);
    }
  }

  /** A key assigned within a prefix that never assigns `b` comes before `b`. */
  lemma AssignedBeforeFresh<T, K, V>(xs: seq<T>, f: T -> Option<(K, V)>, n: nat, i: int, a: K, b: K)
    requires n <= |xs| && AssignsAt(xs[..n], f, i, a)
    requires forall j :: 0 <= j < n ==> !AssignsAt(xs[..n], f, j, b)
    ensures AssignedBefore(xs, f, a, b)
  {
    AssignsAtPrefix(xs, f, n, i, a);
    forall j | 0 <= j <= i ensures !AssignsAt(xs, f, j, b) {
      AssignsAtPrefix(xs, f, n, j, b);
    }
  }

  /** A key past the initial ones was not an initial key. */
  lemma NewKeyNotInitial<K, V>(init: OrderedMap<K, V>, m: OrderedMap<K, V>, p: int)
    requires init.Valid() && m.Valid() && init.keys <= m.keys && |init.keys| <= p < |m.keys|
    ensures m.keys[p] !in init.values
  {
    forall j | 0 <= j < |init.keys| ensures init.keys[j] != m.keys[p] {
      assert init.keys[j] == m.keys[j];
    }
    assert m.keys[p] !in init.keys;
  }

  /** A valid map without keys has no entries. */
  lemma NoKeysIsEmpty<K, V>(m: OrderedMap<K, V>)
    requires m.Valid() && m.keys == []
    ensures m == Empty()
  {
    assert forall k :: k in m.values ==> k in m.keys;
  }

  /** The last element of a fold adds at most one key, at the end, and only a new one. */
  lemma FoldLastStep<T, K, V>(init: OrderedMap<K, V>, xs: seq<T>, f: T -> Option<(K, V)>)
    requires init.Valid() && xs != []
    ensures var m0, m := Fold(init, xs[..|xs| - 1], f), Fold(init, xs, f);
      && m0.keys <= m.keys && |m.keys| <= |m0.keys| + 1
      && (|m.keys| == |m0.keys| + 1 ==> m.keys[|m0.keys|] !in m0.values && AssignsAt(xs, f, |xs| - 1, m.keys[|m0.keys|]))
  {
  }

  /** One step of `FoldFirstAssignmentOrder`: extending the fold by its last element. */
  lemma FirstAssignmentOrderStep<T, K, V>(init: OrderedMap<K, V>, xs: seq<T>, f: T -> Option<(K, V)>, p: int, q: int)
    requires init.Valid() && xs != []
    requires var m0 := Fold(init, xs[..|xs| - 1], f);
      forall p, q :: |init.keys| <= p < q < |m0.keys| ==> AssignedBefore(xs[..|xs| - 1], f, m0.keys[p], m0.keys[q])
    requires |init.keys| <= p < q < |Fold(init, xs, f).keys|
    ensures AssignedBefore(xs, f, Fold(init, xs, f).keys[p], Fold(init, xs, f).keys[q])
  {
    var n := |xs| - 1;
    var ys := xs[..n];
    var m0 := Fold(init, ys, f);
    var m := Fold(init, xs, f);
    FoldLastStep(init, xs, f);
    var a, b := m.keys[p], m.keys[q];
    assert a == m0.keys[p];
    if q < |m0.keys| {
      assert b == m0.keys[q];
      AssignedBeforeExtends(xs, f, n, a, b);
    } else {
      FirstAssignmentOfNewKey(init, xs, f, p, q);
    }
  }

  /** The key the last element appended comes after every key added before it. */
  lemma FirstAssignmentOfNewKey<T, K, V>(init: OrderedMap<K, V>, xs: seq<T>, f: T -> Option<(K, V)>, p: int, q: int)
    requires init.Valid() && xs != []
    requires |init.keys| <= p < |Fold(init, xs[..|xs| - 1], f).keys| == q < |Fold(init, xs, f).keys|
    ensures AssignedBefore(xs, f, Fold(init, xs, f).keys[p], Fold(init, xs, f).keys[q])
  {
    var n := |xs| - 1;
    var ys := xs[..n];
    var m0 := Fold(init, ys, f);
    var m := Fold(init, xs, f);
    FoldLastStep(init, xs, f);
    FoldKeys(init, ys, f);
    FoldKeepsOrder(init, ys, f);
    var a, b := m.keys[p], m.keys[q];
    assert a == m0.keys[p];
    assert b !in m0.values;
    NewKeyNotInitial(init, m0, p);
    assert a in m0.values;
    assert a !in init.values;
    assert exists i :: AssignsAt(ys, f, i, a);
    var i :| AssignsAt(ys, f, i, a);
    assert !exists j :: AssignsAt(ys, f, j, b);
    AssignedBeforeFresh(xs, f, n, i, a, b);
  }

  /** New keys appear in the order in which they were first assigned. */
  lemma {:induction false} FoldFirstAssignmentOrder<T, K, V>(init: OrderedMap<K, V>, xs: seq<T>, f: T -> Option<(K, V)>)
    requires init.Valid()
    ensures var m := Fold(init, xs, f);
      forall p, q :: |init.keys| <= p < q < |m.keys| ==> AssignedBefore(xs, f, m.keys[p], m.keys[q])
    decreases |xs|
  {
    if xs != [] {
      FoldFirstAssignmentOrder(init, xs[..|xs| - 1], f);
      var m := Fold(init, xs, f);
      forall p, q | |init.keys| <= p < q < |m.keys| ensures AssignedBefore(xs, f, m.keys[p], m.keys[q]) {
        FirstAssignmentOrderStep(init, xs, f, p, q);
      }
    }
  }

  /** A sequence without repetitions has as many distinct elements as entries. */
  lemma {:induction false} DistinctCardinality<K>(s: seq<K>)
    requires forall i, j :: 0 <= i < j < |s| ==> s[i] != s[j]
    ensures |set x | x in s| == |s|
  {
    if s != [] {
      var n := |s| - 1;
      DistinctCardinality(s[..n]);
      assert (set x | x in s) == (set x | x in s[..n]) + {s[n]};
      assert s[n] !in (set x | x in s[..n]);
    }
  }

  /** Folding from the empty map yields one entry per distinct assigned key. */
  lemma FoldSize<T, K, V>(xs: seq<T>, f: T -> Option<(K, V)>)
    ensures |Fold(Empty(), xs, f).keys| == |AssignedKeys(xs, f)|
    ensures Fold(Empty(), xs, f).values.Keys == AssignedKeys(xs, f)
  {
    var m := Fold(Empty(), xs, f);
    FoldKeys(Empty(), xs, f);
    forall k | k in AssignedKeys(xs, f) ensures k in m.values {
      var i :| 0 <= i < |xs| && f(xs[i]).Some? && f(xs[i]).value.0 == k;
      assert AssignsAt(xs, f, i, k);
    }
    forall k | k in m.values ensures k in AssignedKeys(xs, f) {
      var i :| AssignsAt(xs, f, i, k);
    }
    assert m.values.Keys == AssignedKeys(xs, f);
    DistinctCardinality(m.keys);
    assert (set x | x in m.keys) == m.values.Keys;
  }

  /** `PutAll` is map union with the pairs winning, and keeps the original keys first. */
  lemma PutAllValues<K, V>(m: OrderedMap<K, V>, b: OrderedMap<K, V>)
    requires m.Valid() && b.Valid()
    ensures PutAll(m, b.Items()).values == m.values + b.values
    ensures m.keys <= PutAll(m, b.Items()).keys
  {
    var xs := b.Items();
    var r := PutAll(m, xs);
    FoldKeys(m, xs, Assign);
    FoldKeepsOrder(m, xs, Assign);
    forall k | k in b.values ensures k in r.values && r.values[k] == b.values[k] {
      assert k in b.keys;
      var i :| 0 <= i < |b.keys| && b.keys[i] == k;
      assert Assign(xs[i]).Some?;
      forall j | i < j < |xs| ensures !AssignsAt(xs, Assign, j, k) {
        assert xs[j].0 == b.keys[j];
      }
      FoldLastWins(m, xs, Assign, i);
    }
    forall k | k in m.values && k !in b.values ensures k in r.values && r.values[k] == m.values[k] {
      forall j | 0 <= j < |xs| ensures !AssignsAt(xs, Assign, j, k) {
        assert xs[j].0 == b.keys[j];
      }
      FoldKeepsUnassigned(m, xs, Assign, k);
    }
    forall k | k in r.values ensures k in m.values || k in b.values {
      if k !in m.values {
        var i :| AssignsAt(xs, Assign, i, k);
        assert xs[i].0 == b.keys[i];
      }
    }
  }
}
