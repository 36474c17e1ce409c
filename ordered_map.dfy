/** A model of Python's `OrderedDict` as far as route search uses it: a map
    plus the order in which its keys were first inserted. Assigning to a key
    that is already present replaces the value and keeps the key's position. */
module OrderedMaps {
  import opened Wrappers
  import opened Collections

  datatype OrderedMap<K(==), V> = OrderedMap(keys: seq<K>, values: map<K, V>)

  /** The keys are distinct and are exactly the keys of the map. */
  predicate Valid<K(==), V>(d: OrderedMap<K, V>) {
    (forall i, j :: 0 <= i < j < |d.keys| ==> d.keys[i] != d.keys[j])
    && (forall k | k in d.values :: k in d.keys)
    && (forall i :: 0 <= i < |d.keys| ==> d.keys[i] in d.values)
  }

  function Empty<K(==), V>(): OrderedMap<K, V> {
    OrderedMap([], map[])
  }

  /** `d[k] = v`. */
  function Put<K(==), V>(d: OrderedMap<K, V>, k: K, v: V): OrderedMap<K, V> {
    OrderedMap(if k in d.values then d.keys else d.keys + [k], d.values[k := v])
  }

  /** The dictionary obtained by assigning every pair of `kvs`, in order, into
      an empty `OrderedDict`. */
  function PutAll<K(==), V>(kvs: seq<(K, V)>): (d: OrderedMap<K, V>)
    ensures Valid(d)
    decreases |kvs|
  {
    if kvs == [] then Empty()
    else
      var last := kvs[|kvs| - 1];
      Put(PutAll(kvs[..|kvs| - 1]), last.0, last.1)
  }

  /** `d.values()`, in key order. */
  function Values<K(==), V>(d: OrderedMap<K, V>): (vs: seq<V>)
    requires Valid(d)
    ensures |vs| == |d.keys|
    ensures forall i :: 0 <= i < |d.keys| ==> vs[i] == d.values[d.keys[i]]
  {
    seq(|d.keys|, i requires 0 <= i < |d.keys| => d.values[d.keys[i]])
  }

  function KeysOf<K(==), V>(kvs: seq<(K, V)>): (ks: seq<K>)
    ensures |ks| == |kvs|
    ensures forall i :: 0 <= i < |kvs| ==> ks[i] == kvs[i].0
  {
    seq(|kvs|, i requires 0 <= i < |kvs| => kvs[i].0)
  }

  /** Assigning one more pair is one more `Put`. */
  lemma PutAllSnoc<K, V>(kvs: seq<(K, V)>, k: K, v: V)
    ensures PutAll(kvs + [(k, v)]) == Put(PutAll(kvs), k, v)
  {
    assert (kvs + [(k, v)])[..|kvs|] == kvs;
  }

  /** The value of the last pair of `kvs` with key `k`, if any. */
  function Latest<K(==), V>(kvs: seq<(K, V)>, k: K): Option<V>
    decreases |kvs|
  {
    if kvs == [] then None
    else if kvs[|kvs| - 1].0 == k then Some(kvs[|kvs| - 1].1)
    else Latest(kvs[..|kvs| - 1], k)
  }

  /** `Latest` finds the last pair with the key, and finds one whenever the key occurs. */
  lemma {:induction false} LatestIsLast<K, V>(kvs: seq<(K, V)>, k: K)
    ensures Latest(kvs, k).Some? <==> k in KeysOf(kvs)
    ensures Latest(kvs, k).Some? ==>
      exists i :: 0 <= i < |kvs| && kvs[i] == (k, Latest(kvs, k).value) && (forall j :: i < j < |kvs| ==> kvs[j].0 != k)
    decreases |kvs|
  {
    if kvs != [] {
      var init := kvs[..|kvs| - 1];
      LatestIsLast(init, k);
      assert KeysOf(kvs) == KeysOf(init) + [kvs[|kvs| - 1].0];
      if kvs[|kvs| - 1].0 != k && Latest(init, k).Some? {
        var i :| 0 <= i < |init| && init[i] == (k, Latest(init, k).value)
          && forall j :: i < j < |init| ==> init[j].0 != k;
        assert kvs[i] == init[i];
      }
    }
  }

  /** Later pairs take precedence: a key assigned in `b` gets its value from
      `b`, any other key from `a`. */
  lemma {:induction false} LatestAppend<K, V>(a: seq<(K, V)>, b: seq<(K, V)>, k: K)
    ensures Latest(a + b, k) == if Latest(b, k).Some? then Latest(b, k) else Latest(a, k)
    decreases |b|
  {
    if b == [] {
      assert a + b == a;
    } else {
      var binit := b[..|b| - 1];
      assert (a + b)[..|a + b| - 1] == a + binit;
      LatestAppend(a, binit, k);
    }
  }

  /** A key is present exactly when some pair assigned it, and then holds the
      value of the last such pair. */
  lemma {:induction false} PutAllLookup<K, V>(kvs: seq<(K, V)>, k: K)
    ensures k in PutAll(kvs).values <==> Latest(kvs, k).Some?
    ensures k in PutAll(kvs).values ==> PutAll(kvs).values[k] == Latest(kvs, k).value
    decreases |kvs|
  {
    if kvs != [] {
      PutAllLookup(kvs[..|kvs| - 1], k);
    }
  }

  /** Keys are ordered by first insertion: the key sequence is the
      de-duplicated sequence of assigned keys. */
  lemma {:induction false} PutAllKeyOrder<K, V>(kvs: seq<(K, V)>)
    ensures PutAll(kvs).keys == Unique(KeysOf(kvs))
    decreases |kvs|
  {
    if kvs != [] {
      var init := kvs[..|kvs| - 1];
      var k := kvs[|kvs| - 1].0;
      PutAllKeyOrder(init);
      var ks := KeysOf(kvs);
      assert ks[..|ks| - 1] == KeysOf(init);
      PutAllLookup(init, k);
      LatestIsLast(init, k);
      assert Id(ks[|ks| - 1]) == k;
      if k in KeysOf(init) {
        var i :| 0 <= i < |init| && KeysOf(init)[i] == k;
        assert Id(KeysOf(init)[i]) == k;
      } else {
        assert k !in KeySet(KeysOf(init), Id);
      }
    }
  }

  /** When every pair is keyed by a function of its value, every value in the
      dictionary sits under its own key, so no two values share that key. */
  lemma SelfKeyedValues<K, V>(kvs: seq<(K, V)>, key: V -> K)
    requires forall i :: 0 <= i < |kvs| ==> kvs[i].0 == key(kvs[i].1)
    ensures forall i :: 0 <= i < |PutAll(kvs).keys| ==> key(Values(PutAll(kvs))[i]) == PutAll(kvs).keys[i]
    ensures forall i, j :: 0 <= i < j < |Values(PutAll(kvs))| ==> key(Values(PutAll(kvs))[i]) != key(Values(PutAll(kvs))[j])
  {
    var d := PutAll(kvs);
    forall i | 0 <= i < |d.keys|
      ensures key(Values(d)[i]) == d.keys[i]
    {
      var k := d.keys[i];
      PutAllLookup(kvs, k);
      LatestIsLast(kvs, k);
    }
  }

  /** When each value sits under its own key, any rearrangement of the values
      still has a value for every key. */
  lemma KeyedValuesCover<K, V>(d: OrderedMap<K, V>, key: V -> K, r: seq<V>)
    requires Valid(d)
    requires forall i :: 0 <= i < |d.keys| ==> key(Values(d)[i]) == d.keys[i]
    requires multiset(r) == multiset(Values(d))
    ensures forall k :: k in d.keys ==> exists e :: e in r && key(e) == k
  {
    forall k | k in d.keys
      ensures exists e :: e in r && key(e) == k
    {
      var i :| 0 <= i < |d.keys| && d.keys[i] == k;
      assert Values(d)[i] in multiset(r);
    }
  }

  /** Every value in the dictionary was assigned by some pair, and every
      assigned key is present. */
  lemma PutAllProvenance<K, V>(kvs: seq<(K, V)>)
    ensures forall v :: v in Values(PutAll(kvs)) ==> exists j :: 0 <= j < |kvs| && kvs[j].1 == v
    ensures forall j :: 0 <= j < |kvs| ==> kvs[j].0 in PutAll(kvs).keys
  {
    var d := PutAll(kvs);
    forall v | v in Values(d)
      ensures exists j :: 0 <= j < |kvs| && kvs[j].1 == v
    {
      var i :| 0 <= i < |d.keys| && Values(d)[i] == v;
      PutAllLookup(kvs, d.keys[i]);
      LatestIsLast(kvs, d.keys[i]);
    }
    forall j | 0 <= j < |kvs|
      ensures kvs[j].0 in d.keys
    {
      PutAllLookup(kvs, kvs[j].0);
      LatestIsLast(kvs, kvs[j].0);
      assert KeysOf(kvs)[j] == kvs[j].0;
    }
  }

  /** `kvs[i]` is the last pair with key `k`. */
  predicate LastWith<K(==), V>(kvs: seq<(K, V)>, k: K, i: int) {
    0 <= i < |kvs| && kvs[i].0 == k && forall j :: i < j < |kvs| ==> kvs[j].0 != k
  }

  /** Assigning `a` and then `b`: a key is present when either pass assigned
      it; it holds the value of the last pair of `b` with that key if there is
      one, and otherwise that of the last pair of `a`. */
  lemma TwoPassLookup<K, V>(a: seq<(K, V)>, b: seq<(K, V)>, k: K)
    ensures k in PutAll(a + b).values <==> k in KeysOf(a) || k in KeysOf(b)
    ensures k in KeysOf(b) ==> exists i :: LastWith(b, k, i) && PutAll(a + b).values[k] == b[i].1
    ensures k !in KeysOf(b) && k in KeysOf(a) ==> exists i :: LastWith(a, k, i) && PutAll(a + b).values[k] == a[i].1
  {
    PutAllLookup(a + b, k);
    LatestAppend(a, b, k);
    LatestIsLast(a, k);
    LatestIsLast(b, k);
    if k in KeysOf(b) {
      var i :| 0 <= i < |b| && b[i] == (k, Latest(b, k).value) && (forall j :: i < j < |b| ==> b[j].0 != k);
      assert LastWith(b, k, i);
    } else if k in KeysOf(a) {
      var i :| 0 <= i < |a| && a[i] == (k, Latest(a, k).value) && (forall j :: i < j < |a| ==> a[j].0 != k);
      assert LastWith(a, k, i);
    }
  }

  /** Assigning `a` and then `b`: every value present was assigned by a pair
      of one of the passes. */
  lemma TwoPassValues<K, V>(a: seq<(K, V)>, b: seq<(K, V)>)
    ensures forall v :: v in Values(PutAll(a + b)) ==>
      (exists i :: 0 <= i < |a| && a[i].1 == v) || (exists i :: 0 <= i < |b| && b[i].1 == v)
  {
    PutAllProvenance(a + b);
    forall v | v in Values(PutAll(a + b))
      ensures (exists i :: 0 <= i < |a| && a[i].1 == v) || (exists i :: 0 <= i < |b| && b[i].1 == v)
    {
      var j :| 0 <= j < |a + b| && (a + b)[j].1 == v;
      if j < |a| {
        assert (a + b)[j] == a[j];
      } else {
        assert (a + b)[j] == b[j - |a|];
      }
    }
  }

  /** Assigning `a` and then `b`: every key either pass assigned is present. */
  lemma TwoPassKeys<K, V>(a: seq<(K, V)>, b: seq<(K, V)>)
    ensures forall i :: 0 <= i < |a| ==> a[i].0 in PutAll(a + b).keys
    ensures forall i :: 0 <= i < |b| ==> b[i].0 in PutAll(a + b).keys
  {
    PutAllProvenance(a + b);
    forall i | 0 <= i < |a| ensures a[i].0 in PutAll(a + b).keys {
      assert (a + b)[i] == a[i];
    }
    forall i | 0 <= i < |b| ensures b[i].0 in PutAll(a + b).keys {
      assert (a + b)[|a| + i] == b[i];
    }
  }

  // ----- dictionaries filled from rows -----

  /** The pairs `(key(x), val(x))` for the rows `xs`, in order. */
  function PairsOf<T, K, V>(xs: seq<T>, key: T -> K, val: T -> V): (ps: seq<(K, V)>)
    ensures |ps| == |xs|
    ensures forall j :: 0 <= j < |xs| ==> ps[j] == (key(xs[j]), val(xs[j]))
  {
    seq(|xs|, j requires 0 <= j < |xs| => (key(xs[j]), val(xs[j])))
  }

  /** Some row has key `k`. */
  predicate HasRowWith<T, K(==)>(xs: seq<T>, key: T -> K, k: K) {
    exists j :: 0 <= j < |xs| && key(xs[j]) == k
  }

  /** `xs[j]` is the last row with key `k`. */
  predicate LastRowWith<T, K(==)>(xs: seq<T>, key: T -> K, k: K, j: int) {
    0 <= j < |xs| && key(xs[j]) == k && forall i :: j < i < |xs| ==> key(xs[i]) != k
  }

  lemma PairsOfKeys<T, K, V>(xs: seq<T>, key: T -> K, val: T -> V, k: K)
    ensures k in KeysOf(PairsOf(xs, key, val)) <==> HasRowWith(xs, key, k)
  {
    var ps := PairsOf(xs, key, val);
    if HasRowWith(xs, key, k) {
      var j :| 0 <= j < |xs| && key(xs[j]) == k;
      assert KeysOf(ps)[j] == k;
    }
  }

  lemma PairsOfSnoc<T, K, V>(xs: seq<T>, i: int, key: T -> K, val: T -> V)
    requires 0 <= i < |xs|
    ensures PairsOf(xs[..i + 1], key, val) == PairsOf(xs[..i], key, val) + [(key(xs[i]), val(xs[i]))]
  {
  }

  /** Assigning row `xs[i]` after the rows before it. */
  lemma PutAllFirstRowsStep<T, K, V>(xs: seq<T>, i: int, key: T -> K, val: T -> V)
    requires 0 <= i < |xs|
    ensures PutAll(PairsOf(xs[..i + 1], key, val)) == Put(PutAll(PairsOf(xs[..i], key, val)), key(xs[i]), val(xs[i]))
  {
    PairsOfSnoc(xs, i, key, val);
    PutAllSnoc(PairsOf(xs[..i], key, val), key(xs[i]), val(xs[i]));
  }

  /** Assigning row `xs[i]` after the rows before it, following the assignments `prior`. */
  lemma PutAllRowStep<T, K, V>(prior: seq<(K, V)>, xs: seq<T>, i: int, key: T -> K, val: T -> V)
    requires 0 <= i < |xs|
    ensures PutAll(prior + PairsOf(xs[..i + 1], key, val)) == Put(PutAll(prior + PairsOf(xs[..i], key, val)), key(xs[i]), val(xs[i]))
  {
    var before := PairsOf(xs[..i], key, val);
    var p := (key(xs[i]), val(xs[i]));
    PairsOfSnoc(xs, i, key, val);
    assert prior + (before + [p]) == (prior + before) + [p];
    PutAllSnoc(prior + before, p.0, p.1);
  }

  /** Filling a dictionary from rows `rs` and then rows `qs`: a key is present
      when a row of either produced it; it holds the value of the last row of
      `ys` with that key if there is one, and otherwise that of the last row of
      `xs` with it. */
  lemma TwoPassRowLookup<T, U, K, V>(rs: seq<T>, ka: T -> K, va: T -> V, qs: seq<U>, kb: U -> K, vb: U -> V, k: K)
    ensures var m := PutAll(PairsOf(rs, ka, va) + PairsOf(qs, kb, vb));
      && (k in m.values <==> HasRowWith(rs, ka, k) || HasRowWith(qs, kb, k))
      && (HasRowWith(qs, kb, k) ==> exists j :: LastRowWith(qs, kb, k, j) && m.values[k] == vb(qs[j]))
      && (!HasRowWith(qs, kb, k) && HasRowWith(rs, ka, k) ==>
            exists j :: LastRowWith(rs, ka, k, j) && m.values[k] == va(rs[j]))
  {
    var a, b := PairsOf(rs, ka, va), PairsOf(qs, kb, vb);
    PairsOfKeys(rs, ka, va, k);
    PairsOfKeys(qs, kb, vb, k);
    TwoPassLookup(a, b, k);
    if HasRowWith(qs, kb, k) {
      var j :| LastWith(b, k, j) && PutAll(a + b).values[k] == b[j].1;
      assert LastRowWith(qs, kb, k, j);
    } else if HasRowWith(rs, ka, k) {
      var j :| LastWith(a, k, j) && PutAll(a + b).values[k] == a[j].1;
      assert LastRowWith(rs, ka, k, j);
    }
  }

  /** Filling a dictionary from rows `rs` and then rows `qs`: every value is
      the value of some row. */
  lemma TwoPassRowValues<T, U, K, V>(rs: seq<T>, ka: T -> K, va: T -> V, qs: seq<U>, kb: U -> K, vb: U -> V)
    ensures forall v :: v in Values(PutAll(PairsOf(rs, ka, va) + PairsOf(qs, kb, vb))) ==>
      (exists j :: 0 <= j < |rs| && v == va(rs[j])) || (exists j :: 0 <= j < |qs| && v == vb(qs[j]))
  {
    var a, b := PairsOf(rs, ka, va), PairsOf(qs, kb, vb);
    TwoPassValues(a, b);
    forall v | v in Values(PutAll(a + b))
      ensures (exists j :: 0 <= j < |rs| && v == va(rs[j])) || (exists j :: 0 <= j < |qs| && v == vb(qs[j]))
    {
      if i :| 0 <= i < |a| && a[i].1 == v {
        assert v == va(rs[i]);
      } else {
        var i :| 0 <= i < |b| && b[i].1 == v;
        assert v == vb(qs[i]);
      }
    }
  }

  /** Filling a dictionary from rows `rs` and then rows `qs`: every row's key
      is present. */
  lemma TwoPassRowKeys<T, U, K, V>(rs: seq<T>, ka: T -> K, va: T -> V, qs: seq<U>, kb: U -> K, vb: U -> V)
    ensures forall j :: 0 <= j < |rs| ==> ka(rs[j]) in PutAll(PairsOf(rs, ka, va) + PairsOf(qs, kb, vb)).keys
    ensures forall j :: 0 <= j < |qs| ==> kb(qs[j]) in PutAll(PairsOf(rs, ka, va) + PairsOf(qs, kb, vb)).keys
  {
    var a, b := PairsOf(rs, ka, va), PairsOf(qs, kb, vb);
    TwoPassKeys(a, b);
    assert forall j :: 0 <= j < |rs| ==> a[j].0 == ka(rs[j]);
    assert forall j :: 0 <= j < |qs| ==> b[j].0 == kb(qs[j]);
  }

  /** When every row's key is a function of its value, no two values of the
      dictionary share that key. */
  lemma TwoPassRowSelfKeyed<T, U, K, V>(rs: seq<T>, ka: T -> K, va: T -> V, qs: seq<U>, kb: U -> K, vb: U -> V, key: V -> K)
    requires forall j :: 0 <= j < |rs| ==> ka(rs[j]) == key(va(rs[j]))
    requires forall j :: 0 <= j < |qs| ==> kb(qs[j]) == key(vb(qs[j]))
    ensures var m := PutAll(PairsOf(rs, ka, va) + PairsOf(qs, kb, vb));
      (forall i :: 0 <= i < |m.keys| ==> key(Values(m)[i]) == m.keys[i])
      && DistinctKeys(Values(m), key)
  {
    var a, b := PairsOf(rs, ka, va), PairsOf(qs, kb, vb);
    var ps := a + b;
    forall i | 0 <= i < |ps| ensures ps[i].0 == key(ps[i].1) {
      if i < |a| {
        assert ps[i] == a[i];
      } else {
        assert ps[i] == b[i - |a|];
      }
    }
    SelfKeyedValues(ps, key);
  }
}
