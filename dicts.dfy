/**
  * A Python `dict` as a value: its entries in insertion order, no key twice.
  * Assigning to a present key keeps its position; a new key goes to the end;
  * `popitem` takes from the end. The operations here are the pure meaning of
  * the statements in the dict script; `DictExamples.PyDict` applies them in place.
  */
module Dicts {
  import opened Wrappers
  import PySeq

  /** The keys, in insertion order. */
  function KeysOf<K(!new), V>(d: seq<(K, V)>): (ks: seq<K>)
    ensures |ks| == |d|
    ensures forall i :: 0 <= i < |d| ==> ks[i] == d[i].0
  {
    seq(|d|, i requires 0 <= i < |d| => d[i].0)
  }

  /** The values, in insertion order (`d.values()`). */
  function ValuesOf<K(!new), V>(d: seq<(K, V)>): (vs: seq<V>)
    ensures |vs| == |d|
    ensures forall i :: 0 <= i < |d| ==> vs[i] == d[i].1
  {
    seq(|d|, i requires 0 <= i < |d| => d[i].1)
  }

  /** The invariant of every dict: no key occurs twice. */
  predicate Valid<K(==,!new), V>(d: seq<(K, V)>) {
    PySeq.Distinct(KeysOf(d))
  }

  /** `k in d` */
  predicate HasKey<K(==,!new), V>(d: seq<(K, V)>, k: K) {
    k in KeysOf(d)
  }

  /** The position of the entry for `k`. */
  function Find<K(==,!new), V>(d: seq<(K, V)>, k: K): Option<nat> {
    PySeq.FirstIndex(KeysOf(d), k)
  }

  /**
    * `d.get(k)`: the value bound to `k`, or None. Read over any list of pairs,
    * the last binding of `k` is the one that counts, as when a dict is built
    * from the pairs one by one.
    */
  function Lookup<K(==,!new), V>(d: seq<(K, V)>, k: K): (r: Option<V>)
    ensures r.Some? <==> HasKey(d, k)
  {
    if |d| == 0 then None
    else
      var init := d[..|d| - 1];
      assert KeysOf(d) == KeysOf(init) + [d[|d| - 1].0];
      if d[|d| - 1].0 == k then Some(d[|d| - 1].1) else Lookup(init, k)
  }

  /** In a dict, looking up the key of any entry gives that entry's value. */
  lemma {:induction false} LookupAt<K(!new), V>(d: seq<(K, V)>, i: nat)
    requires Valid(d) && i < |d|
    ensures Lookup(d, d[i].0) == Some(d[i].1)
  {
    var init := d[..|d| - 1];
    assert d == init + [d[|d| - 1]];
    if i < |d| - 1 {
      ValidSnoc(init, d[|d| - 1]);
      PySeq.DistinctAt(KeysOf(d), i, |d| - 1);
      assert init[i] == d[i];
      LookupAt(init, i);
    }
  }

  /** In a dict, `d.get(k) == v` exactly when the pair `(k, v)` is one of its entries. */
  lemma LookupEntry<K(!new), V>(d: seq<(K, V)>, k: K, v: V)
    requires Valid(d)
    ensures Lookup(d, k) == Some(v) <==> (k, v) in d
  {
    if Lookup(d, k) == Some(v) {
      var i :| 0 <= i < |d| && KeysOf(d)[i] == k;
      LookupAt(d, i);
      assert d[i] == (k, v);
    } else if (k, v) in d {
      var i :| 0 <= i < |d| && d[i] == (k, v);
      LookupAt(d, i);
    }
  }

  /** Two dicts with the same keys in the same order and the same lookups are the same dict. */
  lemma Extensionality<K(!new), V>(d1: seq<(K, V)>, d2: seq<(K, V)>)
    requires Valid(d1) && Valid(d2)
    requires KeysOf(d1) == KeysOf(d2)
    requires forall k :: Lookup(d1, k) == Lookup(d2, k)
    ensures d1 == d2
  {
    forall i | 0 <= i < |d1| ensures d1[i] == d2[i] {
      assert KeysOf(d1)[i] == d1[i].0 && KeysOf(d2)[i] == d2[i].0;
      LookupAt(d1, i);
      LookupAt(d2, i);
    }
  }

  /** `d[k]`: the value bound to `k`; a missing key raises KeyError. */
  function GetItem<K(==,!new), V>(d: seq<(K, V)>, k: K): (r: Result<V>)
    ensures r.Ok? <==> HasKey(d, k)
    ensures r.Ok? ==> Lookup(d, k) == Some(r.value)
    ensures r.Err? ==> r.error == KeyError
  {
    match Lookup(d, k)
    case Some(v) => Ok(v)
    case None => Err(KeyError)
  }

  /** `d[k] = v`: a present key keeps its place and gets the new value; a new key is appended. */
  function SetItem<K(==,!new), V>(d: seq<(K, V)>, k: K, v: V): (r: seq<(K, V)>)
    requires Valid(d)
    ensures Valid(r)
    ensures Lookup(r, k) == Some(v)
    ensures forall k' :: k' != k ==> Lookup(r, k') == Lookup(d, k')
    ensures HasKey(d, k) ==> KeysOf(r) == KeysOf(d)
    ensures !HasKey(d, k) ==> r == d + [(k, v)]
  {
    match Find(d, k)
    case Some(i) =>
      var r := d[i := (k, v)];
      assert KeysOf(r) == KeysOf(d);
      LookupAt(r, i);
      forall k' | k' != k ensures Lookup(r, k') == Lookup(d, k') {
        LookupFromEntries(r, d, k');
      }
      r
    case None =>
      var r := d + [(k, v)];
      assert KeysOf(r) == KeysOf(d) + [k];
      assert r[..|d|] == d;
      ValidSnoc(d, (k, v));
      r
  }

  /** In a valid dict the key at position `i` is found at position `i`. */
  lemma FindAt<K(!new), V>(d: seq<(K, V)>, i: nat)
    requires Valid(d) && i < |d|
    ensures Find(d, d[i].0) == Some(i)
  {
    assert d[i].0 !in KeysOf(d)[..i] by {
      forall j | 0 <= j < i ensures KeysOf(d)[..i][j] != d[i].0 {
        assert KeysOf(d)[..i][j] == KeysOf(d)[j];
        PySeq.DistinctAt(KeysOf(d), j, i);
      }
    }
    PySeq.FirstIndexIs(KeysOf(d), d[i].0, i);
  }

  /** Assigning to the key at position `i` replaces that entry's value in place. */
  lemma SetItemAt<K(!new), V>(d: seq<(K, V)>, i: nat, v: V)
    requires Valid(d) && i < |d|
    ensures SetItem(d, d[i].0, v) == d[i := (d[i].0, v)]
  {
    FindAt(d, i);
  }

  /** Lookups agree between two dicts whose entries for `k` agree. */
  lemma LookupFromEntries<K(!new), V>(d1: seq<(K, V)>, d2: seq<(K, V)>, k: K)
    requires Valid(d1) && Valid(d2)
    requires HasKey(d1, k) <==> HasKey(d2, k)
    requires forall v :: (k, v) in d1 <==> (k, v) in d2
    ensures Lookup(d1, k) == Lookup(d2, k)
  {
    if HasKey(d1, k) {
      LookupEntry(d1, k, Lookup(d1, k).value);
      LookupEntry(d2, k, Lookup(d1, k).value);
    }
  }

  /** The entries of `d` without the one at position `i`, the others in order. */
  function RemoveAt<K(!new), V>(d: seq<(K, V)>, i: nat): seq<(K, V)>
    requires i < |d|
  {
    d[..i] + d[i + 1..]
  }

  /** Removing the entry at `i` leaves a dict without that key. */
  lemma RemoveAtLookup<K(!new), V>(d: seq<(K, V)>, i: nat)
    requires Valid(d) && i < |d|
    ensures Valid(RemoveAt(d, i))
    ensures !HasKey(RemoveAt(d, i), d[i].0)
    ensures forall k :: k != d[i].0 ==> Lookup(RemoveAt(d, i), k) == Lookup(d, k)
  {
    RemoveAtKeys(d, i);
    PySeq.DistinctRemoveAt(KeysOf(d), i);
    forall k | k != d[i].0 ensures Lookup(RemoveAt(d, i), k) == Lookup(d, k) {
      RemoveAtOther(d, i, k);
    }
  }

  lemma RemoveAtKeys<K(!new), V>(d: seq<(K, V)>, i: nat)
    requires i < |d|
    ensures KeysOf(RemoveAt(d, i)) == KeysOf(d)[..i] + KeysOf(d)[i + 1..]
  {
  }

  /** Removing the entry at `i` leaves the lookup of every other key unchanged. */
  lemma RemoveAtOther<K(!new), V>(d: seq<(K, V)>, i: nat, k: K)
    requires i < |d| && Valid(d) && Valid(RemoveAt(d, i)) && k != d[i].0
    ensures Lookup(RemoveAt(d, i), k) == Lookup(d, k)
  {
    RemoveAtKeys(d, i);
    PySeq.MembersRemoveAt(KeysOf(d), i);
    PySeq.MembersRemoveAt(d, i);
    LookupFromEntries(RemoveAt(d, i), d, k);
  }

  /** `del d[k]`: removes exactly the entry for `k`; a missing key raises KeyError. */
  function DelItem<K(==,!new), V>(d: seq<(K, V)>, k: K): (r: Result<seq<(K, V)>>)
    requires Valid(d)
    ensures r.Ok? <==> HasKey(d, k)
    ensures r.Err? ==> r.error == KeyError
    ensures r.Ok? ==> Valid(r.value) && !HasKey(r.value, k)
    ensures r.Ok? ==> forall k' :: k' != k ==> Lookup(r.value, k') == Lookup(d, k')
    ensures r.Ok? ==> exists i :: 0 <= i < |d| && d[i].0 == k && r.value == d[..i] + d[i + 1..]
  {
    match Find(d, k)
    case Some(i) =>
      RemoveAtLookup(d, i);
      Ok(RemoveAt(d, i))
    case None => Err(KeyError)
  }

  /** `d.pop(k)`: the value `k` held, and the dict without `k`; a missing key raises KeyError. */
  function Pop<K(==,!new), V>(d: seq<(K, V)>, k: K): (r: Result<(V, seq<(K, V)>)>)
    requires Valid(d)
    ensures r.Ok? <==> HasKey(d, k)
    ensures r.Err? ==> r.error == KeyError
    ensures r.Ok? ==> Lookup(d, k) == Some(r.value.0) && DelItem(d, k) == Ok(r.value.1)
  {
    match Find(d, k)
    case Some(i) =>
      LookupAt(d, i);
      Ok((d[i].1, RemoveAt(d, i)))
    case None => Err(KeyError)
  }

  /** Deleting the key at position `i` removes exactly that entry; `pop` also returns its value. */
  lemma DelItemAt<K(!new), V>(d: seq<(K, V)>, i: nat)
    requires Valid(d) && i < |d|
    ensures DelItem(d, d[i].0) == Ok(d[..i] + d[i + 1..])
    ensures Pop(d, d[i].0) == Ok((d[i].1, d[..i] + d[i + 1..]))
  {
    FindAt(d, i);
  }

  /** `d.popitem()`: the last inserted pair and the dict without it; an empty dict raises KeyError. */
  function PopItem<K(==,!new), V>(d: seq<(K, V)>): (r: Result<((K, V), seq<(K, V)>)>)
    requires Valid(d)
    ensures r.Ok? <==> |d| > 0
    ensures r.Err? ==> r.error == KeyError
    ensures r.Ok? ==> d == r.value.1 + [r.value.0]
    ensures r.Ok? ==> Valid(r.value.1) && !HasKey(r.value.1, r.value.0.0)
  {
    if |d| == 0 then Err(KeyError)
    else
      var rest := d[..|d| - 1];
      assert d == rest + [d[|d| - 1]];
      ValidSnoc(rest, d[|d| - 1]);
      Ok((d[|d| - 1], rest))
  }

  /** `popitem` undoes the insertion of a new key: it hands back the pair and the dict as it was. */
  lemma PopItemAfterInsert<K(!new), V>(d: seq<(K, V)>, k: K, v: V)
    requires Valid(d) && !HasKey(d, k)
    ensures PopItem(SetItem(d, k, v)) == Ok(((k, v), d))
  {
  }

  /** `del` undoes the insertion of a new key. */
  lemma DelItemAfterInsert<K(!new), V>(d: seq<(K, V)>, k: K, v: V)
    requires Valid(d) && !HasKey(d, k)
    ensures DelItem(SetItem(d, k, v), k) == Ok(d)
  {
    var r := SetItem(d, k, v);
    assert Find(r, k) == Some(|d|) by {
      assert KeysOf(r) == KeysOf(d) + [k];
      PySeq.FirstIndexSnoc(KeysOf(d), k);
    }
    assert RemoveAt(r, |d|) == d;
  }

  /** `d.setdefault(k, default)`: the value `k` holds, leaving `d` alone; otherwise `default`, after inserting it. */
  function SetDefault<K(==,!new), V>(d: seq<(K, V)>, k: K, default: V): (r: (V, seq<(K, V)>))
    requires Valid(d)
    ensures Valid(r.1) && Lookup(r.1, k) == Some(r.0)
    ensures HasKey(d, k) ==> Lookup(d, k) == Some(r.0) && r.1 == d
    ensures !HasKey(d, k) ==> r.0 == default && r.1 == d + [(k, default)]
  {
    match Lookup(d, k)
    case Some(v) => (v, d)
    case None => (default, SetItem(d, k, default))
  }

  /** A second `setdefault` on the same key answers as the first and changes nothing. */
  lemma SetDefaultTwice<K(!new), V>(d: seq<(K, V)>, k: K, a: V, b: V)
    requires Valid(d)
    ensures SetDefault(SetDefault(d, k, a).1, k, b) == SetDefault(d, k, a)
  {
    var r := SetDefault(d, k, a);
    assert HasKey(r.1, k);
  }

  /**
    * `a | b`, and the effect of `a.update(b)` and `a |= b`: the pairs of `b`
    * are assigned into `a` one by one, in order. The keys of `a` come first in
    * their order, then the keys new in `b`; on a shared key `b`'s value wins.
    */
  function Merge<K(==,!new), V>(a: seq<(K, V)>, b: seq<(K, V)>): (r: seq<(K, V)>)
    requires Valid(a)
    ensures Valid(r)
    ensures KeysOf(r) == PySeq.Unique(KeysOf(a) + KeysOf(b))
    ensures forall k :: Lookup(r, k) == if HasKey(b, k) then Lookup(b, k) else Lookup(a, k)
  {
    if |b| == 0 then
      assert KeysOf(a) + KeysOf(b) == KeysOf(a);
      PySeq.UniqueOfDistinct(KeysOf(a));
      a
    else
      var init, p := b[..|b| - 1], b[|b| - 1];
      assert b == init + [p];
      MergeStep(a, init, p, Merge(a, init));
      SetItem(Merge(a, init), p.0, p.1)
  }

  /** Merging nothing leaves `a` as it is. */
  lemma MergeEmpty<K(!new), V>(a: seq<(K, V)>)
    requires Valid(a)
    ensures Merge(a, []) == a
  {
  }

  /** `a | (b + [p])` assigns `p` into `a | b`: the pairs of the right operand are assigned in order. */
  lemma MergeSnoc<K(!new), V>(a: seq<(K, V)>, b: seq<(K, V)>, p: (K, V))
    requires Valid(a)
    ensures Merge(a, b + [p]) == SetItem(Merge(a, b), p.0, p.1)
  {
    assert (b + [p])[..|b|] == b;
  }

  /** Merging a two-entry dict assigns its two pairs in order. */
  lemma MergeTwo<K(!new), V>(a: seq<(K, V)>, p: (K, V), q: (K, V))
    requires Valid(a)
    ensures Valid(SetItem(a, p.0, p.1))
    ensures Merge(a, [p, q]) == SetItem(SetItem(a, p.0, p.1), q.0, q.1)
  {
    MergeSnoc(a, [], p);
    MergeSnoc(a, [p], q);
    assert [] + [p] == [p];
    assert [p] + [q] == [p, q];
  }

  /** One step of `Merge`: assigning the next pair of `b` keeps the merge's promises. */
  lemma MergeStep<K(!new), V>(a: seq<(K, V)>, init: seq<(K, V)>, p: (K, V), m: seq<(K, V)>)
    requires Valid(a) && Valid(m)
    requires KeysOf(m) == PySeq.Unique(KeysOf(a) + KeysOf(init))
    requires forall k :: Lookup(m, k) == if HasKey(init, k) then Lookup(init, k) else Lookup(a, k)
    ensures KeysOf(SetItem(m, p.0, p.1)) == PySeq.Unique(KeysOf(a) + KeysOf(init + [p]))
    ensures forall k :: Lookup(SetItem(m, p.0, p.1), k) ==
                        if HasKey(init + [p], k) then Lookup(init + [p], k) else Lookup(a, k)
  {
    MergeStepKeys(a, init, p, m);
    forall k ensures Lookup(SetItem(m, p.0, p.1), k) ==
                     if HasKey(init + [p], k) then Lookup(init + [p], k) else Lookup(a, k) {
      LookupSnoc(init, p, k);
      assert KeysOf(init + [p]) == KeysOf(init) + [p.0];
    }
  }

  lemma MergeStepKeys<K(!new), V>(a: seq<(K, V)>, init: seq<(K, V)>, p: (K, V), m: seq<(K, V)>)
    requires Valid(m)
    requires KeysOf(m) == PySeq.Unique(KeysOf(a) + KeysOf(init))
    ensures KeysOf(SetItem(m, p.0, p.1)) == PySeq.Unique(KeysOf(a) + KeysOf(init + [p]))
  {
    var ka := KeysOf(a) + KeysOf(init);
    assert KeysOf(a) + KeysOf(init + [p]) == ka + [p.0];
    PySeq.UniqueSnoc(ka, p.0);
    assert p.0 in ka <==> p.0 in PySeq.Elems(ka);
    assert HasKey(m, p.0) <==> p.0 in PySeq.Elems(KeysOf(m));
  }

  /** The last pair of a list is the binding that counts for its key. */
  lemma LookupSnoc<K(!new), V>(d: seq<(K, V)>, p: (K, V), k: K)
    ensures Lookup(d + [p], k) == if k == p.0 then Some(p.1) else Lookup(d, k)
  {
    assert (d + [p])[..|d|] == d;
  }

  /** Merging in pairs whose keys are all new just appends them. */
  lemma {:induction false} MergeFresh<K(!new), V>(a: seq<(K, V)>, b: seq<(K, V)>)
    requires Valid(a + b)
    ensures Valid(a)
    ensures Merge(a, b) == a + b
  {
    if |b| == 0 {
      assert a + b == a;
    } else {
      var init, p := b[..|b| - 1], b[|b| - 1];
      assert a + b == (a + init) + [p];
      ValidSnoc(a + init, p);
      MergeFresh(a, init);
    }
  }

  /** Appending an entry keeps a dict valid exactly when its key is new. */
  lemma ValidSnoc<K(!new), V>(d: seq<(K, V)>, p: (K, V))
    ensures Valid(d + [p]) <==> Valid(d) && !HasKey(d, p.0)
  {
    assert KeysOf(d + [p]) == KeysOf(d) + [p.0];
    PySeq.DistinctSnoc(KeysOf(d), p.0);
  }

  /** `dict(pairs)`, a dict display and a dict comprehension: the pairs assigned into an empty dict in turn. */
  function FromPairs<K(==,!new), V>(ps: seq<(K, V)>): (r: seq<(K, V)>)
    ensures Valid(r)
    ensures KeysOf(r) == PySeq.Unique(KeysOf(ps))
    ensures forall k :: Lookup(r, k) == Lookup(ps, k)
  {
    var empty: seq<(K, V)> := [];
    assert KeysOf(empty) + KeysOf(ps) == KeysOf(ps);
    Merge(empty, ps)
  }

  /** Pairs without a repeated key make the dict that holds exactly them, in that order. */
  lemma FromPairsOfValid<K(!new), V>(ps: seq<(K, V)>)
    requires Valid(ps)
    ensures FromPairs(ps) == ps
  {
    assert [] + ps == ps;
    MergeFresh([], ps);
  }

  /** Each entry `(k, v)` turned into `(v, k)`. */
  function Swap<K(!new), V>(d: seq<(K, V)>): (r: seq<(V, K)>)
    ensures |r| == |d|
    ensures forall i :: 0 <= i < |d| ==> r[i] == (d[i].1, d[i].0)
  {
    seq(|d|, i requires 0 <= i < |d| => (d[i].1, d[i].0))
  }

  /**
    * `{v: k for k, v in d.items()}`: the values become the keys, in order of
    * first occurrence; when two keys share a value the later key wins.
    */
  function Invert<K(!new), V(==,!new)>(d: seq<(K, V)>): (r: seq<(V, K)>)
    ensures Valid(r)
    ensures KeysOf(r) == PySeq.Unique(ValuesOf(d))
    ensures forall v :: Lookup(r, v) == Lookup(Swap(d), v)
  {
    assert KeysOf(Swap(d)) == ValuesOf(d);
    FromPairs(Swap(d))
  }

  /** Of the keys sharing value `d[i].1`, the inverted dict keeps the last one. */
  lemma InvertLaterWins<K(!new), V(!new)>(d: seq<(K, V)>, i: nat)
    requires i < |d|
    requires forall j :: i < j < |d| ==> d[j].1 != d[i].1
    ensures Lookup(Invert(d), d[i].1) == Some(d[i].0)
  {
    var w := Swap(d);
    assert w[i] == (d[i].1, d[i].0);
    forall j | i < j < |w| ensures w[j].0 != w[i].0 {
      assert w[j].0 == d[j].1;
    }
    LookupLast(w, i);
  }

  /** In a list of pairs, a pair whose key does not recur later is the binding that counts. */
  lemma {:induction false} LookupLast<K(!new), V>(ps: seq<(K, V)>, i: nat)
    requires i < |ps|
    requires forall j :: i < j < |ps| ==> ps[j].0 != ps[i].0
    ensures Lookup(ps, ps[i].0) == Some(ps[i].1)
  {
    var init, last := ps[..|ps| - 1], ps[|ps| - 1];
    assert ps == init + [last];
    LookupSnoc(init, last, ps[i].0);
    if i < |ps| - 1 {
      assert init[i] == ps[i];
      forall j | i < j < |init| ensures init[j].0 != init[i].0 {
        assert init[j] == ps[j];
      }
      LookupLast(init, i);
    }
  }

  /** Swapping twice gives back the pairs; swapping exchanges the keys and the values. */
  lemma SwapSwap<K(!new), V(!new)>(d: seq<(K, V)>)
    ensures Swap(Swap(d)) == d
    ensures KeysOf(Swap(d)) == ValuesOf(d) && ValuesOf(Swap(d)) == KeysOf(d)
  {
  }

  /** With unique values, inverting gives `v -> k` exactly when `d` maps `k -> v`. */
  lemma InvertLookup<K(!new), V(!new)>(d: seq<(K, V)>, k: K, v: V)
    requires Valid(d) && PySeq.Distinct(ValuesOf(d))
    ensures Lookup(Invert(d), v) == Some(k) <==> Lookup(d, k) == Some(v)
  {
    InvertIsSwap(d);
    LookupEntry(Swap(d), v, k);
    LookupEntry(d, k, v);
    if (k, v) in d {
      var i :| 0 <= i < |d| && d[i] == (k, v);
      assert Swap(d)[i] == (v, k);
    }
    if (v, k) in Swap(d) {
      var i :| 0 <= i < |d| && Swap(d)[i] == (v, k);
      assert d[i] == (k, v);
    }
  }

  /** With unique values, inverting is just swapping each pair in place. */
  lemma InvertIsSwap<K(!new), V(!new)>(d: seq<(K, V)>)
    requires PySeq.Distinct(ValuesOf(d))
    ensures Invert(d) == Swap(d)
  {
    assert KeysOf(Swap(d)) == ValuesOf(d);
    FromPairsOfValid(Swap(d));
  }

  /** With unique values, inverting twice gives back the dict. */
  lemma InvertInvolution<K(!new), V(!new)>(d: seq<(K, V)>)
    requires Valid(d) && PySeq.Distinct(ValuesOf(d))
    ensures Invert(Invert(d)) == d
  {
    InvertIsSwap(d);
    SwapSwap(d);
    InvertIsSwap(Swap(d));
  }
}
