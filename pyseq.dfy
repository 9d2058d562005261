/**
  * The sequence protocol that Python's `list` and `tuple` share: subscripts
  * with negative indices, slices with clamped bounds, `+`, `*`, `count` and
  * `index`, together with the order-preserving de-duplication that the dict
  * and set scripts rely on.
  */
module PySeq {
  import opened Wrappers

  /** No element occurs twice. */
  predicate Distinct<T(==)>(s: seq<T>) {
    forall i, j {:trigger At(s, i), At(s, j)} :: 0 <= i < j < |s| ==> At(s, i) != At(s, j)
  }

  /**
    * `s[i]`, under a name of its own: `Distinct` speaks of `At`, so the
    * solver consults it only where a proof names a position with `At` or
    * `DistinctAt`.
    */
  function At<T>(s: seq<T>, i: nat): T
    requires i < |s|
  {
    s[i]
  }

  /** Two different positions of a sequence without repeats hold different elements. */
  lemma DistinctAt<T>(s: seq<T>, i: nat, j: nat)
    requires Distinct(s) && i < |s| && j < |s| && i != j
    ensures s[i] != s[j]
  {
    if i < j {
      assert At(s, i) != At(s, j);
    } else {
      assert At(s, j) != At(s, i);
    }
  }

  /** The position a subscript `i` denotes in a sequence of length `n`, if any. */
  function NormIndex(n: nat, i: int): Option<nat> {
    if 0 <= i < n then Some(i)
    else if i < 0 && 0 <= n + i then Some(n + i)
    else None
  }

  /** `s[i]`: a negative `i` counts from the end; out of range raises IndexError. */
  function GetItem<T>(s: seq<T>, i: int): (r: Result<T>)
    ensures r.Ok? <==> -|s| <= i < |s|
    ensures 0 <= i < |s| ==> r == Ok(s[i])
    ensures -|s| <= i < 0 ==> r == Ok(s[|s| + i])
    ensures r.Err? ==> r.error == IndexError
  {
    match NormIndex(|s|, i)
    case Some(k) => Ok(s[k])
    case None => Err(IndexError)
  }

  lemma GetItemLast<T>(s: seq<T>)
    requires |s| > 0
    ensures GetItem(s, -1) == Ok(s[|s| - 1])
  {
  }

  /** A slice bound after Python's adjustment: negative counts from the end, then clamped to `[0, n]`. */
  function SliceBound(n: nat, b: int): (r: nat)
    ensures r <= n
  {
    if b < 0 then (if n + b < 0 then 0 else n + b)
    else if b > n then n
    else b
  }

  /** `s[start:stop]` with step 1; an absent bound is the start or the end. */
  function Slice<T>(s: seq<T>, start: Option<int>, stop: Option<int>): (r: seq<T>)
    ensures exists lo, hi :: 0 <= lo <= hi <= |s| && r == s[lo..hi]
  {
    var lo := if start.Some? then SliceBound(|s|, start.value) else 0;
    var hi := if stop.Some? then SliceBound(|s|, stop.value) else |s|;
    if lo < hi then s[lo..hi] else s[lo..lo]
  }

  /** Within range, `s[i:j]` holds the elements at positions `i` to `j - 1`. */
  lemma SliceWithin<T>(s: seq<T>, i: int, j: int)
    requires 0 <= i <= j <= |s|
    ensures Slice(s, Some(i), Some(j)) == s[i..j]
    ensures |Slice(s, Some(i), Some(j))| == j - i
  {
  }

  /** A slice whose bounds cross is empty: `s[i:j] == []` when `j <= i`. */
  lemma SliceCrossed<T>(s: seq<T>, i: int, j: int)
    requires 0 <= j <= i
    ensures Slice(s, Some(i), Some(j)) == []
  {
  }

  /** An omitted start is 0 and an omitted stop is the length: `s[:k] == s[..k]`, `s[k:] == s[k..]` and `s[:] == s`. */
  lemma SliceOpen<T>(s: seq<T>, k: int)
    requires 0 <= k <= |s|
    ensures Slice(s, None, Some(k)) == s[..k]
    ensures Slice(s, Some(k), None) == s[k..]
    ensures Slice(s, None, None) == s
  {
  }

  /** A negative bound counts from the end: `s[i:]` and `s[:i]` with `-len <= i < 0` use `len + i`. */
  lemma SliceNegative<T>(s: seq<T>, i: int, b: Option<int>)
    requires -|s| <= i < 0
    ensures Slice(s, Some(i), b) == Slice(s, Some(|s| + i), b)
    ensures Slice(s, b, Some(i)) == Slice(s, b, Some(|s| + i))
  {
  }

  /** Out-of-range bounds are clamped: beyond the length acts as the length, below `-len` acts as 0. */
  lemma SliceClamp<T>(s: seq<T>, i: int, b: Option<int>)
    ensures i > |s| ==> Slice(s, Some(i), b) == Slice(s, Some(|s|), b) && Slice(s, b, Some(i)) == Slice(s, b, Some(|s|))
    ensures i < -|s| ==> Slice(s, Some(i), b) == Slice(s, Some(0), b) && Slice(s, b, Some(i)) == Slice(s, b, Some(0))
  {
  }

  /** `s[:k] + s[k:] == s` for every integer `k`, negative and out of range included. */
  lemma SliceSplit<T>(s: seq<T>, k: int)
    ensures Slice(s, None, Some(k)) + Slice(s, Some(k), None) == s
  {
    var b := SliceBound(|s|, k);
    assert Slice(s, None, Some(k)) == s[..b];
    assert Slice(s, Some(k), None) == s[b..];
  }

  /** Subscripts and slices of a five-element sequence: `[0]`, `[2]`, `[-1]`, `[1:4]`, `[:3]` and `[3:]`. */
  lemma AccessOfFive<T>(a: T, b: T, c: T, d: T, e: T)
    ensures GetItem([a, b, c, d, e], 0) == Ok(a) && GetItem([a, b, c, d, e], 2) == Ok(c)
    ensures GetItem([a, b, c, d, e], -1) == Ok(e)
    ensures Slice([a, b, c, d, e], Some(1), Some(4)) == [b, c, d]
    ensures Slice([a, b, c, d, e], None, Some(3)) == [a, b, c]
    ensures Slice([a, b, c, d, e], Some(3), None) == [d, e]
  {
  }

  /** A prefix one longer is the prefix with the next element appended; the whole sequence is its longest prefix. */
  lemma TakeSnoc<T>(s: seq<T>, i: nat)
    requires i < |s|
    ensures s[..i + 1] == s[..i] + [s[i]]
    ensures s[..|s|] == s
  {
  }

  /** `a + b`: the elements of `a` followed by those of `b`. */
  function Concat<T>(a: seq<T>, b: seq<T>): (r: seq<T>)
    ensures |r| == |a| + |b|
    ensures forall i :: 0 <= i < |a| ==> r[i] == a[i]
    ensures forall j :: 0 <= j < |b| ==> r[|a| + j] == b[j]
  {
    a + b
  }

  /** `s * k`: `k` copies of `s` back to back; a count of zero or less gives the empty sequence. */
  function Repeat<T>(s: seq<T>, k: int): seq<T>
    decreases if k < 0 then 0 else k
  {
    if k <= 0 then [] else s + Repeat(s, k - 1)
  }

  /** `s * k` has `k * len(s)` elements, and none when `k <= 0`. */
  lemma {:induction false} RepeatLength<T>(s: seq<T>, k: int)
    decreases if k < 0 then 0 else k
    ensures |Repeat(s, k)| == if k <= 0 then 0 else k * |s|
  {
    if k > 0 {
      RepeatLength(s, k - 1);
      MulStep(k, |s|);
    }
  }

  /** Position `i` of `s * k` holds `s[i % |s|]`. */
  lemma {:induction false} RepeatIndex<T>(s: seq<T>, k: int)
    decreases if k < 0 then 0 else k
    ensures |Repeat(s, k)| > 0 ==> |s| > 0
    ensures forall i :: 0 <= i < |Repeat(s, k)| ==> Repeat(s, k)[i] == s[i % |s|]
  {
    if k > 0 {
      var rest := Repeat(s, k - 1);
      RepeatIndex(s, k - 1);
      RepeatStep(s, rest);
    }
  }

  /** One more copy of `s` in front of a run of copies is still a run of copies. */
  lemma RepeatStep<T>(s: seq<T>, rest: seq<T>)
    requires |rest| > 0 ==> |s| > 0
    requires forall i :: 0 <= i < |rest| ==> rest[i] == s[i % |s|]
    ensures forall i :: 0 <= i < |s + rest| ==> (s + rest)[i] == s[i % |s|]
  {
    forall i | 0 <= i < |s + rest| ensures (s + rest)[i] == s[i % |s|] {
      if i < |s| {
        ModUnique(i, |s|, 0, i);
      } else {
        assert (s + rest)[i] == rest[i - |s|];
        ModShift(i, |s|);
      }
    }
  }

  /** `k` times `c` is one `c` more than `k - 1` times `c`. */
  lemma MulStep(k: int, c: int)
    ensures k * c == c + (k - 1) * c
  {
  }

  /** Shifting by one period leaves a remainder unchanged. */
  lemma ModShift(i: int, m: int)
    requires 0 < m <= i
    ensures (i - m) % m == i % m
  {
    ModUnique(i - m, m, i / m - 1, i % m);
  }

  /** `s.count(x)`: how many positions hold `x`. */
  function Count<T(==)>(s: seq<T>, x: T): (r: nat)
    ensures r == multiset(s)[x]
  {
    if |s| == 0 then 0
    else
      assert s == s[..|s| - 1] + [s[|s| - 1]];
      Count(s[..|s| - 1], x) + (if s[|s| - 1] == x then 1 else 0)
  }

  /** Counting after appending one element. */
  lemma CountSnoc<T>(w: seq<T>, x: T, c: T)
    ensures Count(w + [x], c) == Count(w, c) + (if x == c then 1 else 0)
    ensures c in w + [x] <==> c in w || c == x
    ensures c !in w ==> Count(w, c) == 0
  {
    assert (w + [x])[..|w|] == w;
  }

  /** The first position holding `x`, or None when `x` does not occur. */
  function FirstIndex<T(==)>(s: seq<T>, x: T): (r: Option<nat>)
    ensures r.Some? <==> x in s
    ensures r.Some? ==> r.value < |s| && s[r.value] == x && x !in s[..r.value]
  {
    var r := FirstIndexFrom(s, x, 0);
    if r.Some? then
      assert forall j :: 0 <= j < r.value ==> s[..r.value][j] == s[j];
      r
    else r
  }

  /** The first position from `i` on holding `x`, scanning left to right. */
  function FirstIndexFrom<T(==)>(s: seq<T>, x: T, i: nat): (r: Option<nat>)
    requires i <= |s|
    decreases |s| - i
    ensures r.Some? <==> exists j :: i <= j < |s| && s[j] == x
    ensures r.Some? ==> i <= r.value < |s| && s[r.value] == x
    ensures r.Some? ==> forall j :: i <= j < r.value ==> s[j] != x
  {
    if i == |s| then None
    else if s[i] == x then Some(i)
    else FirstIndexFrom(s, x, i + 1)
  }

  /** `s.index(x)`: the first position holding `x`; raises ValueError when there is none. */
  function Index<T(==)>(s: seq<T>, x: T): (r: Result<nat>)
    ensures r.Ok? <==> x in s
    ensures r.Ok? ==> r.value < |s| && s[r.value] == x
    ensures r.Ok? ==> forall j :: 0 <= j < r.value ==> s[j] != x
    ensures r.Err? ==> r.error == ValueError
  {
    match FirstIndex(s, x)
    case Some(i) =>
      assert forall j :: 0 <= j < i ==> s[..i][j] == s[j];
      Ok(i)
    case None => Err(ValueError)
  }

  /** Dropping position `i` keeps exactly the elements other than `s[i]`, and maybe `s[i]` itself when it recurs. */
  lemma MembersRemoveAt<T>(s: seq<T>, i: nat)
    requires i < |s|
    ensures forall x :: x in s[..i] + s[i + 1..] ==> x in s
    ensures forall x :: x in s && x != s[i] ==> x in s[..i] + s[i + 1..]
  {
    assert s == s[..i] + [s[i]] + s[i + 1..];
  }

  /** Dropping one position of a sequence without repeats leaves one without repeats, and without that element. */
  lemma DistinctRemoveAt<T>(s: seq<T>, i: nat)
    requires Distinct(s) && i < |s|
    ensures Distinct(s[..i] + s[i + 1..])
    ensures s[i] !in s[..i] + s[i + 1..]
  {
    var r := s[..i] + s[i + 1..];
    forall a, b | 0 <= a < b < |r| ensures At(r, a) != At(r, b) {
      var a', b' := if a < i then a else a + 1, if b < i then b else b + 1;
      assert r[a] == s[a'] && r[b] == s[b'];
      DistinctAt(s, a', b');
    }
    forall j | 0 <= j < |r| ensures r[j] != s[i] {
      var j' := if j < i then j else j + 1;
      assert r[j] == s[j'];
      DistinctAt(s, j', i);
    }
  }

  /** The set of elements of a sequence, as Python's `set(s)` builds it. */
  function Elems<T>(s: seq<T>): set<T> {
    set x | x in s
  }

  /** The elements of `s` in the order of their first occurrence, each once. */
  function Unique<T(==)>(s: seq<T>): (r: seq<T>)
    ensures Distinct(r)
    ensures Elems(r) == Elems(s)
    ensures |r| <= |s|
  {
    if |s| == 0 then []
    else
      var init, last := s[..|s| - 1], s[|s| - 1];
      assert s == init + [last];
      assert Elems(s) == Elems(init) + {last};
      if last in init then Unique(init)
      else
        assert Elems(Unique(init) + [last]) == Elems(Unique(init)) + {last};
        assert last !in Unique(init) by {
          assert last !in Elems(init);
        }
        DistinctSnoc(Unique(init), last);
        Unique(init) + [last]
  }

  /** Appending an element keeps a sequence free of repeats exactly when the element is new. */
  lemma DistinctSnoc<T>(s: seq<T>, x: T)
    ensures Distinct(s + [x]) <==> Distinct(s) && x !in s
  {
    var r := s + [x];
    if Distinct(r) {
      forall a, b | 0 <= a < b < |s| ensures At(s, a) != At(s, b) {
        DistinctAt(r, a, b);
      }
      forall a | 0 <= a < |s| ensures s[a] != x {
        DistinctAt(r, a, |s|);
      }
    }
    if Distinct(s) && x !in s {
      forall a, b | 0 <= a < b < |r| ensures At(r, a) != At(r, b) {
        if b < |s| {
          DistinctAt(s, a, b);
        }
      }
    }
  }

  /** Adding one element to the input adds it to the end of `Unique`, unless it was already there. */
  lemma UniqueSnoc<T>(s: seq<T>, x: T)
    ensures Unique(s + [x]) == if x in s then Unique(s) else Unique(s) + [x]
  {
    assert (s + [x])[..|s|] == s;
  }

  /** Appending elements that were all seen already leaves the de-duplication as it was. */
  lemma {:induction false} UniqueAppendSeen<T>(s: seq<T>, t: seq<T>)
    requires forall i :: 0 <= i < |t| ==> t[i] in s
    ensures Unique(s + t) == Unique(s)
  {
    if |t| == 0 {
      assert s + t == s;
    } else {
      var init, last := t[..|t| - 1], t[|t| - 1];
      assert s + t == (s + init) + [last];
      assert last in s + init;
      UniqueSnoc(s + init, last);
      UniqueAppendSeen(s, init);
    }
  }

  /** A sequence without repeats is its own de-duplication. */
  lemma {:induction false} UniqueOfDistinct<T>(s: seq<T>)
    requires Distinct(s)
    ensures Unique(s) == s
  {
    if |s| > 0 {
      var init := s[..|s| - 1];
      assert s == init + [s[|s| - 1]];
      DistinctSnoc(init, s[|s| - 1]);
      UniqueOfDistinct(init);
    }
  }

  /** `Unique` keeps first-occurrence order: earlier in the output means first seen earlier in the input. */
  lemma {:induction false} UniqueOrder<T>(s: seq<T>, i: nat, j: nat)
    requires i < j < |Unique(s)|
    ensures Unique(s)[i] in s && Unique(s)[j] in s
    ensures FirstIndex(s, Unique(s)[i]).value < FirstIndex(s, Unique(s)[j]).value
  {
    assert Unique(s)[i] in Elems(Unique(s)) && Unique(s)[j] in Elems(Unique(s));
    var init, last := s[..|s| - 1], s[|s| - 1];
    assert s == init + [last];
    FirstIndexSnoc(init, last);
    UniqueSnoc(init, last);
    if j < |Unique(init)| {
      UniqueOrder(init, i, j);
    } else {
      var u := Unique(init);
      assert u[i] in Elems(u);
      assert Unique(s)[i] == u[i] && u[i] in init;
    }
  }

  /** The first occurrence is pinned down by two facts: `x` is at `i` and nowhere before. */
  lemma FirstIndexIs<T>(s: seq<T>, x: T, i: nat)
    requires i < |s| && s[i] == x && x !in s[..i]
    ensures FirstIndex(s, x) == Some(i)
  {
    var v := FirstIndex(s, x).value;
    forall j | 0 <= j < i ensures s[j] != x {
      assert s[..i][j] == s[j];
    }
    forall j | 0 <= j < v ensures s[j] != x {
      assert s[..v][j] == s[j];
    }
  }

  /** Appending after the last element does not move the first occurrence of an element already present. */
  lemma FirstIndexSnoc<T>(s: seq<T>, y: T)
    ensures forall x :: x in s ==> FirstIndex(s + [y], x) == FirstIndex(s, x)
    ensures y !in s ==> FirstIndex(s + [y], y) == Some(|s|)
  {
    forall x | x in s ensures FirstIndex(s + [y], x) == FirstIndex(s, x) {
      var b := FirstIndex(s, x).value;
      assert (s + [y])[..b] == s[..b];
      FirstIndexIs(s + [y], x, b);
    }
    if y !in s {
      assert (s + [y])[..|s|] == s;
      FirstIndexIs(s + [y], y, |s|);
    }
  }

  /** A positive divisor makes a product of a nonzero integer at least that large in size. */
  lemma MulBound(d: int, m: int)
    requires m > 0
    ensures d >= 1 ==> d * m >= m
    ensures d <= -1 ==> d * m <= -m
  {
    if d >= 1 {
      assert d * m == (d - 1) * m + m;
    } else if d <= -1 {
      assert d * m == (d + 1) * m - m;
    }
  }

  /** Euclidean remainder is determined by any quotient-remainder decomposition. */
  lemma ModUnique(x: int, m: int, q: int, r: int)
    requires 0 <= r < m && x == q * m + r
    ensures x % m == r
  {
    var q', r' := x / m, x % m;
    assert (q - q') * m == r' - r;
    MulBound(q - q', m);
  }
}
