/**
  * Python's `set`: an unordered collection without repeats. The algebra and
  * the predicates are functions on Dafny sets; `PySet` is a set object that
  * `add`, `remove`, `discard`, `update` and `pop` change in place; the two
  * loops of the set script that keep a `seen` set are methods.
  */
module Sets {
  import opened Wrappers
  import PySeq
  import Dicts

  /** `set(s)` keeps one copy of each element: its size is the number of distinct elements. */
  lemma FromSeqSize<T>(s: seq<T>)
    ensures forall x :: x in PySeq.Elems(s) <==> x in s
    ensures |PySeq.Elems(s)| == |PySeq.Unique(s)|
    ensures |PySeq.Elems(s)| <= |s|
  {
    DistinctSize(PySeq.Unique(s));
  }

  /** A sequence without repeats has as many elements as its set. */
  lemma {:induction false} DistinctSize<T>(s: seq<T>)
    requires PySeq.Distinct(s)
    ensures |PySeq.Elems(s)| == |s|
  {
    if |s| > 0 {
      var init, last := s[..|s| - 1], s[|s| - 1];
      assert s == init + [last];
      PySeq.DistinctSnoc(init, last);
      assert PySeq.Elems(s) == PySeq.Elems(init) + {last};
      assert last !in PySeq.Elems(init);
      DistinctSize(init);
    }
  }

  /** `a | b` */
  function Union<T(!new)>(a: set<T>, b: set<T>): (r: set<T>)
    ensures forall x :: x in r <==> x in a || x in b
  {
    a + b
  }

  /** `a & b` */
  function Intersection<T(!new)>(a: set<T>, b: set<T>): (r: set<T>)
    ensures forall x :: x in r <==> x in a && x in b
  {
    a * b
  }

  /** `a - b` */
  function Difference<T(!new)>(a: set<T>, b: set<T>): (r: set<T>)
    ensures forall x :: x in r <==> x in a && x !in b
  {
    a - b
  }

  /** `a ^ b`: the elements in exactly one of the two sets. */
  function SymmetricDifference<T(!new)>(a: set<T>, b: set<T>): (r: set<T>)
    ensures forall x :: x in r <==> (x in a <==> x !in b)
  {
    (a - b) + (b - a)
  }

  /** The symmetric difference is the union without the intersection, and it is symmetric. */
  lemma SymmetricDifferenceIs<T(!new)>(a: set<T>, b: set<T>)
    ensures SymmetricDifference(a, b) == Difference(Union(a, b), Intersection(a, b))
    ensures SymmetricDifference(a, b) == SymmetricDifference(b, a)
  {
  }

  /** Union and intersection are bounded by their operands; difference and intersection split `a`. */
  lemma AlgebraBounds<T(!new)>(a: set<T>, b: set<T>)
    ensures a <= Union(a, b) && b <= Union(a, b)
    ensures Intersection(a, b) <= a && Intersection(a, b) <= b
    ensures Difference(a, b) + Intersection(a, b) == a
    ensures Difference(a, b) * Intersection(a, b) == {}
  {
  }

  /** `small.issubset(big)` */
  predicate IsSubset<T>(small: set<T>, big: set<T>) {
    forall x :: x in small ==> x in big
  }

  /** `big.issuperset(small)` */
  predicate IsSuperset<T>(big: set<T>, small: set<T>) {
    forall x :: x in small ==> x in big
  }

  /** `issuperset` is `issubset` read the other way, and both are Dafny's `<=`. */
  lemma SubsetSuperset<T>(small: set<T>, big: set<T>)
    ensures IsSubset(small, big) <==> IsSuperset(big, small)
    ensures IsSubset(small, big) <==> small <= big
  {
  }

  /** `a.isdisjoint(b)`: no common elements. */
  predicate IsDisjoint<T>(a: set<T>, b: set<T>) {
    forall x :: x in a ==> x !in b
  }

  /** Two sets are disjoint exactly when their intersection is empty. */
  lemma DisjointIffEmptyIntersection<T(!new)>(a: set<T>, b: set<T>)
    ensures IsDisjoint(a, b) <==> Intersection(a, b) == {}
  {
    if !IsDisjoint(a, b) {
      var x :| x in a && x in b;
      assert x in Intersection(a, b);
    }
  }

  /** The square of `x`. */
  function Square(x: int): int {
    x * x
  }

  /** `{x * x for x in range(lo, hi)}` */
  function SquareSet(lo: int, hi: int): (r: set<int>)
    ensures forall x :: lo <= x < hi ==> Square(x) in r
    ensures forall y :: y in r ==> exists x :: lo <= x < hi && y == Square(x)
  {
    set x | lo <= x < hi :: Square(x)
  }

  /** A set object, changed in place by its mutating methods. */
  class PySet<T(==)> {
    var elems: set<T>

    /** `set(iterable)` and a set display: one copy of each element. */
    constructor (items: seq<T>)
      ensures elems == PySeq.Elems(items)
    {
      elems := PySeq.Elems(items);
    }

    /** `x in s` */
    method Contains(x: T) returns (b: bool)
      ensures b <==> x in elems
    {
      b := x in elems;
    }

    /** `s.add(x)`; adding a present element changes nothing. */
    method Add(x: T)
      modifies this
      ensures elems == old(elems) + {x}
    {
      elems := elems + {x};
    }

    /** `s.remove(x)`: removes `x`; an absent `x` raises KeyError and nothing changes. */
    method Remove(x: T) returns (r: Outcome)
      modifies this
      ensures x in old(elems) ==> r == Pass && elems == old(elems) - {x}
      ensures x !in old(elems) ==> r == Fail(KeyError) && elems == old(elems)
    {
      if x in elems {
        elems := elems - {x};
        r := Pass;
      } else {
        r := Fail(KeyError);
      }
    }

    /** `s.discard(x)`: removes `x` if present, never fails. */
    method Discard(x: T)
      modifies this
      ensures elems == old(elems) - {x}
      ensures x !in old(elems) ==> elems == old(elems)
    {
      elems := elems - {x};
    }

    /** `s.update(items)`: adds every element of `items`. */
    method Update(items: seq<T>)
      modifies this
      ensures elems == old(elems) + PySeq.Elems(items)
    {
      elems := elems + PySeq.Elems(items);
    }

    /** `s.pop()`: removes and returns some element; KeyError, and nothing changes, on an empty set. */
    method Pop() returns (r: Result<T>)
      modifies this
      ensures r.Ok? <==> old(elems) != {}
      ensures r.Ok? ==> r.value in old(elems) && elems == old(elems) - {r.value}
      ensures r.Err? ==> r.error == KeyError && elems == old(elems)
    {
      if elems == {} {
        r := Err(KeyError);
      } else {
        var x :| x in elems;
        elems := elems - {x};
        r := Ok(x);
      }
    }
  }

  /**
    * Deduplicate while keeping order: an item not yet in `seen` is added to
    * `seen` and appended to the output.
    */
  method OrderedUnique<T(==)>(items: seq<T>) returns (orderedUnique: seq<T>, seen: set<T>)
    ensures orderedUnique == PySeq.Unique(items)
    ensures seen == PySeq.Elems(items)
  {
    seen := {};
    orderedUnique := [];
    for i := 0 to |items|
      invariant orderedUnique == PySeq.Unique(items[..i])
      invariant seen == PySeq.Elems(orderedUnique)
    {
      var item := items[i];
      PySeq.TakeSnoc(items, i);
      PySeq.UniqueSnoc(items[..i], item);
      assert item in seen <==> item in items[..i];
      if item !in seen {
        seen := seen + {item};
        orderedUnique := orderedUnique + [item];
      }
    }
    assert items[..|items|] == items;
  }

  /** The elements occurring at least twice. */
  function DuplicatesOf<T(==)>(s: seq<T>): set<T> {
    set x | x in s && PySeq.Count(s, x) >= 2
  }

  /**
    * Find duplicates: an element already in `seen` goes into `dups`, any
    * other into `seen`.
    */
  method FindDuplicates<T(==)>(nums: seq<T>) returns (dups: set<T>, seen: set<T>)
    ensures dups == DuplicatesOf(nums)
    ensures seen == PySeq.Elems(nums)
    ensures forall x :: x in dups <==> PySeq.Count(nums, x) >= 2
  {
    dups := {};
    seen := {};
    for i := 0 to |nums|
      invariant dups == DuplicatesOf(nums[..i])
      invariant seen == PySeq.Elems(nums[..i])
    {
      var n := nums[i];
      PySeq.TakeSnoc(nums, i);
      DuplicatesStep(nums[..i], n);
      if n in seen {
        dups := dups + {n};
      } else {
        seen := seen + {n};
      }
    }
    assert nums[..|nums|] == nums;
    DuplicatesMeaning(nums);
  }

  /** An element is a duplicate exactly when it occurs at least twice. */
  lemma DuplicatesMeaning<T>(s: seq<T>)
    ensures forall x :: x in DuplicatesOf(s) <==> PySeq.Count(s, x) >= 2
  {
    forall x ensures x in DuplicatesOf(s) <==> PySeq.Count(s, x) >= 2 {
      CountPositive(s, x);
    }
  }

  /** One turn of the duplicate loop: `w + [n]` gains `n` as a duplicate exactly when `n` was seen before. */
  lemma DuplicatesStep<T>(w: seq<T>, n: T)
    ensures PySeq.Elems(w + [n]) == PySeq.Elems(w) + {n}
    ensures n in PySeq.Elems(w) ==> DuplicatesOf(w + [n]) == DuplicatesOf(w) + {n}
    ensures n !in PySeq.Elems(w) ==> DuplicatesOf(w + [n]) == DuplicatesOf(w)
  {
    var e := if n in PySeq.Elems(w) then DuplicatesOf(w) + {n} else DuplicatesOf(w);
    forall x ensures x in DuplicatesOf(w + [n]) <==> x in e {
      PySeq.CountSnoc(w, n, x);
      CountPositive(w, x);
    }
  }

  /** An element occurs at least once exactly when it is in the sequence. */
  lemma CountPositive<T>(s: seq<T>, x: T)
    ensures PySeq.Count(s, x) >= 1 <==> x in s
  {
    assert x in s <==> x in multiset(s);
  }

  /** `basic_set`: built from `{1, 2, 3, 3, 4}`, then `add(5)`, `remove(2)`, `discard(999)`; then `3 in` and `10 in`. */
  method BasicSetExample() returns (final: set<int>, has3: bool, has10: bool)
    ensures final == {1, 3, 4, 5}
    ensures has3 && !has10
  {
    var s := new PySet([1, 2, 3, 3, 4]);
    assert s.elems == {1, 2, 3, 4};
    s.Add(5);
    var removed := s.Remove(2);
    s.Discard(999);
    has3 := s.Contains(3);
    has10 := s.Contains(10);
    final := s.elems;
  }

  /** The four operations on `a = {1, 2, 3}` and `b = {3, 4, 5}`. */
  lemma AlgebraExample()
    ensures Union({1, 2, 3}, {3, 4, 5}) == {1, 2, 3, 4, 5}
    ensures Intersection({1, 2, 3}, {3, 4, 5}) == {3}
    ensures Difference({1, 2, 3}, {3, 4, 5}) == {1, 2}
    ensures SymmetricDifference({1, 2, 3}, {3, 4, 5}) == {1, 2, 4, 5}
  {
  }

  /** `set(numbers)` for `[1, 2, 2, 3, 4, 4, 5]`, and `set(["a", "b", "a", "c"])` then `update(["d", "e"])`. */
  method FromListExample() returns (unique: set<int>, letters: set<string>)
    ensures unique == {1, 2, 3, 4, 5}
    ensures letters == {"a", "b", "c", "d", "e"}
  {
    unique := PySeq.Elems([1, 2, 2, 3, 4, 4, 5]);
    var s := new PySet(["a", "b", "a", "c"]);
    s.Update(["d", "e"]);
    letters := s.elems;
  }

  /** `x.discard(99)` on `{1, 2, 3}` leaves it as it was. */
  method DiscardExample() returns (x: set<int>)
    ensures x == {1, 2, 3}
  {
    var s := new PySet([1, 2, 3]);
    s.Discard(99);
    x := s.elems;
  }

  /** `vals.pop()` on `{"red", "green", "blue"}`: one of the three comes out, the other two stay. */
  method PopExample() returns (removed: string, remaining: set<string>)
    ensures removed in {"red", "green", "blue"}
    ensures remaining == {"red", "green", "blue"} - {removed} && |remaining| == 2
  {
    var vals := new PySet(["red", "green", "blue"]);
    ElemsOfThree("red", "green", "blue");
    var r := vals.Pop();
    removed, remaining := r.value, vals.elems;
    RemoveOneOfThree("red", "green", "blue", removed);
  }

  /** The set of a three-element list. */
  lemma ElemsOfThree<T>(a: T, b: T, c: T)
    ensures PySeq.Elems([a, b, c]) == {a, b, c}
  {
  }

  /** Taking one of three distinct elements out of their set leaves two. */
  lemma RemoveOneOfThree<T>(a: T, b: T, c: T, x: T)
    requires a != b && a != c && b != c && x in {a, b, c}
    ensures |{a, b, c} - {x}| == 2
  {
    if x == a {
      assert {a, b, c} - {x} == {b, c};
    } else if x == b {
      assert {a, b, c} - {x} == {a, c};
    } else {
      assert {a, b, c} - {x} == {a, b};
    }
  }

  /** `issubset`, `issuperset` and `isdisjoint` on the script's sets. */
  lemma PredicateExample()
    ensures IsSubset({1, 2}, {1, 2, 3, 4}) && IsSuperset({1, 2, 3, 4}, {1, 2})
    ensures IsDisjoint({1, 2}, {3, 4}) && !IsDisjoint({1, 2}, {2, 3})
  {
    assert 2 in {1, 2} && 2 in {2, 3};
  }

  /** `{x * x for x in range(1, 6)}` */
  lemma SquareSetExample()
    ensures SquareSet(1, 6) == {1, 4, 9, 16, 25}
  {
    var r := SquareSet(1, 6);
    assert Square(1) == 1 && Square(2) == 4 && Square(3) == 9 && Square(4) == 16 && Square(5) == 25;
    forall y | y in r ensures y in {1, 4, 9, 16, 25} {
      var x :| 1 <= x < 6 && y == Square(x);
      assert x == 1 || x == 2 || x == 3 || x == 4 || x == 5;
    }
  }

  /** Ordered dedupe of `["a", "b", "a", "c", "b", "d"]` gives `["a", "b", "c", "d"]`. */
  method OrderedUniqueExample() returns (orderedUnique: seq<string>)
    ensures orderedUnique == ["a", "b", "c", "d"]
  {
    var seen;
    orderedUnique, seen := OrderedUnique(["a", "b", "a", "c", "b", "d"]);
    UniqueOfShape("a", "b", "c", "d");
  }

  /** The dedupe of a list shaped like `["a", "b", "a", "c", "b", "d"]` over four distinct items. */
  lemma UniqueOfShape<T>(a: T, b: T, c: T, d: T)
    requires a != b && a != c && a != d && b != c && b != d && c != d
    ensures PySeq.Unique([a, b, a, c, b, d]) == [a, b, c, d]
  {
    UniqueOfPrefix(a, b, c);
    assert [a, b, a, c, b, d] == [a, b, a, c, b] + [d];
    PySeq.UniqueSnoc([a, b, a, c, b], d);
  }

  /** The first five items of that list leave `[a, b, c]`. */
  lemma UniqueOfPrefix<T>(a: T, b: T, c: T)
    requires a != b && a != c && b != c
    ensures PySeq.Unique([a, b, a, c, b]) == [a, b, c]
  {
    UniqueOfRepeat(a, b);
    assert [a, b, a, c] == [a, b, a] + [c];
    PySeq.UniqueSnoc([a, b, a], c);
    assert [a, b, a, c, b] == [a, b, a, c] + [b];
    PySeq.UniqueSnoc([a, b, a, c], b);
  }

  /** `[a, b, a]` leaves `[a, b]`. */
  lemma UniqueOfRepeat<T>(a: T, b: T)
    requires a != b
    ensures PySeq.Unique([a, b, a]) == [a, b]
  {
    PySeq.UniqueOfDistinct([a, b]);
    assert [a, b, a] == [a, b] + [a];
    PySeq.UniqueSnoc([a, b], a);
  }

  /** Duplicates of `[1, 2, 2, 3, 3, 3, 4]`: `{2, 3}`, with every element seen. */
  method DuplicatesExample() returns (dups: set<int>, seen: set<int>)
    ensures dups == {2, 3} && seen == {1, 2, 3, 4}
  {
    dups, seen := FindDuplicates([1, 2, 2, 3, 3, 3, 4]);
    DuplicatesOfShape(1, 2, 3, 4);
  }

  /** The duplicates of a list shaped like `[1, 2, 2, 3, 3, 3, 4]` over four distinct items. */
  lemma DuplicatesOfShape<T>(w: T, x: T, y: T, z: T)
    requires w != x && w != y && w != z && x != y && x != z && y != z
    ensures DuplicatesOf([w, x, x, y, y, y, z]) == {x, y}
    ensures PySeq.Elems([w, x, x, y, y, y, z]) == {w, x, y, z}
  {
    var s := [w, x, x, y, y, y, z];
    CountsOfShape(w, x, y, z);
    forall e ensures e in DuplicatesOf(s) <==> e in {x, y} {
      CountPositive(s, e);
    }
  }

  /** How often each item occurs in a list shaped like `[1, 2, 2, 3, 3, 3, 4]`. */
  lemma CountsOfShape<T>(w: T, x: T, y: T, z: T)
    requires w != x && w != y && w != z && x != y && x != z && y != z
    ensures PySeq.Count([w, x, x, y, y, y, z], w) == 1 && PySeq.Count([w, x, x, y, y, y, z], z) == 1
    ensures PySeq.Count([w, x, x, y, y, y, z], x) == 2 && PySeq.Count([w, x, x, y, y, y, z], y) == 3
    ensures forall e :: e !in {w, x, y, z} ==> PySeq.Count([w, x, x, y, y, y, z], e) == 0
  {
    assert multiset([w, x, x, y, y, y, z]) == multiset{w, x, x, y, y, y, z};
  }

  /** `frozenset([1, 2, 2, 3])` used as a dict key finds its value. */
  lemma FrozenSetKey()
    ensures PySeq.Elems([1, 2, 2, 3]) == {1, 2, 3}
    ensures Dicts.GetItem([(PySeq.Elems([1, 2, 2, 3]), "immutable set key")], PySeq.Elems([1, 2, 2, 3])) == Ok("immutable set key")
  {
    var fs := PySeq.Elems([1, 2, 2, 3]);
    Dicts.LookupAt([(fs, "immutable set key")], 0);
  }
}
