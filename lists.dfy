/**
  * Python's `list`: a mutable sequence. Each in-place operation is first a
  * function from the old contents to the new ones, whose properties are
  * proved here; `PyList` is the list object, and each of its methods is
  * proved to change its contents exactly as that function says.
  */
module Lists {
  import opened Wrappers
  import PySeq
  import Sets

  /** `l[i] = v`: the new contents, or IndexError when `i` is out of range. */
  function Assigned<T>(s: seq<T>, i: int, v: T): (r: Result<seq<T>>)
    ensures r.Ok? <==> -|s| <= i < |s|
    ensures r.Err? ==> r.error == IndexError
    ensures r.Ok? ==> |r.value| == |s| && PySeq.GetItem(r.value, i) == Ok(v)
    ensures r.Ok? ==> forall k :: 0 <= k < |s| && PySeq.NormIndex(|s|, i) != Some(k) ==> r.value[k] == s[k]
  {
    match PySeq.NormIndex(|s|, i)
    case Some(k) => Ok(s[k := v])
    case None => Err(IndexError)
  }

  /**
    * `l.insert(i, x)`: `x` goes to position `i`, adjusted like a slice bound
    * (negative counts from the end, then clamped to the list), and the
    * elements from there on move one place right.
    */
  function Inserted<T>(s: seq<T>, i: int, x: T): (r: seq<T>)
    ensures |r| == |s| + 1
    ensures r[PySeq.SliceBound(|s|, i)] == x
    ensures forall k :: 0 <= k < PySeq.SliceBound(|s|, i) ==> r[k] == s[k]
    ensures forall k :: PySeq.SliceBound(|s|, i) <= k < |s| ==> r[k + 1] == s[k]
  {
    var p := PySeq.SliceBound(|s|, i);
    s[..p] + [x] + s[p..]
  }

  /**
    * `l.remove(x)`: drops the first occurrence of `x` and nothing else;
    * ValueError when `x` does not occur.
    */
  function Removed<T(==)>(s: seq<T>, x: T): (r: Result<seq<T>>)
    ensures r.Ok? <==> x in s
    ensures r.Err? ==> r.error == ValueError
    ensures r.Ok? ==> |r.value| == |s| - 1 && multiset(r.value) == multiset(s) - multiset{x}
    ensures r.Ok? ==> forall k :: 0 <= k < PySeq.Index(s, x).value ==> r.value[k] == s[k]
    ensures r.Ok? ==> forall k :: PySeq.Index(s, x).value <= k < |r.value| ==> r.value[k] == s[k + 1]
  {
    match PySeq.Index(s, x)
    case Ok(k) =>
      CutAt(s, k);
      Ok(s[..k] + s[k + 1..])
    case Err(e) => Err(e)
  }

  /** Cutting out position `k` takes one copy of `s[k]` out of the multiset. */
  lemma CutAt<T>(s: seq<T>, k: nat)
    requires k < |s|
    ensures multiset(s[..k] + s[k + 1..]) == multiset(s) - multiset{s[k]}
  {
    assert s == s[..k] + [s[k]] + s[k + 1..];
  }

  /** Inserting `x` where no earlier `x` occurs and then removing `x` gives the list back. */
  lemma RemoveInserted<T>(s: seq<T>, i: int, x: T)
    requires x !in s[..PySeq.SliceBound(|s|, i)]
    ensures Removed(Inserted(s, i, x), x) == Ok(s)
  {
    var p := PySeq.SliceBound(|s|, i);
    var t := Inserted(s, i, x);
    assert t[..p] == s[..p];
    PySeq.FirstIndexIs(t, x, p);
    assert t[..p] + t[p + 1..] == s;
  }

  /** `l.pop()`: the last element and the contents without it; IndexError on an empty list. */
  function Popped<T>(s: seq<T>): (r: Result<(T, seq<T>)>)
    ensures r.Ok? <==> |s| > 0
    ensures r.Err? ==> r.error == IndexError
    ensures r.Ok? ==> r.value.1 + [r.value.0] == s
  {
    if |s| == 0 then Err(IndexError) else Ok((s[|s| - 1], s[..|s| - 1]))
  }

  /** Last in, first out: popping after an append returns what was appended and the list before it. */
  lemma PopAppended<T>(s: seq<T>, x: T)
    ensures Popped(s + [x]) == Ok((x, s))
  {
    assert (s + [x])[..|s|] == s;
  }

  /** `l.reverse()`: position `k` of the result holds position `n - 1 - k` of `s`. */
  function Reversed<T>(s: seq<T>): (r: seq<T>)
    ensures |r| == |s|
    ensures forall k :: 0 <= k < |s| ==> r[k] == s[|s| - 1 - k]
  {
    if |s| == 0 then [] else [s[|s| - 1]] + Reversed(s[..|s| - 1])
  }

  /** Reversing twice gives the list back, and reversing keeps the elements. */
  lemma ReverseReverse<T>(s: seq<T>)
    ensures Reversed(Reversed(s)) == s
    ensures multiset(Reversed(s)) == multiset(s)
  {
    ReversedMultiset(s);
  }

  /** Reversing keeps the elements with their multiplicities. */
  lemma {:induction false} ReversedMultiset<T>(s: seq<T>)
    ensures multiset(Reversed(s)) == multiset(s)
  {
    if |s| > 0 {
      ReversedMultiset(s[..|s| - 1]);
      assert s == s[..|s| - 1] + [s[|s| - 1]];
    }
  }

  /** `le` compares any two values and is transitive, the way `sorted` needs its `<`. */
  ghost predicate TotalPreorder<T(!new)>(le: (T, T) -> bool) {
    (forall a, b :: le(a, b) || le(b, a)) &&
    (forall a, b, c :: le(a, b) && le(b, c) ==> le(a, c))
  }

  /** Every element is `le` every later one. */
  predicate SortedBy<T>(s: seq<T>, le: (T, T) -> bool) {
    forall i, j :: 0 <= i < j < |s| ==> le(s[i], s[j])
  }

  /** Puts `x` into `s` after every element not above it: one step of a stable insertion sort. */
  function InsertBy<T>(x: T, s: seq<T>, le: (T, T) -> bool): (r: seq<T>)
    ensures multiset(r) == multiset(s) + multiset{x}
    ensures |r| == |s| + 1
  {
    if |s| == 0 then [x]
    else if le(s[0], x) then
      assert s == [s[0]] + s[1..];
      [s[0]] + InsertBy(x, s[1..], le)
    else [x] + s
  }

  /** Inserting into a sorted list keeps it sorted. */
  lemma {:induction false} InsertBySorted<T(!new)>(x: T, s: seq<T>, le: (T, T) -> bool)
    requires TotalPreorder(le) && SortedBy(s, le)
    ensures SortedBy(InsertBy(x, s, le), le)
  {
    if |s| > 0 {
      var r := InsertBy(x, s, le);
      if le(s[0], x) {
        var tail := s[1..];
        InsertBySorted(x, tail, le);
        var rest := InsertBy(x, tail, le);
        assert r == [s[0]] + rest;
        forall k | 0 <= k < |rest| ensures le(s[0], rest[k]) {
          assert rest[k] in multiset(rest);
          if rest[k] != x {
            assert rest[k] in multiset(tail);
            var m :| 0 <= m < |tail| && tail[m] == rest[k];
            assert tail[m] == s[m + 1];
          }
        }
      } else {
        assert r == [x] + s;
        forall k | 0 <= k < |s| ensures le(x, s[k]) {
          assert le(x, s[0]);
          if k > 0 {
            assert le(s[0], s[k]);
          }
        }
      }
    }
  }

  /** `sorted(s)` under the order `le`: a new list holding the same elements. */
  function SortBy<T>(s: seq<T>, le: (T, T) -> bool): (r: seq<T>)
    ensures multiset(r) == multiset(s)
  {
    if |s| == 0 then []
    else
      assert s == s[..|s| - 1] + [s[|s| - 1]];
      InsertBy(s[|s| - 1], SortBy(s[..|s| - 1], le), le)
  }

  /** `sorted` under a total preorder returns a sorted permutation of its input. */
  lemma {:induction false} SortBySorted<T(!new)>(s: seq<T>, le: (T, T) -> bool)
    requires TotalPreorder(le)
    ensures SortedBy(SortBy(s, le), le)
    ensures multiset(SortBy(s, le)) == multiset(s) && |SortBy(s, le)| == |s|
  {
    if |s| > 0 {
      SortBySorted(s[..|s| - 1], le);
      InsertBySorted(s[|s| - 1], SortBy(s[..|s| - 1], le), le);
    }
    assert |SortBy(s, le)| == |multiset(SortBy(s, le))|;
  }

  /** Inserting an element no smaller than everything appends it. */
  lemma {:induction false} InsertByLast<T>(x: T, s: seq<T>, le: (T, T) -> bool)
    requires forall k :: 0 <= k < |s| ==> le(s[k], x)
    ensures InsertBy(x, s, le) == s + [x]
  {
    if |s| > 0 {
      InsertByLast(x, s[1..], le);
      assert s == [s[0]] + s[1..];
    }
  }

  /** Sorting an already sorted list leaves it as it is. */
  lemma {:induction false} SortByOfSorted<T>(s: seq<T>, le: (T, T) -> bool)
    requires SortedBy(s, le)
    ensures SortBy(s, le) == s
  {
    if |s| > 0 {
      var init := s[..|s| - 1];
      assert SortedBy(init, le);
      SortByOfSorted(init, le);
      InsertByLast(s[|s| - 1], init, le);
      assert init + [s[|s| - 1]] == s;
    }
  }

  /** Python's `a <= b` on strings: compared code point by code point, a proper prefix first. */
  predicate StrLe(a: string, b: string) {
    |a| == 0 || (|b| > 0 && (a[0] < b[0] || (a[0] == b[0] && StrLe(a[1..], b[1..]))))
  }

  /** String comparison is a total preorder, so `sorted` on strings gives a sorted permutation. */
  lemma StrLeTotalPreorder()
    ensures TotalPreorder(StrLe)
  {
    forall a, b ensures StrLe(a, b) || StrLe(b, a) {
      StrLeTotal(a, b);
    }
    forall a, b, c | StrLe(a, b) && StrLe(b, c) ensures StrLe(a, c) {
      StrLeTrans(a, b, c);
    }
  }

  lemma {:induction false} StrLeTotal(a: string, b: string)
    ensures StrLe(a, b) || StrLe(b, a)
  {
    if |a| > 0 && |b| > 0 && a[0] == b[0] {
      StrLeTotal(a[1..], b[1..]);
    }
  }

  lemma {:induction false} StrLeTrans(a: string, b: string, c: string)
    requires StrLe(a, b) && StrLe(b, c)
    ensures StrLe(a, c)
  {
    if |a| > 0 && a[0] == b[0] && b[0] == c[0] {
      StrLeTrans(a[1..], b[1..], c[1..]);
    }
  }

  /** `sep.join(words)`: the words in order with `sep` between neighbours. */
  function Join(sep: string, words: seq<string>): (r: string)
    ensures |words| == 0 ==> r == ""
    ensures |words| == 1 ==> r == words[0]
    ensures |words| > 0 ==> |r| == TotalLength(words) + (|words| - 1) * |sep|
  {
    if |words| == 0 then ""
    else if |words| == 1 then words[0]
    else words[0] + sep + Join(sep, words[1..])
  }

  /** The sum of the lengths of the words. */
  function TotalLength(words: seq<string>): nat {
    if |words| == 0 then 0 else |words[0]| + TotalLength(words[1..])
  }

  /** Joining two non-empty runs of words puts one separator between their joins. */
  lemma {:induction false} JoinAppend(sep: string, a: seq<string>, b: seq<string>)
    requires |a| > 0 && |b| > 0
    ensures Join(sep, a + b) == Join(sep, a) + sep + Join(sep, b)
  {
    if |a| > 1 {
      assert (a + b)[1..] == a[1..] + b;
      JoinAppend(sep, a[1..], b);
    } else {
      assert (a + b)[1..] == b;
    }
  }

  /** `[x * x for x in range(lo, hi)]` */
  function SquaresList(lo: int, hi: int): (r: seq<int>)
    decreases if hi <= lo then 0 else hi - lo
    ensures |r| == (if hi <= lo then 0 else hi - lo)
    ensures forall k :: 0 <= k < |r| ==> r[k] == Sets.Square(lo + k)
  {
    if hi <= lo then [] else [Sets.Square(lo)] + SquaresList(lo + 1, hi)
  }

  /** The list comprehension and the set comprehension over the same range hold the same squares. */
  lemma SquaresListElems(lo: int, hi: int)
    ensures PySeq.Elems(SquaresList(lo, hi)) == Sets.SquareSet(lo, hi)
  {
    var r := SquaresList(lo, hi);
    forall y | y in Sets.SquareSet(lo, hi) ensures y in r {
      var x :| lo <= x < hi && y == Sets.Square(x);
      assert r[x - lo] == y;
    }
  }

  /** `m[i][j]` on a list of lists: IndexError from whichever subscript is out of range. */
  function GetItem2<T>(m: seq<seq<T>>, i: int, j: int): (r: Result<T>)
    ensures r.Ok? <==> PySeq.GetItem(m, i).Ok? && PySeq.GetItem(PySeq.GetItem(m, i).value, j).Ok?
    ensures r.Ok? ==> r.value == PySeq.GetItem(PySeq.GetItem(m, i).value, j).value
    ensures r.Err? ==> r.error == IndexError
  {
    match PySeq.GetItem(m, i)
    case Ok(row) => PySeq.GetItem(row, j)
    case Err(e) => Err(e)
  }

  /** A list object; its methods change `elems` in place. */
  class PyList<T(==)> {
    var elems: seq<T>

    /** A list display or `list(items)`. */
    constructor (items: seq<T>)
      ensures elems == items
    {
      elems := items;
    }

    /** `l[i]` */
    method Get(i: int) returns (r: Result<T>)
      ensures r == PySeq.GetItem(elems, i)
    {
      r := PySeq.GetItem(elems, i);
    }

    /** `l[i] = v`; out of range raises IndexError and changes nothing. */
    method SetItem(i: int, v: T) returns (r: Outcome)
      modifies this
      ensures Assigned(old(elems), i, v).Ok? ==> r == Pass && elems == Assigned(old(elems), i, v).value
      ensures Assigned(old(elems), i, v).Err? ==> r == Fail(IndexError) && elems == old(elems)
    {
      var a := Assigned(elems, i, v);
      if a.Ok? {
        elems := a.value;
        r := Pass;
      } else {
        r := Fail(a.error);
      }
    }

    /** `l.append(x)` */
    method Append(x: T)
      modifies this
      ensures elems == old(elems) + [x]
    {
      elems := elems + [x];
    }

    /** `l.extend(items)` */
    method Extend(items: seq<T>)
      modifies this
      ensures elems == old(elems) + items
    {
      elems := elems + items;
    }

    /** `l.insert(i, x)` */
    method Insert(i: int, x: T)
      modifies this
      ensures elems == Inserted(old(elems), i, x)
    {
      elems := Inserted(elems, i, x);
    }

    /** `l.remove(x)`; an absent `x` raises ValueError and changes nothing. */
    method Remove(x: T) returns (r: Outcome)
      modifies this
      ensures Removed(old(elems), x).Ok? ==> r == Pass && elems == Removed(old(elems), x).value
      ensures Removed(old(elems), x).Err? ==> r == Fail(ValueError) && elems == old(elems)
    {
      var a := Removed(elems, x);
      if a.Ok? {
        elems := a.value;
        r := Pass;
      } else {
        r := Fail(a.error);
      }
    }

    /** `l.pop()`; an empty list raises IndexError and stays empty. */
    method Pop() returns (r: Result<T>)
      modifies this
      ensures Popped(old(elems)).Ok? ==> r == Ok(Popped(old(elems)).value.0) && elems == Popped(old(elems)).value.1
      ensures Popped(old(elems)).Err? ==> r == Err(IndexError) && elems == old(elems)
    {
      var a := Popped(elems);
      if a.Ok? {
        r := Ok(a.value.0);
        elems := a.value.1;
      } else {
        r := Err(a.error);
      }
    }

    /** `l.reverse()` */
    method Reverse()
      modifies this
      ensures elems == Reversed(old(elems))
    {
      elems := Reversed(elems);
    }

    /** `l.copy()`: a new outer list holding the same elements, objects shared. */
    method Copy() returns (c: PyList<T>)
      ensures fresh(c) && c.elems == elems
    {
      c := new PyList(elems);
    }
  }

  /** `my_list = [10, 20, 30, 40, 50]`: `my_list[0]`, `my_list[2]`, `my_list[-1]` and three slices. */
  method AccessExample() returns (first: Result<int>, third: Result<int>, last: Result<int>,
                                  middle: seq<int>, head: seq<int>, tail: seq<int>)
    ensures first == Ok(10) && third == Ok(30) && last == Ok(50)
    ensures middle == [20, 30, 40] && head == [10, 20, 30] && tail == [40, 50]
  {
    var myList := new PyList([10, 20, 30, 40, 50]);
    PySeq.AccessOfFive(10, 20, 30, 40, 50);
    first := myList.Get(0);
    third := myList.Get(2);
    last := myList.Get(-1);
    middle := PySeq.Slice(myList.elems, Some(1), Some(4));
    head := PySeq.Slice(myList.elems, None, Some(3));
    tail := PySeq.Slice(myList.elems, Some(3), None);
  }

  /**
    * `my_list[0] = 100`, `append(60)`, `insert(1, 999)`, `remove(999)` and
    * `pop()` on `[10, 20, 30, 40, 50]`.
    */
  method MutationExample() returns (popped: Result<int>, final: seq<int>)
    ensures popped == Ok(60) && final == [100, 20, 30, 40, 50]
  {
    var myList := new PyList([10, 20, 30, 40, 50]);
    popped := Mutate(myList, 100, 999, 60);
    final := myList.elems;
    assert [100] + [10, 20, 30, 40, 50][1..] == [100, 20, 30, 40, 50];
  }

  /** The mutation sequence of the example on any non-empty list, with `x != v`. */
  method Mutate<T(==)>(l: PyList<T>, v: T, x: T, y: T) returns (popped: Result<T>)
    requires |l.elems| >= 1 && v != x
    modifies l
    ensures popped == Ok(y) && l.elems == [v] + old(l.elems)[1..]
  {
    MutationSteps(l.elems, v, x, y);
    var setOutcome := l.SetItem(0, v);
    l.Append(y);
    l.Insert(1, x);
    var removeOutcome := l.Remove(x);
    popped := l.Pop();
  }

  /** `l[0] = v`, `append(y)`, `insert(1, x)`, `remove(x)` and `pop()` in turn, for `x != v`. */
  lemma MutationSteps<T>(s: seq<T>, v: T, x: T, y: T)
    requires |s| >= 1 && v != x
    ensures Assigned(s, 0, v) == Ok([v] + s[1..])
    ensures Inserted([v] + s[1..] + [y], 1, x) == [v, x] + (s[1..] + [y])
    ensures Removed([v, x] + (s[1..] + [y]), x) == Ok([v] + s[1..] + [y])
    ensures Popped([v] + s[1..] + [y]) == Ok((y, [v] + s[1..]))
  {
    var t := [v] + s[1..] + [y];
    assert s[0 := v] == [v] + s[1..];
    assert t[0] == v && t[1..] == s[1..] + [y];
    InsertSecond(t, x);
    RemoveSecond(v, x, s[1..] + [y]);
    assert [v] + (s[1..] + [y]) == t;
    PopAppended([v] + s[1..], y);
  }

  /** `insert(1, x)` puts `x` right after the first element. */
  lemma InsertSecond<T>(s: seq<T>, x: T)
    requires |s| >= 1
    ensures Inserted(s, 1, x) == [s[0], x] + s[1..]
  {
    assert s[..1] == [s[0]];
  }

  /** `remove(x)` of an `x` in second place, not in first, takes out that one. */
  lemma RemoveSecond<T>(a: T, x: T, t: seq<T>)
    requires a != x
    ensures Removed([a, x] + t, x) == Ok([a] + t)
  {
    var s := [a, x] + t;
    PySeq.FirstIndexIs(s, x, 1);
    assert s[..1] == [a] && s[2..] == t;
  }

  /** `a.extend([4, 5, 6])` on `[1, 2, 3]`, and `b + [30, 40]`, which leaves `b` as it was. */
  method ExtendConcatExample() returns (a: seq<int>, b: seq<int>, c: seq<int>)
    ensures a == [1, 2, 3, 4, 5, 6]
    ensures b == [10, 20] && c == [10, 20, 30, 40]
  {
    var la := new PyList([1, 2, 3]);
    la.Extend([4, 5, 6]);
    a := la.elems;
    var lb := new PyList([10, 20]);
    c := PySeq.Concat(lb.elems, [30, 40]);
    b := lb.elems;
  }

  /** `shallow = orig.copy()` shares the inner lists: appending through `shallow[0]` shows in `orig[0]`. */
  method ShallowCopyExample() returns (origFirst: seq<int>)
    ensures origFirst == [1, 2, 99]
  {
    var inner0 := new PyList([1, 2]);
    var inner1 := new PyList([3, 4]);
    var orig := new PyList([inner0, inner1]);
    var shallow := orig.Copy();
    var row := shallow.elems[0];
    row.Append(99);
    origFirst := orig.elems[0].elems;
  }

  /** `nums.reverse()` on `[1, 2, 3, 4]`. */
  method ReverseExample() returns (nums: seq<int>)
    ensures nums == [4, 3, 2, 1]
  {
    var l := new PyList([1, 2, 3, 4]);
    l.Reverse();
    nums := l.elems;
  }

  /** Sorting three items: the second is least, then the third, then the first. */
  lemma SortOfThree<T>(a: T, b: T, c: T, le: (T, T) -> bool)
    requires !le(a, b) && le(b, c) && !le(a, c)
    ensures SortBy([a, b, c], le) == [b, c, a]
  {
    assert [a, b, c][..2] == [a, b];
    assert [a, b][..1] == [a];
    assert SortBy([a], le) == [a] by {
      assert [a][..0] == [];
    }
    assert SortBy([a, b], le) == [b, a];
    assert [b, a][1..] == [a];
    assert InsertBy(c, [a], le) == [c, a];
    assert InsertBy(c, [b, a], le) == [b] + [c, a];
  }

  /** `sorted(["Zoe", "Ana", "Mohan"])` is `["Ana", "Mohan", "Zoe"]`, and `names` keeps its order. */
  method SortedExample() returns (names: seq<string>, sortedNames: seq<string>)
    ensures names == ["Zoe", "Ana", "Mohan"]
    ensures sortedNames == ["Ana", "Mohan", "Zoe"]
  {
    var l := new PyList(["Zoe", "Ana", "Mohan"]);
    assert "Zoe"[0] == 'Z' && "Ana"[0] == 'A' && "Mohan"[0] == 'M';
    assert !StrLe("Zoe", "Ana");
    assert StrLe("Ana", "Mohan");
    assert !StrLe("Zoe", "Mohan");
    SortOfThree("Zoe", "Ana", "Mohan", StrLe);
    sortedNames := SortBy(l.elems, StrLe);
    names := l.elems;
  }

  /** `letters.index("b")` and `letters.count("b")` on `["a", "b", "c", "b"]`. */
  lemma IndexCountExample()
    ensures PySeq.Index(["a", "b", "c", "b"], "b") == Ok(1)
    ensures PySeq.Count(["a", "b", "c", "b"], "b") == 2
  {
    var s := ["a", "b", "c", "b"];
    assert s[0] != "b" by {
      assert s[0][0] == 'a';
    }
    PySeq.FirstIndexIs(s, "b", 1);
    assert multiset(s)["b"] == 2 by {
      assert multiset(s) == multiset{"a", "b", "c", "b"};
      assert "a" != "b" && "c" != "b" by {
        assert "a"[0] == 'a' && "c"[0] == 'c';
      }
    }
  }

  /** `" ".join(["Python", "is", "awesome"])` */
  lemma JoinExample()
    ensures Join(" ", ["Python", "is", "awesome"]) == "Python is awesome"
  {
    assert ["Python", "is", "awesome"][1..] == ["is", "awesome"];
    assert ["is", "awesome"][1..] == ["awesome"];
  }

  /** Pushing `"task1"`, `"task2"`, `"task3"` and popping once returns `"task3"` and leaves the first two. */
  method StackExample() returns (top: Result<string>, rest: seq<string>)
    ensures top == Ok("task3") && rest == ["task1", "task2"]
  {
    var stack := new PyList([]);
    stack.Append("task1");
    stack.Append("task2");
    stack.Append("task3");
    PopAppended(["task1", "task2"], "task3");
    top := stack.Pop();
    rest := stack.elems;
  }

  /** `[x * x for x in range(1, 6)]` and `matrix[1][2]` for `[[1, 2, 3], [4, 5, 6]]`. */
  lemma SquaresMatrixExample()
    ensures SquaresList(1, 6) == [1, 4, 9, 16, 25]
    ensures GetItem2([[1, 2, 3], [4, 5, 6]], 1, 2) == Ok(6)
  {
    var r := SquaresList(1, 6);
    assert r[0] == 1 && r[1] == 4 && r[2] == 9 && r[3] == 16 && r[4] == 25;
  }
}
