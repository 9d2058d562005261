/**
  * Python's `tuple`: an immutable sequence. A tuple is a Dafny sequence
  * value, so no operation here can change one; subscripts, slices, `+`,
  * `*`, `count` and `index` are those of `PySeq`. Nested tuples of mixed
  * values are `Values.Value`.
  */
module Tuples {
  import opened Wrappers
  import opened Values
  import PySeq
  import Dicts
  import Lists

  /**
    * `v[i]`: a tuple is subscripted like any sequence, a string gives the
    * one-character string at that position, and any other value raises TypeError.
    */
  function Subscript(v: Value, i: int): (r: Result<Value>)
    ensures v.Tuple? ==> r == PySeq.GetItem(v.items, i)
    ensures v.Str? ==> (r.Ok? <==> -|v.s| <= i < |v.s|)
    ensures v.Str? && r.Ok? ==> r.value == Str([PySeq.GetItem(v.s, i).value])
    ensures v.Str? && r.Err? ==> r.error == IndexError
    ensures (v.Bool? || v.Int?) ==> r == Err(TypeError)
    ensures r.Ok? && v.Tuple? ==> r.value in v.items
  {
    if v.Tuple? then PySeq.GetItem(v.items, i)
    else if v.Str? then
      match PySeq.GetItem(v.s, i)
      case Ok(c) => Ok(Str([c]))
      case Err(e) => Err(e)
    else Err(TypeError)
  }

  /** `v[i][j]`: the error of the outer subscript, or the inner subscript of what it selects. */
  function Subscript2(v: Value, i: int, j: int): (r: Result<Value>)
    ensures Subscript(v, i).Err? ==> r == Subscript(v, i)
    ensures Subscript(v, i).Ok? ==> r == Subscript(Subscript(v, i).value, j)
    ensures r.Ok? ==> Subscript(v, i).Ok? && (Subscript(v, i).value.Tuple? || Subscript(v, i).value.Str?)
  {
    match Subscript(v, i)
    case Ok(inner) => Subscript(inner, j)
    case Err(e) => Err(e)
  }

  /** `"bc"[0]` is `"b"`, `"bc"[-1]` is `"c"`, `"bc"[2]` raises IndexError, and `("a", "bc")[1][0]` is `"b"`. */
  lemma StrSubscriptExample()
    ensures Subscript(Str("bc"), 0) == Ok(Str("b"))
    ensures Subscript(Str("bc"), -1) == Ok(Str("c"))
    ensures Subscript(Str("bc"), 2) == Err(IndexError)
    ensures Subscript2(Tuple([Str("a"), Str("bc")]), 1, 0) == Ok(Str("b"))
  {
  }

  /** `a, b, c = t`: binds the three elements in order; any other length raises ValueError. */
  function Unpack3<T>(t: seq<T>): (r: Result<(T, T, T)>)
    ensures r.Ok? <==> |t| == 3
    ensures r.Err? ==> r.error == ValueError
    ensures r.Ok? ==> r.value.0 == t[0] && r.value.1 == t[1] && r.value.2 == t[2]
  {
    if |t| == 3 then Ok((t[0], t[1], t[2])) else Err(ValueError)
  }

  /** `(a, b, c)`: packing three values into a tuple. */
  function Pack3<T>(x: (T, T, T)): (r: seq<T>)
    ensures |r| == 3
    ensures r[0] == x.0 && r[1] == x.1 && r[2] == x.2
  {
    [x.0, x.1, x.2]
  }

  /** Unpacking undoes packing, and a successful unpacking repacks to the same tuple. */
  lemma UnpackPack<T>(x: (T, T, T), t: seq<T>)
    ensures Unpack3(Pack3(x)) == Ok(x)
    ensures Unpack3(t).Ok? ==> Pack3(Unpack3(t).value) == t
  {
  }

  /**
    * `t[i] = v`: a tuple does not support item assignment. The statement
    * raises TypeError and the name is left bound to the tuple it had.
    */
  function AssignItem<T>(t: seq<T>, i: int, v: T): (r: (Outcome, seq<T>))
    ensures r.0 == Fail(TypeError)
    ensures r.1 == t
  {
    (Fail(TypeError), t)
  }

  /** Where a list accepts `l[i] = v`, a tuple with the same elements still refuses it. */
  lemma AssignItemRefused<T>(t: seq<T>, i: int, v: T)
    requires -|t| <= i < |t|
    ensures Lists.Assigned(t, i, v).Ok? && Lists.Assigned(t, i, v).value != t <==> PySeq.GetItem(t, i) != Ok(v)
    ensures AssignItem(t, i, v) == (Fail(TypeError), t)
  {
    var k := PySeq.NormIndex(|t|, i).value;
    if PySeq.GetItem(t, i) != Ok(v) {
      assert Lists.Assigned(t, i, v).value[k] != t[k];
    }
  }

  /** `t * (j + k)` is `t * j + t * k`. */
  lemma {:induction false} RepeatAdd<T>(s: seq<T>, j: nat, k: nat)
    ensures PySeq.Repeat(s, j + k) == PySeq.Concat(PySeq.Repeat(s, j), PySeq.Repeat(s, k))
  {
    if j > 0 {
      var a, b := PySeq.Repeat(s, j - 1), PySeq.Repeat(s, k);
      RepeatAdd(s, j - 1, k);
      RepeatUnfold(s, j + k);
      RepeatUnfold(s, j);
      AppendAssoc(s, a, b);
    } else {
      assert PySeq.Repeat(s, 0) == [];
      assert [] + PySeq.Repeat(s, k) == PySeq.Repeat(s, k);
    }
  }

  /** One copy in front of the other `k - 1`. */
  lemma RepeatUnfold<T>(s: seq<T>, k: nat)
    requires k >= 1
    ensures PySeq.Repeat(s, k) == s + PySeq.Repeat(s, k - 1)
  {
  }

  lemma AppendAssoc<T>(a: seq<T>, b: seq<T>, c: seq<T>)
    ensures (a + b) + c == a + (b + c)
  {
  }

  /** An element occurs `k` times as often in `t * k` as in `t`. */
  lemma {:induction false} RepeatCount<T>(s: seq<T>, k: nat, x: T)
    ensures PySeq.Count(PySeq.Repeat(s, k), x) == k * PySeq.Count(s, x)
  {
    if k > 0 {
      var rest := PySeq.Repeat(s, k - 1);
      RepeatCount(s, k - 1, x);
      RepeatUnfold(s, k);
      assert multiset(s + rest) == multiset(s) + multiset(rest);
      PySeq.MulStep(k, PySeq.Count(s, x));
    }
  }

  /** `my_tuple = (10, 20, 30, 40, 50)`: `[0]`, `[2]`, `[-1]`, `[1:4]`, `[:3]`, `[3:]`, and `t[:3] + t[3:] == t`. */
  lemma AccessExample()
    ensures PySeq.GetItem([10, 20, 30, 40, 50], 0) == Ok(10)
    ensures PySeq.GetItem([10, 20, 30, 40, 50], 2) == Ok(30)
    ensures PySeq.GetItem([10, 20, 30, 40, 50], -1) == Ok(50)
    ensures PySeq.Slice([10, 20, 30, 40, 50], Some(1), Some(4)) == [20, 30, 40]
    ensures PySeq.Slice([10, 20, 30, 40, 50], None, Some(3)) == [10, 20, 30]
    ensures PySeq.Slice([10, 20, 30, 40, 50], Some(3), None) == [40, 50]
    ensures PySeq.Slice([10, 20, 30, 40, 50], None, Some(3)) + PySeq.Slice([10, 20, 30, 40, 50], Some(3), None) == [10, 20, 30, 40, 50]
  {
    PySeq.AccessOfFive(10, 20, 30, 40, 50);
    PySeq.SliceSplit([10, 20, 30, 40, 50], 3);
  }

  /** `nested_tuple = (1, (2, 3), (4, 5, 6))` */
  const Nested: Value := Tuple([Int(1), Tuple([Int(2), Int(3)]), Tuple([Int(4), Int(5), Int(6)])])

  /** `nested_tuple[1]` is `(2, 3)` and `nested_tuple[2][1]` is `5`; `nested_tuple[0][0]` subscripts an int. */
  lemma NestedExample()
    ensures Subscript(Nested, 1) == Ok(Tuple([Int(2), Int(3)]))
    ensures Subscript2(Nested, 2, 1) == Ok(Int(5))
    ensures Subscript2(Nested, 0, 0) == Err(TypeError)
  {
  }

  /** `a, b, c = (10, 20, 30)` binds 10, 20 and 30; two names for three values are refused. */
  lemma UnpackExample()
    ensures Unpack3([10, 20, 30]) == Ok((10, 20, 30))
    ensures Unpack3([10, 20]) == Err(ValueError)
  {
  }

  /** `(1, 2, 3) + (4, 5, 6)` and `(1, 2, 3) * 3`. */
  lemma ConcatRepeatExample()
    ensures PySeq.Concat([1, 2, 3], [4, 5, 6]) == [1, 2, 3, 4, 5, 6]
    ensures PySeq.Repeat([1, 2, 3], 3) == [1, 2, 3, 1, 2, 3, 1, 2, 3]
  {
    RepeatThree(1, 2, 3);
  }

  /** Three copies of a three-element sequence. */
  lemma RepeatThree<T>(a: T, b: T, c: T)
    ensures PySeq.Repeat([a, b, c], 3) == [a, b, c, a, b, c, a, b, c]
  {
    var s := [a, b, c];
    assert PySeq.Repeat(s, 1) == s + PySeq.Repeat(s, 0);
    assert PySeq.Repeat(s, 2) == s + PySeq.Repeat(s, 1);
    assert PySeq.Repeat(s, 3) == s + PySeq.Repeat(s, 2);
  }

  /** The `coordinates` dict keyed by points. */
  const Coordinates: seq<((int, int), string)> := [((0, 0), "Origin"), ((1, 0), "Point A"), ((0, 1), "Point B"), ((1, 1), "Point C")]

  /** `coordinates[(0, 0)]` and `coordinates[(1, 1)]`. */
  lemma CoordinatesExample()
    ensures Dicts.Valid(Coordinates)
    ensures Dicts.GetItem(Coordinates, (0, 0)) == Ok("Origin")
    ensures Dicts.GetItem(Coordinates, (1, 1)) == Ok("Point C")
  {
    assert Dicts.KeysOf(Coordinates) == [(0, 0), (1, 0), (0, 1), (1, 1)];
    Dicts.LookupAt(Coordinates, 0);
    Dicts.LookupAt(Coordinates, 3);
  }

  /** `(1, 2, 3, 2, 4, 2).count(2)` is 3 and `.index(3)` is 2, the first occurrence. */
  lemma CountIndexExample()
    ensures PySeq.Count([1, 2, 3, 2, 4, 2], 2) == 3
    ensures PySeq.Index([1, 2, 3, 2, 4, 2], 3) == Ok(2)
  {
    var s := [1, 2, 3, 2, 4, 2];
    assert multiset(s)[2] == 3;
    PySeq.FirstIndexIs(s, 3, 2);
  }

  /** `immutable_tuple[0] = 10` on `(1, 2, 3)` raises TypeError; the tuple is still `(1, 2, 3)`. */
  lemma ImmutableExample()
    ensures AssignItem([1, 2, 3], 0, 10) == (Fail(TypeError), [1, 2, 3])
    ensures Lists.Assigned([1, 2, 3], 0, 10) == Ok([10, 2, 3])
  {
    assert [1, 2, 3][0 := 10] == [10, 2, 3];
  }
}
