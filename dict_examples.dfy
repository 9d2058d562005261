/**
  * The dict script's statements that change a dict in place (`PyDict`), its
  * loops that fill a dict (character frequency, group-by, the Fibonacci cache)
  * and the concrete outcomes the script prints.
  */
module DictExamples {
  import opened Wrappers
  import PySeq
  import Dicts
  import opened Values

  /** A dict object: its entries, insertion ordered, are replaced by each mutating call. */
  class PyDict<K(==,!new), V> {
    var items: seq<(K, V)>

    ghost predicate Valid()
      reads this
    {
      Dicts.Valid(items)
    }

    /** `dict(pairs)` and a dict display: the pairs assigned one by one into an empty dict. */
    constructor (pairs: seq<(K, V)>)
      ensures Valid() && items == Dicts.FromPairs(pairs)
    {
      items := Dicts.FromPairs(pairs);
    }

    /** `d[k]` */
    method GetItem(k: K) returns (r: Result<V>)
      requires Valid()
      ensures r == Dicts.GetItem(items, k)
    {
      r := Dicts.GetItem(items, k);
    }

    /** `k in d` */
    method Contains(k: K) returns (b: bool)
      ensures b == Dicts.HasKey(items, k)
    {
      b := Dicts.HasKey(items, k);
    }

    /** `d.get(k)` */
    method Get(k: K) returns (r: Option<V>)
      requires Valid()
      ensures r == Dicts.Lookup(items, k)
    {
      r := Dicts.Lookup(items, k);
    }

    /** `d[k] = v` */
    method SetItem(k: K, v: V)
      requires Valid()
      modifies this
      ensures Valid() && items == Dicts.SetItem(old(items), k, v)
    {
      items := Dicts.SetItem(items, k, v);
    }

    /** `del d[k]`; KeyError, and nothing removed, when `k` is missing. */
    method DelItem(k: K) returns (r: Outcome)
      requires Valid()
      modifies this
      ensures Valid()
      ensures Dicts.HasKey(old(items), k) ==> r == Pass && Dicts.DelItem(old(items), k) == Ok(items)
      ensures !Dicts.HasKey(old(items), k) ==> r == Fail(KeyError) && items == old(items)
    {
      match Dicts.DelItem(items, k)
      case Ok(d) => items := d; r := Pass;
      case Err(e) => r := Fail(e);
    }

    /** `d.pop(k)`; KeyError, and nothing removed, when `k` is missing. */
    method Pop(k: K) returns (r: Result<V>)
      requires Valid()
      modifies this
      ensures Valid()
      ensures r.Ok? <==> Dicts.HasKey(old(items), k)
      ensures r.Ok? ==> Dicts.Pop(old(items), k) == Ok((r.value, items))
      ensures r.Err? ==> r.error == KeyError && items == old(items)
    {
      match Dicts.Pop(items, k)
      case Ok(p) => items := p.1; r := Ok(p.0);
      case Err(e) => r := Err(e);
    }

    /** `d.popitem()`; KeyError, and nothing changed, on an empty dict. */
    method PopItem() returns (r: Result<(K, V)>)
      requires Valid()
      modifies this
      ensures Valid()
      ensures r.Ok? <==> |old(items)| > 0
      ensures r.Ok? ==> old(items) == items + [r.value]
      ensures r.Err? ==> r.error == KeyError && items == old(items)
    {
      match Dicts.PopItem(items)
      case Ok(p) => items := p.1; r := Ok(p.0);
      case Err(e) => r := Err(e);
    }

    /** `d.setdefault(k, default)` */
    method SetDefault(k: K, default: V) returns (v: V)
      requires Valid()
      modifies this
      ensures Valid() && (v, items) == Dicts.SetDefault(old(items), k, default)
    {
      var p := Dicts.SetDefault(items, k, default);
      v, items := p.0, p.1;
    }

    /** `d.update(other)` and `d |= other`: the pairs of `other` are assigned in turn. */
    method Update(other: seq<(K, V)>)
      requires Valid()
      modifies this
      ensures Valid() && items == Dicts.Merge(old(items), other)
    {
      items := Dicts.Merge(items, other);
    }

    /** `d | other`: a new dict; `d` and `other` are left as they were. */
    method Or(other: PyDict<K, V>) returns (r: PyDict<K, V>)
      requires Valid()
      ensures fresh(r) && r.Valid() && r.items == Dicts.Merge(items, other.items)
    {
      r := new PyDict(items);
      Dicts.FromPairsOfValid(items);
      r.Update(other.items);
    }
  }

  /**
    * `frequency[ch] = frequency.get(ch, 0) + 1` for every `ch` of `word`: the
    * keys are the distinct elements in order of first occurrence, each mapped
    * to its number of occurrences.
    */
  method Frequency<T(==,!new)>(word: seq<T>) returns (freq: seq<(T, int)>)
    ensures FrequencyOf(word, freq)
  {
    freq := [];
    for i := 0 to |word|
      invariant FrequencyOf(word[..i], freq)
    {
      var ch := word[i];
      FrequencyStep(word[..i], ch, freq);
      freq := Tally(freq, ch);
      PySeq.TakeSnoc(word, i);
    }
    assert word[..|word|] == word;
  }

  /** `frequency[ch] = frequency.get(ch, 0) + 1` */
  function Tally<T(==,!new)>(freq: seq<(T, int)>, ch: T): (r: seq<(T, int)>)
    requires Dicts.Valid(freq)
    ensures Dicts.Valid(r)
    ensures Dicts.Lookup(r, ch) == Some(Dicts.Lookup(freq, ch).GetOr(0) + 1)
    ensures forall c :: c != ch ==> Dicts.Lookup(r, c) == Dicts.Lookup(freq, c)
  {
    Dicts.SetItem(freq, ch, Dicts.Lookup(freq, ch).GetOr(0) + 1)
  }

  /** `freq` is the frequency table of `w`: keys in order of first occurrence, each with its count. */
  ghost predicate FrequencyOf<T(!new)>(w: seq<T>, freq: seq<(T, int)>) {
    && Dicts.Valid(freq)
    && Dicts.KeysOf(freq) == PySeq.Unique(w)
    && forall ch :: Dicts.Lookup(freq, ch) == if ch in w then Some(PySeq.Count(w, ch)) else None
  }

  /** One turn of the frequency loop. */
  lemma FrequencyStep<T(!new)>(w: seq<T>, ch: T, freq: seq<(T, int)>)
    requires FrequencyOf(w, freq)
    ensures FrequencyOf(w + [ch], Tally(freq, ch))
  {
    KeysStep(w, ch, freq, Tally(freq, ch));
    forall c ensures Dicts.Lookup(Tally(freq, ch), c) == if c in w + [ch] then Some(PySeq.Count(w + [ch], c)) else None {
      FrequencyStepAt(w, ch, freq, c);
    }
  }

  /** One turn of the frequency loop, seen from one element. */
  lemma FrequencyStepAt<T(!new)>(w: seq<T>, ch: T, freq: seq<(T, int)>, c: T)
    requires FrequencyOf(w, freq)
    ensures Dicts.Lookup(Tally(freq, ch), c) == if c in w + [ch] then Some(PySeq.Count(w + [ch], c)) else None
  {
    if c == ch {
      FrequencyStepSame(w, ch, freq);
    } else {
      FrequencyStepOther(w, ch, freq, c);
    }
  }

  /** The counted element's entry goes up by one. */
  lemma FrequencyStepSame<T(!new)>(w: seq<T>, ch: T, freq: seq<(T, int)>)
    requires FrequencyOf(w, freq)
    ensures Dicts.Lookup(Tally(freq, ch), ch) == Some(PySeq.Count(w + [ch], ch))
  {
    var n := Dicts.Lookup(freq, ch).GetOr(0);
    PySeq.CountSnoc(w, ch, ch);
    assert n == PySeq.Count(w, ch) by {
      assert Dicts.Lookup(freq, ch) == if ch in w then Some(PySeq.Count(w, ch)) else None;
    }
  }

  /** Every other element's entry stays as it was. */
  lemma FrequencyStepOther<T(!new)>(w: seq<T>, ch: T, freq: seq<(T, int)>, c: T)
    requires FrequencyOf(w, freq) && c != ch
    ensures Dicts.Lookup(Tally(freq, ch), c) == if c in w + [ch] then Some(PySeq.Count(w + [ch], c)) else None
  {
    PySeq.CountSnoc(w, ch, c);
    assert Dicts.Lookup(Tally(freq, ch), c) == Dicts.Lookup(freq, c);
    assert Dicts.Lookup(freq, c) == if c in w then Some(PySeq.Count(w, c)) else None;
  }

  /** The keys of a dict that tracks the distinct elements of `w` after `d[x] = ...`. */
  lemma KeysStep<T(!new), V>(w: seq<T>, x: T, d: seq<(T, V)>, d': seq<(T, V)>)
    requires Dicts.Valid(d) && Dicts.KeysOf(d) == PySeq.Unique(w)
    requires Dicts.HasKey(d, x) ==> Dicts.KeysOf(d') == Dicts.KeysOf(d)
    requires !Dicts.HasKey(d, x) ==> Dicts.KeysOf(d') == Dicts.KeysOf(d) + [x]
    ensures Dicts.KeysOf(d') == PySeq.Unique(w + [x])
  {
    PySeq.UniqueSnoc(w, x);
    assert x in w <==> x in PySeq.Elems(w);
    assert x in PySeq.Unique(w) <==> x in PySeq.Elems(PySeq.Unique(w));
  }

  /** A record of the group-by example: a person's name and team. */
  datatype Person<N, T> = Person(name: N, team: T)

  /** The teams of `people`, in order. */
  function Teams<N, T>(people: seq<Person<N, T>>): (ts: seq<T>)
    ensures |ts| == |people|
    ensures forall i :: 0 <= i < |people| ==> ts[i] == people[i].team
  {
    seq(|people|, i requires 0 <= i < |people| => people[i].team)
  }

  /** The names of the members of team `t`, in input order. */
  function NamesIn<N, T(==)>(people: seq<Person<N, T>>, t: T): seq<N> {
    if |people| == 0 then []
    else
      var init, p := people[..|people| - 1], people[|people| - 1];
      NamesIn(init, t) + (if p.team == t then [p.name] else [])
  }

  /**
    * `by_team.setdefault(p["team"], []).append(p["name"])` for every person:
    * the keys are the teams in order of first occurrence, and each team's
    * list holds the names of its members in input order.
    */
  method GroupBy<N, T(==,!new)>(people: seq<Person<N, T>>) returns (byTeam: seq<(T, seq<N>)>)
    ensures GroupsOf(people, byTeam)
  {
    byTeam := [];
    for i := 0 to |people|
      invariant GroupsOf(people[..i], byTeam)
    {
      var p := people[i];
      GroupStep(people[..i], p, byTeam);
      byTeam := AddMember(byTeam, p);
      PySeq.TakeSnoc(people, i);
    }
    assert people[..|people|] == people;
  }

  /**
    * `by_team.setdefault(p["team"], []).append(p["name"])`: setdefault hands
    * back the list stored under the team (a new empty one for a new team), and
    * append grows that same list, so the dict ends up with the longer list.
    */
  function AddMember<N, T(==,!new)>(byTeam: seq<(T, seq<N>)>, p: Person<N, T>): (r: seq<(T, seq<N>)>)
    requires Dicts.Valid(byTeam)
    ensures Dicts.Valid(r)
    ensures Dicts.Lookup(r, p.team) == Some(Dicts.Lookup(byTeam, p.team).GetOr([]) + [p.name])
    ensures forall t :: t != p.team ==> Dicts.Lookup(r, t) == Dicts.Lookup(byTeam, t)
  {
    var (names, d) := Dicts.SetDefault(byTeam, p.team, []);
    Dicts.SetItem(d, p.team, names + [p.name])
  }

  /** `byTeam` groups `people`: teams in order of first occurrence, each with its members' names in order. */
  ghost predicate GroupsOf<N, T(!new)>(people: seq<Person<N, T>>, byTeam: seq<(T, seq<N>)>) {
    && Dicts.Valid(byTeam)
    && Dicts.KeysOf(byTeam) == PySeq.Unique(Teams(people))
    && forall t :: Dicts.Lookup(byTeam, t) == if t in Teams(people) then Some(NamesIn(people, t)) else None
  }

  /** One turn of the group-by loop. */
  lemma GroupStep<N, T(!new)>(people: seq<Person<N, T>>, p: Person<N, T>, byTeam: seq<(T, seq<N>)>)
    requires GroupsOf(people, byTeam)
    ensures GroupsOf(people + [p], AddMember(byTeam, p))
  {
    var (names, d) := Dicts.SetDefault(byTeam, p.team, []);
    if !Dicts.HasKey(byTeam, p.team) {
      assert Dicts.KeysOf(d) == Dicts.KeysOf(byTeam) + [p.team];
      assert Dicts.HasKey(d, p.team);
    }
    TeamsSnoc(people, p);
    KeysStep(Teams(people), p.team, byTeam, AddMember(byTeam, p));
    forall t ensures Dicts.Lookup(AddMember(byTeam, p), t) == if t in Teams(people + [p]) then Some(NamesIn(people + [p], t)) else None {
      if t == p.team {
        GroupLookupSame(people, p, byTeam);
      } else {
        GroupLookupOther(people, p, byTeam, t);
      }
    }
  }

  /** The team of the person added gains their name at the end. */
  lemma GroupLookupSame<N, T(!new)>(people: seq<Person<N, T>>, p: Person<N, T>, byTeam: seq<(T, seq<N>)>)
    requires GroupsOf(people, byTeam)
    ensures Dicts.Lookup(AddMember(byTeam, p), p.team) == Some(NamesIn(people + [p], p.team))
  {
    var t := p.team;
    NamesSnoc(people, p, t);
    assert Dicts.HasKey(byTeam, t) <==> t in Teams(people) by {
      assert t in PySeq.Unique(Teams(people)) <==> t in PySeq.Elems(PySeq.Unique(Teams(people)));
      assert t in Teams(people) <==> t in PySeq.Elems(Teams(people));
    }
    if t !in Teams(people) {
      NamesAbsent(people, t);
    }
  }

  /** Every other team keeps its list. */
  lemma GroupLookupOther<N, T(!new)>(people: seq<Person<N, T>>, p: Person<N, T>, byTeam: seq<(T, seq<N>)>, t: T)
    requires GroupsOf(people, byTeam) && t != p.team
    ensures Dicts.Lookup(AddMember(byTeam, p), t) == if t in Teams(people + [p]) then Some(NamesIn(people + [p], t)) else None
  {
    var (names, d) := Dicts.SetDefault(byTeam, p.team, []);
    assert Dicts.Lookup(AddMember(byTeam, p), t) == Dicts.Lookup(d, t);
    assert Dicts.Lookup(d, t) == Dicts.Lookup(byTeam, t) by {
      if !Dicts.HasKey(byTeam, p.team) {
        Dicts.LookupSnoc(byTeam, (p.team, []), t);
      }
    }
    assert Dicts.Lookup(byTeam, t) == if t in Teams(people) then Some(NamesIn(people, t)) else None;
    NamesSnoc(people, p, t);
    TeamsSnoc(people, p);
    assert t in Teams(people + [p]) <==> t in Teams(people);
    assert NamesIn(people + [p], t) == NamesIn(people, t);
  }

  /** A team nobody belongs to has no names. */
  lemma {:induction false} NamesAbsent<N, T>(people: seq<Person<N, T>>, t: T)
    requires t !in Teams(people)
    ensures NamesIn(people, t) == []
  {
    if |people| > 0 {
      var init := people[..|people| - 1];
      TeamsSnoc(init, people[|people| - 1]);
      assert people == init + [people[|people| - 1]];
      NamesAbsent(init, t);
    }
  }

  /** Adding one person adds their team to the end of the teams. */
  lemma TeamsSnoc<N, T>(people: seq<Person<N, T>>, p: Person<N, T>)
    ensures Teams(people + [p]) == Teams(people) + [p.team]
  {
  }

  /** Adding one person adds their name to the end of their own team only. */
  lemma NamesSnoc<N, T>(people: seq<Person<N, T>>, p: Person<N, T>, t: T)
    ensures NamesIn(people + [p], t) == NamesIn(people, t) + (if p.team == t then [p.name] else [])
  {
    assert (people + [p])[..|people|] == people;
  }

  /** The numbers `fib` computes: `n` itself for `n <= 1`, also for negative `n`. */
  function Fibonacci(n: int): int
    decreases if n < 0 then 0 else n
  {
    if n <= 1 then n else Fibonacci(n - 1) + Fibonacci(n - 2)
  }

  /** The set of keys of a dict. */
  function KeySet<K(==,!new), V>(d: seq<(K, V)>): set<K> {
    PySeq.Elems(Dicts.KeysOf(d))
  }

  /** Every cached value is the Fibonacci number of its key. */
  ghost predicate CacheCorrect(d: seq<(int, int)>) {
    forall i :: 0 <= i < |d| ==> d[i].1 == Fibonacci(d[i].0)
  }

  /** A cached `n >= 2` comes with its two predecessors, as `fib` fills the cache. */
  ghost predicate CacheClosed(d: seq<(int, int)>) {
    forall i :: 0 <= i < |d| && PySeq.At(d, i).0 >= 2 ==>
      Dicts.HasKey(d, PySeq.At(d, i).0 - 1) && Dicts.HasKey(d, PySeq.At(d, i).0 - 2)
  }

  /** A cache `fib` can work with: a dict whose values are right and whose keys are closed under predecessors. */
  ghost predicate CacheOk(d: seq<(int, int)>) {
    Dicts.Valid(d) && CacheCorrect(d) && CacheClosed(d)
  }

  /** How a call `fib(n)` changes the cache: `n` is now cached, old entries stay first and as they were, and nothing beyond `Reach(n)` is added. */
  ghost predicate Grown(before: seq<(int, int)>, after: seq<(int, int)>, n: int) {
    && n in KeySet(after)
    && before <= after
    && KeySet(after) <= KeySet(before) + Reach(n)
  }

  /** The integers from 0 to `n`. */
  function UpTo(n: int): (r: set<int>)
    decreases if n < 0 then 0 else n + 1
    ensures forall m :: m in r <==> 0 <= m <= n
  {
    if n < 0 then {} else UpTo(n - 1) + {n}
  }

  /** The keys a call `fib(n)` may add to the cache. */
  function Reach(n: int): set<int> {
    if n <= 1 then {n} else UpTo(n)
  }

  /**
    * `fib(n)` memoised in the dict `cache`: answers from the cache when `n` is
    * there, otherwise computes, stores `cache[n]`, and returns it. Entries
    * already cached are kept as they are; new ones are appended.
    */
  method Fib(n: int, cache: PyDict<int, int>) returns (r: int)
    requires CacheOk(cache.items)
    modifies cache
    decreases if n < 0 then 0 else n
    ensures CacheOk(cache.items) && r == Fibonacci(n)
    ensures Grown(old(cache.items), cache.items, n)
  {
    var cached := cache.Contains(n);
    if cached {
      FibHit(cache.items, n);
      var hit := cache.GetItem(n);
      return hit.value;
    }
    ghost var before := cache.items;
    assert n !in KeySet(before);
    if n <= 1 {
      cache.SetItem(n, n);
      FibBase(before, cache.items, n);
    } else {
      var a := Fib(n - 1, cache);
      ghost var middle := cache.items;
      var b := Fib(n - 2, cache);
      ghost var after := cache.items;
      cache.SetItem(n, a + b);
      FibCompute(before, middle, after, cache.items, n, a, b);
    }
    var stored := cache.GetItem(n);
    r := stored.value;
  }

  /** Storing `fib(n) = n` for `n <= 1` in a cache without `n` grows it as `fib` promises. */
  lemma FibBase(before: seq<(int, int)>, d: seq<(int, int)>, n: int)
    requires CacheOk(before) && n <= 1 && n !in KeySet(before)
    requires d == Dicts.SetItem(before, n, n)
    ensures CacheOk(d) && Grown(before, d, n) && Dicts.Lookup(d, n) == Some(Fibonacci(n))
  {
    FibStoreFresh(before, n, n);
  }

  /** Storing `fib(n - 1) + fib(n - 2)` after the two recursive calls grows the cache as `fib(n)` promises. */
  lemma FibCompute(before: seq<(int, int)>, middle: seq<(int, int)>, after: seq<(int, int)>, d: seq<(int, int)>, n: int, a: int, b: int)
    requires n >= 2 && CacheOk(before) && n !in KeySet(before)
    requires CacheOk(middle) && Grown(before, middle, n - 1) && a == Fibonacci(n - 1)
    requires CacheOk(after) && Grown(middle, after, n - 2) && b == Fibonacci(n - 2)
    requires d == Dicts.SetItem(after, n, a + b)
    ensures CacheOk(d) && Grown(before, d, n) && Dicts.Lookup(d, n) == Some(Fibonacci(n))
  {
    FibGrow(before, middle, after, n);
    FibStoreFresh(after, n, a + b);
    PrefixTrans(before, after, d);
  }

  /** A hit is correct because the cache is. */
  lemma FibHit(d: seq<(int, int)>, n: int)
    requires Dicts.Valid(d) && CacheCorrect(d) && Dicts.HasKey(d, n)
    ensures Dicts.Lookup(d, n) == Some(Fibonacci(n))
    ensures n in KeySet(d)
  {
    var i :| 0 <= i < |d| && Dicts.KeysOf(d)[i] == n;
    Dicts.LookupAt(d, i);
  }

  /** Storing the Fibonacci number of a key not yet cached, whose predecessors are, keeps the cache correct and closed. */
  lemma FibStoreFresh(d: seq<(int, int)>, n: int, v: int)
    requires Dicts.Valid(d) && CacheCorrect(d) && CacheClosed(d)
    requires n !in KeySet(d) && v == Fibonacci(n)
    requires n >= 2 ==> Dicts.HasKey(d, n - 1) && Dicts.HasKey(d, n - 2)
    ensures var d' := Dicts.SetItem(d, n, v);
            && Dicts.Valid(d') && CacheCorrect(d') && CacheClosed(d')
            && d <= d' && KeySet(d') == KeySet(d) + {n}
            && Dicts.HasKey(d', n) && Dicts.Lookup(d', n) == Some(Fibonacci(n))
  {
    var d' := Dicts.SetItem(d, n, v);
    assert d' == d + [(n, v)];
    assert Dicts.KeysOf(d') == Dicts.KeysOf(d) + [n];
    assert KeySet(d') == KeySet(d) + {n};
    ClosedAppend(d, n, v);
  }

  /** Appending a key whose predecessors are present keeps the cache closed. */
  lemma ClosedAppend(d: seq<(int, int)>, n: int, v: int)
    requires CacheClosed(d)
    requires n >= 2 ==> Dicts.HasKey(d, n - 1) && Dicts.HasKey(d, n - 2)
    ensures CacheClosed(d + [(n, v)])
  {
    var d' := d + [(n, v)];
    forall i | 0 <= i < |d'| && PySeq.At(d', i).0 >= 2
      ensures Dicts.HasKey(d', PySeq.At(d', i).0 - 1) && Dicts.HasKey(d', PySeq.At(d', i).0 - 2)
    {
      var k := d'[i].0;
      if i < |d| {
        assert PySeq.At(d', i) == PySeq.At(d, i);
      }
      HasKeyGrows(d, d', k - 1);
      HasKeyGrows(d, d', k - 2);
    }
  }

  /** Appending entries keeps every key. */
  lemma HasKeyGrows<K(!new), V>(d: seq<(K, V)>, d': seq<(K, V)>, k: K)
    requires d <= d' && Dicts.HasKey(d, k)
    ensures Dicts.HasKey(d', k)
  {
    var i :| 0 <= i < |d| && Dicts.KeysOf(d)[i] == k;
    assert Dicts.KeysOf(d')[i] == k;
  }

  /** A cache that grew by appending still holds every key it held. */
  lemma PrefixKeys(d: seq<(int, int)>, d': seq<(int, int)>)
    requires d <= d'
    ensures KeySet(d) <= KeySet(d')
  {
    forall k | k in KeySet(d) ensures k in KeySet(d') {
      var i :| 0 <= i < |d| && Dicts.KeysOf(d)[i] == k;
      assert Dicts.KeysOf(d')[i] == k;
    }
  }

  /** What the two recursive calls of `fib(n)` leave in the cache: not `n`, but both predecessors, and nothing beyond `n`. */
  lemma FibGrow(before: seq<(int, int)>, middle: seq<(int, int)>, after: seq<(int, int)>, n: int)
    requires n >= 2 && n !in KeySet(before)
    requires before <= middle && middle <= after
    requires KeySet(middle) <= KeySet(before) + Reach(n - 1)
    requires KeySet(after) <= KeySet(middle) + Reach(n - 2)
    requires n - 1 in KeySet(middle) && n - 2 in KeySet(after)
    ensures n !in KeySet(after) && before <= after
    ensures Dicts.HasKey(after, n - 1) && Dicts.HasKey(after, n - 2)
    ensures KeySet(after) + {n} <= KeySet(before) + Reach(n)
  {
    ReachBelow(n);
    PrefixKeys(middle, after);
    PrefixTrans(before, middle, after);
  }

  /** Growing by appending, twice, is growing by appending. */
  lemma PrefixTrans<T>(a: seq<T>, b: seq<T>, c: seq<T>)
    requires a <= b && b <= c
    ensures a <= c
  {
    assert c[..|b|][..|a|] == c[..|a|];
  }

  /** What `fib(n - 1)` and `fib(n - 2)` may add lies below `n`. */
  lemma ReachBelow(n: int)
    requires n >= 2
    ensures Reach(n - 1) <= UpTo(n - 1) && Reach(n - 2) <= UpTo(n - 1)
    ensures UpTo(n) == UpTo(n - 1) + {n}
  {
  }

  /** A closed cache that holds some `n >= 2` holds every key from 0 to `n`. */
  lemma {:induction false} ClosedHoldsPrefix(d: seq<(int, int)>, n: int)
    requires CacheClosed(d) && n >= 2 && n in KeySet(d)
    ensures forall m :: 0 <= m <= n ==> m in KeySet(d)
  {
    var i :| 0 <= i < |d| && Dicts.KeysOf(d)[i] == n;
    assert PySeq.At(d, i).0 == n;
    if n > 2 {
      ClosedHoldsPrefix(d, n - 1);
    }
  }

  /** `print(fib(10))` and `print(cache)`, starting from `cache = {}`: 55, and the keys 0 to 10 with their Fibonacci numbers. */
  method FibOfTen() returns (r: int, cache: seq<(int, int)>)
    ensures r == 55
    ensures KeySet(cache) == UpTo(10)
    ensures forall i :: 0 <= i < |cache| ==> cache[i].1 == Fibonacci(cache[i].0)
  {
    var c := new PyDict([]);
    r := Fib(10, c);
    cache := c.items;
    ClosedHoldsPrefix(cache, 10);
    assert Fibonacci(10) == 55;
  }

  /** The user dict as first displayed. */
  const User0: seq<(string, Value)> := [("name", Str("Sathya")), ("city", Str("Mysore")), ("age", Int(40))]
  /** After `user["role"] = "Engineer"`. */
  const User1: seq<(string, Value)> := User0 + [("role", Str("Engineer"))]
  /** After `user["age"] = 41`. */
  const User2: seq<(string, Value)> := [("name", Str("Sathya")), ("city", Str("Mysore")), ("age", Int(41)), ("role", Str("Engineer"))]
  /** After `del user["city"]`. */
  const User3: seq<(string, Value)> := [("name", Str("Sathya")), ("age", Int(41)), ("role", Str("Engineer"))]

  /** The display builds the dict it shows; `user["name"]` and `user.get("city")` read it. */
  lemma UserCreate()
    ensures Dicts.Valid(User0) && Dicts.FromPairs(User0) == User0
    ensures Dicts.GetItem(User0, "name") == Ok(Str("Sathya")) && Dicts.Lookup(User0, "city") == Some(Str("Mysore"))
  {
    assert Dicts.KeysOf(User0) == ["name", "city", "age"];
    Dicts.FromPairsOfValid(User0);
  }

  /** `user["role"] = "Engineer"` appends the new key. */
  lemma UserAddRole()
    ensures Dicts.Valid(User0) && Dicts.SetItem(User0, "role", Str("Engineer")) == User1
  {
    assert Dicts.KeysOf(User0) == ["name", "city", "age"];
  }

  /** `user["age"] = 41` changes the value in place. */
  lemma UserSetAge()
    ensures Dicts.Valid(User1) && Dicts.SetItem(User1, "age", Int(41)) == User2
  {
    assert Dicts.KeysOf(User1) == ["name", "city", "age", "role"];
    Dicts.SetItemAt(User1, 2, Int(41));
  }

  /** `del user["city"]` removes that entry and keeps the rest in order. */
  lemma UserDelCity()
    ensures Dicts.Valid(User2) && Dicts.DelItem(User2, "city") == Ok(User3)
  {
    assert Dicts.KeysOf(User2) == ["name", "city", "age", "role"];
    Dicts.DelItemAt(User2, 1);
    assert User2[..1] + User2[2..] == User3;
  }

  /** `{x: x * x for x in range(lo, hi)}`: each `x` from `lo` up to `hi - 1`, in order, mapped to its square. */
  function Squares(lo: int, hi: int): (r: seq<(int, int)>)
    ensures |r| == (if lo < hi then hi - lo else 0)
    ensures forall i :: 0 <= i < |r| ==> r[i] == (lo + i, (lo + i) * (lo + i))
  {
    if lo < hi then seq(hi - lo, i requires 0 <= i < hi - lo => (lo + i, (lo + i) * (lo + i))) else []
  }

  /** The keys of the squares dict are distinct, and every `x` in range maps to `x * x`. */
  lemma SquaresLookup(lo: int, hi: int, x: int)
    ensures Dicts.Valid(Squares(lo, hi))
    ensures Dicts.Lookup(Squares(lo, hi), x) == if lo <= x < hi then Some(x * x) else None
  {
    var r := Squares(lo, hi);
    var ks := Dicts.KeysOf(r);
    forall i, j | 0 <= i < j < |ks| ensures PySeq.At(ks, i) != PySeq.At(ks, j) {
      assert ks[i] == lo + i && ks[j] == lo + j;
    }
    if lo <= x < hi {
      assert r[x - lo].0 == x;
      Dicts.LookupAt(r, x - lo);
    } else {
      assert forall i :: 0 <= i < |r| ==> ks[i] == lo + i;
      assert !Dicts.HasKey(r, x);
    }
  }

  /** `squares` for `range(1, 6)`. */
  lemma SquaresToFive()
    ensures Squares(1, 6) == [(1, 1), (2, 4), (3, 9), (4, 16), (5, 25)]
  {
  }

  /** The frequency table of `"banana"`: `b` once, `a` three times, `n` twice, in that order. */
  method BananaFrequency() returns (freq: seq<(char, int)>)
    ensures freq == [('b', 1), ('a', 3), ('n', 2)]
  {
    freq := Frequency("banana");
    FrequencyOfBanana('b', 'a', 'n', freq);
  }

  /** The only frequency table of a word shaped like `"banana"`, over three distinct letters. */
  lemma FrequencyOfBanana<T(!new)>(b: T, a: T, n: T, freq: seq<(T, int)>)
    requires b != a && a != n && b != n
    requires FrequencyOf([b, a, n, a, n, a], freq)
    ensures freq == [(b, 1), (a, 3), (n, 2)]
  {
    var w := [b, a, n, a, n, a];
    var expected := [(b, 1), (a, 3), (n, 2)];
    assert w == [b, a, n] + [a, n, a];
    PySeq.UniqueOfDistinct([b, a, n]);
    PySeq.UniqueAppendSeen([b, a, n], [a, n, a]);
    assert Dicts.KeysOf(expected) == [b, a, n];
    forall c ensures Dicts.Lookup(freq, c) == Dicts.Lookup(expected, c) {
      BananaLookup(b, a, n, freq, c);
    }
    Dicts.Extensionality(freq, expected);
  }

  /** One letter's entry in the frequency table of a word shaped like `"banana"`. */
  lemma BananaLookup<T(!new)>(b: T, a: T, n: T, freq: seq<(T, int)>, c: T)
    requires b != a && a != n && b != n
    requires FrequencyOf([b, a, n, a, n, a], freq)
    ensures Dicts.Lookup(freq, c) == Dicts.Lookup([(b, 1), (a, 3), (n, 2)], c)
  {
    var w := [b, a, n, a, n, a];
    var expected := [(b, 1), (a, 3), (n, 2)];
    BananaCounts(b, a, n);
    assert Dicts.Lookup(freq, c) == if c in w then Some(PySeq.Count(w, c)) else None;
    if c == b {
      Dicts.LookupAt(expected, 0);
    } else if c == a {
      Dicts.LookupAt(expected, 1);
    } else if c == n {
      Dicts.LookupAt(expected, 2);
    } else {
      assert !Dicts.HasKey(expected, c);
    }
  }

  /** How often each letter occurs in a word shaped like `"banana"`. */
  lemma BananaCounts<T>(b: T, a: T, n: T)
    requires b != a && a != n && b != n
    ensures PySeq.Count([b, a, n, a, n, a], b) == 1
    ensures PySeq.Count([b, a, n, a, n, a], a) == 3
    ensures PySeq.Count([b, a, n, a, n, a], n) == 2
  {
    assert multiset([b, a, n, a, n, a]) == multiset{b, a, a, a, n, n};
  }

  /** `config["db"]["host"]` on the nested config dict. */
  lemma NestedLookup()
    ensures var config := [("db", [("host", Str("localhost")), ("port", Int(5432))]), ("features", [("new_ui", Bool(true))])];
            Dicts.GetItem(config, "db").Ok? && Dicts.GetItem(Dicts.GetItem(config, "db").value, "host") == Ok(Str("localhost"))
  {
    var config := [("db", [("host", Str("localhost")), ("port", Int(5432))]), ("features", [("new_ui", Bool(true))])];
    assert config[0].0 == "db";
    assert Dicts.Valid(config) by {
      assert Dicts.KeysOf(config) == ["db", "features"];
    }
    var db := config[0].1;
    assert db[0].0 == "host";
    assert Dicts.Valid(db) by {
      assert Dicts.KeysOf(db) == ["host", "port"];
    }
  }

  /** `coordinates[(1, 1)]`: a tuple key. */
  lemma TupleKey()
    ensures Dicts.GetItem([((0, 0), "Origin"), ((1, 1), "Point C")], (1, 1)) == Ok("Point C")
  {
    var coordinates := [((0, 0), "Origin"), ((1, 1), "Point C")];
    assert Dicts.KeysOf(coordinates) == [(0, 0), (1, 1)];
    assert coordinates[1].0 == (1, 1);
  }

  /** `dict(name="Ravi", dept="QA", level=3)`. */
  const Employee0: seq<(string, Value)> := [("name", Str("Ravi")), ("dept", Str("QA")), ("level", Int(3))]
  /** After `employee.update({"level": 4, "location": "Bengaluru"})`. */
  const Employee1: seq<(string, Value)> := [("name", Str("Ravi")), ("dept", Str("QA")), ("level", Int(4)), ("location", Str("Bengaluru"))]
  /** After `employee.pop("level")`. */
  const Employee2: seq<(string, Value)> := [("name", Str("Ravi")), ("dept", Str("QA")), ("location", Str("Bengaluru"))]

  /** `update` overwrites `level` in place and appends `location`. */
  lemma EmployeeUpdate()
    ensures Dicts.Valid(Employee0) && Dicts.FromPairs(Employee0) == Employee0
    ensures Dicts.Merge(Employee0, [("level", Int(4)), ("location", Str("Bengaluru"))]) == Employee1
  {
    EmployeeLevel();
    Dicts.FromPairsOfValid(Employee0);
    Dicts.MergeTwo(Employee0, ("level", Int(4)), ("location", Str("Bengaluru")));
    EmployeeLocation();
  }

  /** The employee dict with `level` already overwritten. */
  const EmployeeLevel4: seq<(string, Value)> := [("name", Str("Ravi")), ("dept", Str("QA")), ("level", Int(4))]

  /** `employee["level"] = 4`, the update's first assignment. */
  lemma EmployeeLevel()
    ensures Dicts.Valid(Employee0) && Dicts.SetItem(Employee0, "level", Int(4)) == EmployeeLevel4
  {
    assert Dicts.KeysOf(Employee0) == ["name", "dept", "level"];
    Dicts.SetItemAt(Employee0, 2, Int(4));
    assert Employee0[2 := ("level", Int(4))] == EmployeeLevel4;
  }

  /** `employee["location"] = "Bengaluru"`, the update's second assignment. */
  lemma EmployeeLocation()
    ensures Dicts.Valid(EmployeeLevel4) && Dicts.SetItem(EmployeeLevel4, "location", Str("Bengaluru")) == Employee1
  {
    assert Dicts.KeysOf(EmployeeLevel4) == ["name", "dept", "level"];
    assert !Dicts.HasKey(EmployeeLevel4, "location");
    assert EmployeeLevel4 + [("location", Str("Bengaluru"))] == Employee1;
  }

  /** `employee.pop("level")` returns 4; `employee.popitem()` then returns the last pair, `("location", "Bengaluru")`. */
  lemma EmployeePops()
    ensures Dicts.Valid(Employee1) && Dicts.Pop(Employee1, "level") == Ok((Int(4), Employee2))
    ensures Dicts.Valid(Employee2)
    ensures Dicts.PopItem(Employee2) == Ok((("location", Str("Bengaluru")), [("name", Str("Ravi")), ("dept", Str("QA"))]))
  {
    assert Dicts.KeysOf(Employee1) == ["name", "dept", "level", "location"];
    Dicts.DelItemAt(Employee1, 2);
    assert Employee1[..2] + Employee1[3..] == Employee2;
    assert Dicts.KeysOf(Employee2) == ["name", "dept", "location"];
    assert Employee2[..2] == [("name", Str("Ravi")), ("dept", Str("QA"))];
  }

  /** `settings.setdefault("timeout", 10)` answers 30 and changes nothing; `setdefault("retries", 3)` answers 3 and inserts it. */
  lemma SettingsDefaults()
    ensures Dicts.SetDefault([("timeout", 30)], "timeout", 10) == (30, [("timeout", 30)])
    ensures Dicts.SetDefault([("timeout", 30)], "retries", 3) == (3, [("timeout", 30), ("retries", 3)])
  {
    var settings := [("timeout", 30)];
    assert Dicts.KeysOf(settings) == ["timeout"];
    assert settings[0].0 == "timeout";
    assert Dicts.Lookup(settings, "timeout") == Some(30);
    assert !Dicts.HasKey(settings, "retries");
    assert settings + [("retries", 3)] == [("timeout", 30), ("retries", 3)];
  }

  /** `{"x": 1, "y": 2} | {"y": 99, "z": 3}`: `y` keeps its place and takes the right operand's value. */
  lemma MergeExample()
    ensures Dicts.Merge([("x", 1), ("y", 2)], [("y", 99), ("z", 3)]) == [("x", 1), ("y", 99), ("z", 3)]
  {
    var a := [("x", 1), ("y", 2)];
    assert Dicts.KeysOf(a) == ["x", "y"];
    Dicts.MergeTwo(a, ("y", 99), ("z", 3));
    Dicts.SetItemAt(a, 1, 99);
    assert a[1 := ("y", 99)] == [("x", 1), ("y", 99)];
    MergeExampleLast();
  }

  /** The second assignment of the merge appends `z`. */
  lemma MergeExampleLast()
    ensures Dicts.Valid([("x", 1), ("y", 99)])
    ensures Dicts.SetItem([("x", 1), ("y", 99)], "z", 3) == [("x", 1), ("y", 99), ("z", 3)]
  {
    var m := [("x", 1), ("y", 99)];
    assert Dicts.KeysOf(m) == ["x", "y"];
    assert !Dicts.HasKey(m, "z");
    assert m + [("z", 3)] == [("x", 1), ("y", 99), ("z", 3)];
  }

  /** `c |= {"region": "in-south-1"}` on `{"env": "dev"}` appends the new key. */
  lemma MergeInPlaceExample()
    ensures Dicts.Merge([("env", "dev")], [("region", "in-south-1")]) == [("env", "dev"), ("region", "in-south-1")]
  {
    var c := [("env", "dev"), ("region", "in-south-1")];
    assert Dicts.KeysOf(c) == ["env", "region"];
    Dicts.MergeFresh([("env", "dev")], [("region", "in-south-1")]);
  }

  /** Inverting `{"IN": "India", "US": "USA"}`. */
  lemma InvertExample()
    ensures Dicts.Invert([("IN", "India"), ("US", "USA")]) == [("India", "IN"), ("USA", "US")]
  {
    var d := [("IN", "India"), ("US", "USA")];
    assert Dicts.ValuesOf(d) == ["India", "USA"];
    Dicts.InvertIsSwap(d);
  }

  /** The people of the group-by example. */
  const People: seq<Person<string, string>> := [Person("A", "X"), Person("B", "Y"), Person("C", "X")]

  /** The grouping the script prints for `People`. */
  const Groups: seq<(string, seq<string>)> := [("X", ["A", "C"]), ("Y", ["B"])]

  /** Grouping `People` by team gives `{"X": ["A", "C"], "Y": ["B"]}`. */
  method TeamsExample() returns (byTeam: seq<(string, seq<string>)>)
    ensures byTeam == Groups
  {
    byTeam := GroupBy(People);
    GroupsOfThree("A", "B", "C", "X", "Y", byTeam);
  }

  /** Three people, the first and last in team `x`, the middle one in another team `y`, group as `{x: [a, c], y: [b]}`. */
  lemma GroupsOfThree<N, T(!new)>(a: N, b: N, c: N, x: T, y: T, byTeam: seq<(T, seq<N>)>)
    requires x != y
    requires GroupsOf([Person(a, x), Person(b, y), Person(c, x)], byTeam)
    ensures byTeam == [(x, [a, c]), (y, [b])]
  {
    var people := [Person(a, x), Person(b, y), Person(c, x)];
    var expected := [(x, [a, c]), (y, [b])];
    ThreeTeams(a, b, c, x, y);
    ThreeNames(a, b, c, x, y);
    assert Dicts.KeysOf(expected) == [x, y];
    forall t ensures Dicts.Lookup(byTeam, t) == Dicts.Lookup(expected, t) {
      if t == x {
        Dicts.LookupAt(expected, 0);
      } else if t == y {
        Dicts.LookupAt(expected, 1);
      } else {
        assert !Dicts.HasKey(expected, t);
      }
    }
    Dicts.Extensionality(byTeam, expected);
  }

  /** The teams of the three people, and the distinct ones. */
  lemma ThreeTeams<N, T>(a: N, b: N, c: N, x: T, y: T)
    requires x != y
    ensures Teams([Person(a, x), Person(b, y), Person(c, x)]) == [x, y, x]
    ensures PySeq.Unique([x, y, x]) == [x, y]
  {
    assert [x, y, x] == [x, y] + [x];
    PySeq.UniqueOfDistinct([x, y]);
    PySeq.UniqueAppendSeen([x, y], [x]);
  }

  /** The members of each of the two teams, in order. */
  lemma ThreeNames<N, T>(a: N, b: N, c: N, x: T, y: T)
    requires x != y
    ensures NamesIn([Person(a, x), Person(b, y), Person(c, x)], x) == [a, c]
    ensures NamesIn([Person(a, x), Person(b, y), Person(c, x)], y) == [b]
  {
    var one := [Person(a, x)];
    var two := one + [Person(b, y)];
    assert [Person(a, x), Person(b, y), Person(c, x)] == two + [Person(c, x)];
    assert one == [] + [Person(a, x)];
    NamesSnoc([], Person(a, x), x);
    NamesSnoc([], Person(a, x), y);
    NamesSnoc(one, Person(b, y), x);
    NamesSnoc(one, Person(b, y), y);
    NamesSnoc(two, Person(c, x), x);
    NamesSnoc(two, Person(c, x), y);
  }
}
