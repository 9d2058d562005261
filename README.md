# Python's built-in containers, modelled and proved

This project models the four data-type scripts of a Python tutorial: `dict`, `set`, `list` and `tuple`. Each module covers one container:

- the container's operations;
- the loops the scripts build on them: frequency count, group-by, memoised Fibonacci, order-preserving dedupe and duplicate finding;
- the concrete results the scripts print.

Modules:

| module | file | contents |
|---|---|---|
| `Wrappers` | `wrappers.dfy` | `Option`, `Result` and `Outcome`, and Python's exceptions (`KeyError`, `IndexError`, `ValueError`, `TypeError`) as values |
| `Values` | `values.dfy` | the mixed scalar and tuple values the scripts store |
| `PySeq` | `pyseq.dfy` | the sequence protocol that `list` and `tuple` share: subscripts with negative indices, clamped slices, `+`, `*`, `count`, `index`, and order-preserving dedupe |
| `Dicts` | `dicts.dfy` | an insertion-ordered dict, written as a list of `(key, value)` pairs whose keys are all different; every dict operation as a function |
| `DictExamples` | `dict_examples.dfy` | the `PyDict` object, the frequency and group-by loops, `fib` with its global cache, and the dict script's results |
| `Sets` | `sets.dfy` | set algebra, the `PySet` object, the two loops that use a `seen` set, and the set script's results |
| `Lists` | `lists.dfy` | list mutations as functions from old contents to new, the `PyList` object whose methods follow them, `sorted`, `join`, and the list script's results |
| `Tuples` | `tuples.dfy` | nested subscripts, unpacking, refused item assignment, repetition laws, and the tuple script's results |

An object whose methods change it in place is a class whose field the methods reassign: `PyDict`, `PySet` and `PyList`. Each class method is proved to leave exactly the contents that a pure function of the old contents gives. Each pure function's own properties are proved as lemmas.

A loop in a script stays a loop: `Frequency`, `GroupBy`, `OrderedUnique` and `FindDuplicates`. Each loop carries as its invariant the specification of the prefix processed so far.

## Model

| member | source | states |
|---|---|---|
| PySeq.GetItem | dataTypes/list-example.py:9-12 | `s[i]` succeeds exactly for `-len <= i < len`. A negative `i` selects `s[len + i]`. Otherwise it raises IndexError. |
| PySeq.GetItemLast | dataTypes/tuple-example.py:11 | `s[-1]` is the last element of a non-empty sequence. |
| PySeq.Slice | dataTypes/list-example.py:15-17 | `s[a:b]` is always a contiguous piece `s[lo..hi]` of `s`. The lemmas below fix which piece each kind of bound selects. |
| PySeq.SliceOpen | dataTypes/list-example.py:16-17 | An omitted start is 0 and an omitted stop is the length: `s[:k]` is the first `k` elements, `s[k:]` the rest, and `s[:]` all of `s`. |
| PySeq.SliceNegative | dataTypes/list-example.py:15-17 | A start or stop `i` with `-len <= i < 0` selects as `len + i` does. |
| PySeq.SliceClamp | dataTypes/list-example.py:15-17 | A start or stop beyond the length acts as the length. One below `-len` acts as 0. |
| PySeq.SliceWithin | dataTypes/tuple-example.py:16 | Within range, `s[i:j]` is the elements from `i` to `j - 1`, and there are `j - i` of them. |
| PySeq.SliceCrossed | dataTypes/list-example.py:15 | A slice whose stop is not after its start is empty. |
| PySeq.SliceSplit | dataTypes/tuple-example.py:17-18 | `s[:k] + s[k:] == s` for every integer `k`, including negative and out-of-range `k`. |
| PySeq.AccessOfFive | dataTypes/list-example.py:9-17 | For five elements, `[0]`, `[2]`, `[-1]`, `[1:4]`, `[:3]` and `[3:]` select the elements the comments name. |
| PySeq.Concat | dataTypes/tuple-example.py:46-49 | `a + b` has length `len(a) + len(b)`: `a`'s elements first, then `b`'s. |
| PySeq.Repeat | dataTypes/tuple-example.py:52-54 | `s * k`: `k` copies of `s` back to back, and none for `k <= 0`. Its length and positions are stated by the next two lemmas. |
| PySeq.RepeatLength | dataTypes/tuple-example.py:52-54 | `s * k` has length `k * len(s)`, or 0 when `k <= 0`. |
| PySeq.RepeatIndex | dataTypes/tuple-example.py:52-54 | Position `i` of `s * k` holds `s[i % len(s)]`. |
| PySeq.Count | dataTypes/tuple-example.py:69 | `s.count(x)` is the multiplicity of `x` in `s`. |
| PySeq.CountSnoc | dataTypes/list-example.py:95 | Appending `x` adds one to the count of `x` and leaves every other count alone. |
| PySeq.FirstIndex | dataTypes/list-example.py:92 | It finds a position exactly when `x` occurs. That position holds `x`, and no earlier position does. |
| PySeq.Index | dataTypes/tuple-example.py:70 | `s.index(x)` is the first position holding `x`. It raises ValueError exactly when `x` does not occur. |
| PySeq.FirstIndexIs | dataTypes/list-example.py:92 | A position holding `x`, with no `x` before it, is what `index` returns. |
| PySeq.Unique | dataTypes/set-examples.py:82-89 | The dedupe has no repeats, the same elements as its input, and is no longer than it. |
| PySeq.UniqueSnoc | dataTypes/set-examples.py:86-88 | Appending an element already seen leaves the dedupe unchanged. Appending a new one appends it to the dedupe. |
| PySeq.UniqueOrder | dataTypes/set-examples.py:82-89 | The dedupe lists the elements in the order of their first occurrence in the input. |
| PySeq.UniqueOfDistinct | dataTypes/set-examples.py:82-89 | A sequence without repeats is its own dedupe. |
| PySeq.UniqueAppendSeen | dataTypes/set-examples.py:82-89 | Appending only elements already present leaves the dedupe unchanged. |
| PySeq.DistinctSnoc | dataTypes/set-examples.py:86-88 | `s + [x]` has no repeats exactly when `s` has none and `x` is not in `s`. |
| PySeq.Elems | dataTypes/set-examples.py:35 | `set(s)` holds exactly the elements that occur in `s`. Its size is in `Sets.FromSeqSize`. |
| Dicts.Lookup | dataTypes/dist-examples.py:14 | `d.get(k)` finds a value exactly when `k` is a key. |
| Dicts.HasKey | dataTypes/dist-examples.py:113 | `k in d` holds exactly when `k` is one of `d`'s keys. |
| Dicts.LookupAt | dataTypes/dist-examples.py:13-14 | In a dict, looking up the key of any entry gives that entry's value. |
| Dicts.LookupEntry | dataTypes/dist-examples.py:13-14 | `d.get(k) == v` exactly when `(k, v)` is an entry of `d`. |
| Dicts.Extensionality | dataTypes/dist-examples.py:5-10 | Two dicts with the same keys in the same order, and the same lookups, are equal. |
| Dicts.GetItem | dataTypes/dist-examples.py:13 | `d[k]` gives the bound value. A missing key raises KeyError. |
| Dicts.SetItem | dataTypes/dist-examples.py:17-18 | After `d[k] = v`, `k` maps to `v`, every other key's lookup is unchanged, and the dict stays valid. A present key keeps its position. A new key is appended. |
| Dicts.SetItemAt | dataTypes/dist-examples.py:18 | Assigning to an existing key replaces that entry's value in place. |
| Dicts.DelItem | dataTypes/dist-examples.py:22 | `del d[k]` succeeds exactly when `k` is a key and afterwards `k` is gone. It removes exactly that one entry, keeps the others in order, and leaves every other lookup unchanged. A missing key raises KeyError. |
| Dicts.DelItemAt | dataTypes/dist-examples.py:22 | Deleting, or popping, the key at position `i` cuts out exactly entry `i`. `pop` also returns that entry's value. |
| Dicts.RemoveAtLookup | dataTypes/dist-examples.py:22 | Cutting out entry `i` leaves a valid dict without its key, and every other key looks up as before. |
| Dicts.DelItemAfterInsert | dataTypes/dist-examples.py:17-22 | Deleting a key just inserted gives back the dict as it was. |
| Dicts.Pop | dataTypes/dist-examples.py:67-68 | `d.pop(k)` returns `k`'s value and the dict `del` leaves. A missing key raises KeyError. |
| Dicts.PopItem | dataTypes/dist-examples.py:71-74 | `d.popitem()` returns the last-inserted pair and the rest, which form the dict when put back together. An empty dict raises KeyError. |
| Dicts.PopItemAfterInsert | dataTypes/dist-examples.py:71-74 | `popitem` after inserting a new key returns that pair and the dict before the insertion. |
| Dicts.SetDefault | dataTypes/dist-examples.py:77-80 | If `k` is present, `setdefault` returns its value and changes nothing. Otherwise it appends `(k, default)` and returns `default`. |
| Dicts.SetDefaultTwice | dataTypes/dist-examples.py:78-79 | A second `setdefault` on the same key answers like the first and changes nothing. |
| Dicts.Merge | dataTypes/dist-examples.py:82-91 | `a \| b` and `update`: every key takes `b`'s value when `b` has it, and `a`'s otherwise. The keys are those of `a` and then the new ones of `b`, in first-occurrence order. |
| Dicts.MergeSnoc | dataTypes/dist-examples.py:63 | Merging in one more pair is assigning it after the rest: the pairs of the right operand are assigned in order. |
| Dicts.MergeStep | dataTypes/dist-examples.py:63 | If the merge so far has the keys of `a` and then the new keys of `init`, with `b`'s values winning, then assigning one more pair keeps that true for `init + [p]`. |
| Dicts.MergeTwo | dataTypes/dist-examples.py:63 | Merging a two-entry dict assigns its first pair, then its second. |
| Dicts.MergeEmpty | dataTypes/dist-examples.py:85 | Merging an empty dict changes nothing. |
| Dicts.MergeFresh | dataTypes/dist-examples.py:90 | Merging pairs whose keys are all new appends them. |
| Dicts.LookupSnoc | dataTypes/dist-examples.py:17 | In a list of pairs, the last binding of a key wins: after appending `p`, `p`'s key looks up `p`'s value and every other key looks up as before. |
| Dicts.ValidSnoc | dataTypes/dist-examples.py:17 | Appending an entry keeps a dict valid exactly when its key is new. |
| Dicts.FromPairs | dataTypes/dist-examples.py:59 | `dict(...)` and a dict display make a valid dict. Its keys are the distinct keys in first-occurrence order, and its lookups are those of the pairs, the last binding winning. |
| Dicts.FromPairsOfValid | dataTypes/dist-examples.py:5-9 | A display without a repeated key builds exactly those entries, in order. |
| Dicts.Swap | dataTypes/dist-examples.py:95 | Each `(k, v)` becomes `(v, k)` at the same position. |
| Dicts.SwapSwap | dataTypes/dist-examples.py:94-96 | Swapping twice gives back the pairs. Swapping exchanges the keys and the values. |
| Dicts.Invert | dataTypes/dist-examples.py:94-96 | `{v: k for k, v in d.items()}` is a valid dict. Its keys are the distinct values of `d`, and its lookups are those of the swapped pairs. |
| Dicts.InvertLaterWins | dataTypes/dist-examples.py:95 | When several keys share a value, the comprehension keeps the last of them. |
| Dicts.LookupLast | dataTypes/dist-examples.py:95 | A pair whose key does not occur later is the binding that counts. |
| Dicts.InvertLookup | dataTypes/dist-examples.py:93-96 | With unique values, the inverse maps `v` to `k` exactly when `d` maps `k` to `v`. |
| Dicts.InvertIsSwap | dataTypes/dist-examples.py:93-96 | With unique values, inverting is swapping each pair in place. |
| Dicts.InvertInvolution | dataTypes/dist-examples.py:93-96 | With unique values, inverting twice gives back the dict. |
| DictExamples.PyDict.constructor | dataTypes/dist-examples.py:5-9 | A new dict object holds the dict its pairs build. |
| DictExamples.PyDict.GetItem | dataTypes/dist-examples.py:13 | `d[k]` reads the object's current entries. |
| DictExamples.PyDict.Contains | dataTypes/dist-examples.py:113 | `n in cache` tests for the key. |
| DictExamples.PyDict.Get | dataTypes/dist-examples.py:14 | `d.get(k)` reads the object's current entries. |
| DictExamples.PyDict.SetItem | dataTypes/dist-examples.py:17-18 | The object's entries become those `Dicts.SetItem` gives. |
| DictExamples.PyDict.DelItem | dataTypes/dist-examples.py:22 | The entry is removed as `Dicts.DelItem` says. A missing key raises KeyError and leaves the object unchanged. |
| DictExamples.PyDict.Pop | dataTypes/dist-examples.py:67 | `pop` returns the value and leaves the dict `Dicts.Pop` gives. A missing key raises KeyError and leaves the object unchanged. |
| DictExamples.PyDict.PopItem | dataTypes/dist-examples.py:72 | `popitem` returns the last pair, and the remaining entries plus that pair are the old entries. An empty dict raises KeyError and is unchanged. |
| DictExamples.PyDict.SetDefault | dataTypes/dist-examples.py:78-79 | The answer and the new entries are those `Dicts.SetDefault` gives. |
| DictExamples.PyDict.Update | dataTypes/dist-examples.py:63 | `update` and `\|=` leave the object holding `Dicts.Merge` of old and new. |
| DictExamples.PyDict.Or | dataTypes/dist-examples.py:85 | `a \| b` is a fresh object holding the merge. |
| DictExamples.Frequency | dataTypes/dist-examples.py:34-38 | The loop's table has one key per distinct character of the word, in first-occurrence order. Each key holds the character's number of occurrences. |
| DictExamples.FrequencyStep | dataTypes/dist-examples.py:37 | One tally step turns the table of `w` into the table of `w + [ch]`. |
| DictExamples.FrequencyStepAt | dataTypes/dist-examples.py:37 | After one tally step, each character maps to its count in the extended word, or is absent if it does not occur. |
| DictExamples.Tally | dataTypes/dist-examples.py:37 | `frequency[ch] = frequency.get(ch, 0) + 1`: the table stays valid, and `ch`'s count goes up by one, starting from 0 for a new character. Every other character keeps its entry. |
| DictExamples.FrequencyStepSame | dataTypes/dist-examples.py:37 | The tallied character's count goes up by one. |
| DictExamples.FrequencyStepOther | dataTypes/dist-examples.py:37 | Every other character's entry stays as it was. |
| DictExamples.KeysStep | dataTypes/dist-examples.py:37 | Tallying a character keeps the keys equal to the distinct characters seen so far, in order. |
| DictExamples.BananaFrequency | dataTypes/dist-examples.py:34-38 | For `"banana"` the table is `{b: 1, a: 3, n: 2}`. |
| DictExamples.FrequencyOfBanana | dataTypes/dist-examples.py:34-38 | For any word shaped like `"banana"`, over three distinct letters, the table is unique and is `{b: 1, a: 3, n: 2}`. |
| DictExamples.BananaLookup | dataTypes/dist-examples.py:34-38 | Any frequency table of a word shaped like `"banana"` answers every lookup as `{b: 1, a: 3, n: 2}` does. |
| DictExamples.BananaCounts | dataTypes/dist-examples.py:34 | In a word shaped like `"banana"`, the three letters occur once, three times and twice. |
| DictExamples.Teams | dataTypes/dist-examples.py:105-106 | The team of each person, one per person, in order. |
| DictExamples.GroupBy | dataTypes/dist-examples.py:98-107 | Teams appear in order of first occurrence. `by_team[t]` lists the names of the people in team `t`, in input order. |
| DictExamples.GroupStep | dataTypes/dist-examples.py:106 | One `setdefault(...).append(...)` step turns the grouping of `people` into that of `people + [p]`. |
| DictExamples.AddMember | dataTypes/dist-examples.py:106 | `by_team.setdefault(team, []).append(name)`: the dict stays valid, and the person's team maps to its old list, or `[]` for a new team, with the name appended. Every other team keeps its list. |
| DictExamples.GroupLookupSame | dataTypes/dist-examples.py:106 | The added person's team gains their name at the end. |
| DictExamples.GroupLookupOther | dataTypes/dist-examples.py:106 | Every other team keeps its list. |
| DictExamples.NamesAbsent | dataTypes/dist-examples.py:106 | A team nobody belongs to has no names. |
| DictExamples.TeamsSnoc | dataTypes/dist-examples.py:105 | Adding a person adds their team at the end of the team sequence. |
| DictExamples.NamesSnoc | dataTypes/dist-examples.py:106 | Adding a person adds their name to their own team's list only. |
| DictExamples.TeamsExample | dataTypes/dist-examples.py:99-107 | The script's people group as `{"X": ["A", "C"], "Y": ["B"]}`. |
| DictExamples.GroupsOfThree | dataTypes/dist-examples.py:99-107 | Three people, the first and last in one team and the middle one in another, have exactly that grouping. |
| DictExamples.ThreeTeams | dataTypes/dist-examples.py:99-103 | The teams of those three people, and the distinct teams in order. |
| DictExamples.ThreeNames | dataTypes/dist-examples.py:99-103 | The members of each team, in order. |
| DictExamples.Fib | dataTypes/dist-examples.py:110-119 | `fib(n)` returns the n-th Fibonacci number, `n` itself for `n <= 1`. The cache stays correct and closed under predecessors. Old entries stay first and unchanged. Only keys in `fib(n)`'s reach are added, and `n` is cached. |
| DictExamples.FibHit | dataTypes/dist-examples.py:113-114 | A cache hit gives the right number. |
| DictExamples.FibBase | dataTypes/dist-examples.py:115-116 | Storing `n` for `n <= 1` keeps the cache correct and grows it as promised. |
| DictExamples.FibCompute | dataTypes/dist-examples.py:117-118 | Storing `fib(n-1) + fib(n-2)`, after the two calls, keeps the cache correct and grows it as promised. |
| DictExamples.FibStoreFresh | dataTypes/dist-examples.py:116-118 | Storing the right value for a new key whose predecessors are cached keeps the cache correct and closed. |
| DictExamples.FibGrow | dataTypes/dist-examples.py:118 | After the two recursive calls, `n` is not cached yet and both predecessors are. Nothing beyond `n`'s reach was added. |
| DictExamples.ClosedAppend | dataTypes/dist-examples.py:116-118 | Appending a key whose predecessors are present keeps the cache closed. |
| DictExamples.ClosedHoldsPrefix | dataTypes/dist-examples.py:122 | A closed cache holding some `n >= 2` holds every key from 0 to `n`. |
| DictExamples.UpTo | dataTypes/dist-examples.py:122 | The set of integers from 0 to `n`. |
| DictExamples.FibOfTen | dataTypes/dist-examples.py:121-122 | `fib(10)` from an empty cache is 55. The cache's keys are exactly 0 to 10, each with its Fibonacci number. |
| DictExamples.Squares | dataTypes/dist-examples.py:30 | `{x: x * x for x in range(lo, hi)}` holds, in order, each `x` from `lo` to `hi - 1` with its square. |
| DictExamples.SquaresLookup | dataTypes/dist-examples.py:30 | The squares dict is valid and maps exactly the `x` in range to `x * x`. |
| DictExamples.SquaresToFive | dataTypes/dist-examples.py:30-31 | For `range(1, 6)`: `{1: 1, 2: 4, 3: 9, 4: 16, 5: 25}`. |
| DictExamples.UserCreate | dataTypes/dist-examples.py:5-14 | The user display builds the dict it shows. `user["name"]` is `"Sathya"` and `user.get("city")` is `"Mysore"`. |
| DictExamples.UserAddRole | dataTypes/dist-examples.py:17 | `user["role"] = "Engineer"` appends the new key. |
| DictExamples.UserSetAge | dataTypes/dist-examples.py:18 | `user["age"] = 41` changes the value in place. |
| DictExamples.UserDelCity | dataTypes/dist-examples.py:22 | `del user["city"]` removes that entry and keeps the rest in order. |
| DictExamples.NestedLookup | dataTypes/dist-examples.py:41-45 | `config["db"]["host"]` is `"localhost"`. |
| DictExamples.TupleKey | dataTypes/dist-examples.py:48-52 | `coordinates[(1, 1)]` is `"Point C"`. |
| DictExamples.EmployeeUpdate | dataTypes/dist-examples.py:59-64 | `update` overwrites `level` in place and appends `location`. |
| DictExamples.EmployeeLevel | dataTypes/dist-examples.py:63 | The update's first assignment overwrites `level`. |
| DictExamples.EmployeeLocation | dataTypes/dist-examples.py:63 | The update's second assignment appends `location`. |
| DictExamples.EmployeePops | dataTypes/dist-examples.py:66-74 | `pop("level")` returns 4. `popitem()` then returns `("location", "Bengaluru")` and leaves `name` and `dept`. |
| DictExamples.SettingsDefaults | dataTypes/dist-examples.py:76-80 | `setdefault("timeout", 10)` answers 30 and changes nothing. `setdefault("retries", 3)` answers 3 and appends `retries`. |
| DictExamples.MergeExample | dataTypes/dist-examples.py:82-86 | `{"x": 1, "y": 2} \| {"y": 99, "z": 3}` is `{"x": 1, "y": 99, "z": 3}`. |
| DictExamples.MergeExampleLast | dataTypes/dist-examples.py:85 | The merge's last assignment appends `z`. |
| DictExamples.MergeInPlaceExample | dataTypes/dist-examples.py:88-91 | `c \|= {"region": "in-south-1"}` appends `region`. |
| DictExamples.InvertExample | dataTypes/dist-examples.py:93-96 | `{"IN": "India", "US": "USA"}` inverts to `{"India": "IN", "USA": "US"}`. |
| Sets.FromSeqSize | dataTypes/set-examples.py:34-36 | `set(s)` holds exactly the elements of `s`. Its size is the number of distinct elements, at most `len(s)`. |
| Sets.DistinctSize | dataTypes/set-examples.py:5 | Without repeats, a sequence has as many elements as its set. |
| Sets.Union | dataTypes/set-examples.py:28 | `x in a \| b` exactly when `x` is in `a` or in `b`. |
| Sets.Intersection | dataTypes/set-examples.py:29 | `x in a & b` exactly when `x` is in both. |
| Sets.Difference | dataTypes/set-examples.py:30 | `x in a - b` exactly when `x` is in `a` and not in `b`. |
| Sets.SymmetricDifference | dataTypes/set-examples.py:31 | `x in a ^ b` exactly when `x` is in exactly one of the two. |
| Sets.SymmetricDifferenceIs | dataTypes/set-examples.py:31 | `a ^ b == (a \| b) - (a & b)`, and `^` is symmetric. |
| Sets.IsSubset | dataTypes/set-examples.py:70 | `small.issubset(big)`: every element of `small` is in `big`. |
| Sets.IsSuperset | dataTypes/set-examples.py:71 | `big.issuperset(small)`: every element of `small` is in `big`. |
| Sets.IsDisjoint | dataTypes/set-examples.py:74-75 | `a.isdisjoint(b)`: no element of `a` is in `b`. |
| Sets.AlgebraBounds | dataTypes/set-examples.py:28-30 | Both operands are in the union. The intersection is in both. `a - b` and `a & b` split `a` into two disjoint parts. |
| Sets.SubsetSuperset | dataTypes/set-examples.py:67-71 | `small.issubset(big)` exactly when `big.issuperset(small)`, exactly when `small <= big`. |
| Sets.DisjointIffEmptyIntersection | dataTypes/set-examples.py:73-75 | `isdisjoint` exactly when the intersection is empty. |
| Sets.SquareSet | dataTypes/set-examples.py:78 | `{x * x for x in range(lo, hi)}` holds every such square and nothing else. |
| Sets.PySet.constructor | dataTypes/set-examples.py:5 | A set display or `set(items)` holds the elements of `items` once each. |
| Sets.PySet.Contains | dataTypes/set-examples.py:21-22 | `x in s` is membership. |
| Sets.PySet.Add | dataTypes/set-examples.py:9 | `add` unions in one element. |
| Sets.PySet.Remove | dataTypes/set-examples.py:13 | `remove` takes out a present element. An absent one raises KeyError and changes nothing. |
| Sets.PySet.Discard | dataTypes/set-examples.py:16-17 | `discard` takes out the element if present and never fails. An absent element changes nothing. |
| Sets.PySet.Update | dataTypes/set-examples.py:52 | `update` unions in every element of the list. |
| Sets.PySet.Pop | dataTypes/set-examples.py:61-65 | `pop` removes and returns some element of a non-empty set. An empty set raises KeyError and is unchanged. |
| Sets.OrderedUnique | dataTypes/set-examples.py:81-89 | The loop's output is the input deduplicated in first-occurrence order. Its `seen` is the set of the input. |
| Sets.DuplicatesOf | dataTypes/set-examples.py:91-100 | The elements that occur at least twice. |
| Sets.FindDuplicates | dataTypes/set-examples.py:91-100 | `dups` is exactly the elements with count at least 2. `seen` is the set of all elements. |
| Sets.DuplicatesMeaning | dataTypes/set-examples.py:96-97 | An element is a duplicate exactly when it occurs at least twice. |
| Sets.DuplicatesStep | dataTypes/set-examples.py:95-99 | One turn adds `n` to `seen`. It adds `n` to `dups` exactly when `n` was seen before. |
| Sets.CountPositive | dataTypes/set-examples.py:96 | An element occurs at least once exactly when it is in the sequence. |
| Sets.BasicSetExample | dataTypes/set-examples.py:5-22 | `{1, 2, 3, 3, 4}` after `add(5)`, `remove(2)` and `discard(999)` is `{1, 3, 4, 5}`. `3 in` it is true and `10 in` it is false. |
| Sets.AlgebraExample | dataTypes/set-examples.py:25-31 | For `{1, 2, 3}` and `{3, 4, 5}`: union `{1..5}`, intersection `{3}`, difference `{1, 2}`, symmetric difference `{1, 2, 4, 5}`. |
| Sets.FromListExample | dataTypes/set-examples.py:34-53 | `set([1, 2, 2, 3, 4, 4, 5])` is `{1..5}`. `set(["a", "b", "a", "c"])` updated with `["d", "e"]` is `{"a".."e"}`. |
| Sets.DiscardExample | dataTypes/set-examples.py:56-59 | `discard(99)` leaves `{1, 2, 3}` as it was. |
| Sets.PopExample | dataTypes/set-examples.py:62-65 | `pop` returns one of red, green and blue, and the other two remain. |
| Sets.ElemsOfThree | dataTypes/set-examples.py:62 | A three-element display holds those three elements. |
| Sets.RemoveOneOfThree | dataTypes/set-examples.py:65 | Taking one of three distinct elements out leaves two. |
| Sets.PredicateExample | dataTypes/set-examples.py:68-75 | `{1, 2}` is a subset of `{1, 2, 3, 4}`, which is a superset of it. `{1, 2}` is disjoint from `{3, 4}` and not from `{2, 3}`. |
| Sets.SquareSetExample | dataTypes/set-examples.py:78 | The squares of 1 to 5 are `{1, 4, 9, 16, 25}`. |
| Sets.OrderedUniqueExample | dataTypes/set-examples.py:82-89 | `["a", "b", "a", "c", "b", "d"]` dedupes to `["a", "b", "c", "d"]`. |
| Sets.UniqueOfShape | dataTypes/set-examples.py:82 | Any list shaped like that one, over four distinct items, dedupes to its four items in order. |
| Sets.UniqueOfPrefix | dataTypes/set-examples.py:82 | The first five items of that shape dedupe to three. |
| Sets.UniqueOfRepeat | dataTypes/set-examples.py:82 | `[a, b, a]` dedupes to `[a, b]`. |
| Sets.DuplicatesExample | dataTypes/set-examples.py:92-100 | The duplicates of `[1, 2, 2, 3, 3, 3, 4]` are `{2, 3}`, and all four values were seen. |
| Sets.DuplicatesOfShape | dataTypes/set-examples.py:92 | Any list shaped like that one has those duplicates and that set. |
| Sets.CountsOfShape | dataTypes/set-examples.py:92 | The counts 1, 2, 3 and 1 of the four items, and 0 for anything else. |
| Sets.FrozenSetKey | dataTypes/set-examples.py:103-107 | `frozenset([1, 2, 2, 3])` is `{1, 2, 3}`, and as a dict key it finds its value. |
| Lists.Assigned | dataTypes/list-example.py:20-21 | `l[i] = v` succeeds exactly for `-len <= i < len`. Afterwards `l[i]` is `v`, the length is the same, and every other position is unchanged. Otherwise it raises IndexError. |
| Lists.Inserted | dataTypes/list-example.py:28-29 | `insert(i, x)` puts `x` at `i`, adjusted like a slice bound. Earlier elements stay in place, later ones move one place right, and the list is one longer. |
| Lists.Removed | dataTypes/list-example.py:32-33 | `remove(x)` removes one copy of `x`: the list is one shorter, with one `x` fewer. Elements before the first `x` stay in place and later ones move one left. An absent `x` raises ValueError. |
| Lists.RemoveInserted | dataTypes/list-example.py:28-33 | Inserting an `x` that does not occur before the insertion point, then removing `x`, gives back the list. |
| Lists.InsertSecond | dataTypes/list-example.py:28 | `insert(1, x)` puts `x` right after the first element. |
| Lists.RemoveSecond | dataTypes/list-example.py:32 | `remove(x)` of an `x` in second place, and not in first, takes out that one. |
| Lists.Popped | dataTypes/list-example.py:36-37 | `pop()` gives the last element and the rest, and appending it back gives the list. An empty list raises IndexError. |
| Lists.PopAppended | dataTypes/list-example.py:103-108 | Last in, first out: `pop` after `append(x)` returns `x` and the list before the append. |
| Lists.Reversed | dataTypes/list-example.py:80-82 | After `reverse()`, position `k` holds what was at `n - 1 - k`, and the length is the same. |
| Lists.ReverseReverse | dataTypes/list-example.py:81 | Reversing twice gives back the list. Reversing keeps the elements with their multiplicities. |
| Lists.ReversedMultiset | dataTypes/list-example.py:81 | Reversing keeps the elements with their multiplicities. |
| Lists.InsertBy | dataTypes/list-example.py:86 | One insertion step of the sort adds exactly one element. |
| Lists.InsertBySorted | dataTypes/list-example.py:86 | Under a total preorder, inserting into a sorted list keeps it sorted. |
| Lists.SortBy | dataTypes/list-example.py:85-88 | `sorted(l)` is a new list holding the same elements with the same multiplicities. |
| Lists.SortBySorted | dataTypes/list-example.py:85-88 | Under a total preorder, `sorted` returns a sorted permutation of the same length. |
| Lists.InsertByLast | dataTypes/list-example.py:86 | Inserting an element no smaller than all others appends it. |
| Lists.SortByOfSorted | dataTypes/list-example.py:86 | A list already sorted comes back from `sorted` unchanged. |
| Lists.StrLeTotalPreorder | dataTypes/list-example.py:85-86 | Python's string `<=` is a total preorder, so `sorted` on strings gives a sorted permutation. |
| Lists.StrLeTotal | dataTypes/list-example.py:86 | Any two strings compare one way or the other. |
| Lists.StrLeTrans | dataTypes/list-example.py:86 | String comparison is transitive. |
| Lists.Join | dataTypes/list-example.py:98-100 | `sep.join(words)` is empty for no words and is the word itself for one word. Otherwise its length is the total word length plus one `sep` between each pair of neighbours. |
| Lists.JoinAppend | dataTypes/list-example.py:99 | Joining two non-empty runs of words puts exactly one separator between their joins. |
| Lists.SquaresList | dataTypes/list-example.py:40-41 | `[x * x for x in range(lo, hi)]` holds, at position `k`, the square of `lo + k`. |
| Lists.SquaresListElems | dataTypes/list-example.py:40 | The list comprehension and the set comprehension over the same range hold the same squares. |
| Lists.GetItem2 | dataTypes/list-example.py:44-48 | `m[i][j]` succeeds exactly when both subscripts are in range, and then selects that element. Otherwise it raises IndexError. |
| Lists.PyList.constructor | dataTypes/list-example.py:9 | A list display holds its items in order. |
| Lists.PyList.Get | dataTypes/list-example.py:10-12 | `l[i]` reads the current contents. |
| Lists.PyList.SetItem | dataTypes/list-example.py:20 | The contents become those `Assigned` gives. Out of range it raises IndexError and leaves them unchanged. |
| Lists.PyList.Append | dataTypes/list-example.py:24 | `append(x)` adds `x` at the end. |
| Lists.PyList.Extend | dataTypes/list-example.py:55-57 | `extend(items)` adds all of `items` at the end, in order. |
| Lists.PyList.Insert | dataTypes/list-example.py:28 | The contents become those `Inserted` gives. |
| Lists.PyList.Remove | dataTypes/list-example.py:32 | The contents become those `Removed` gives. An absent element raises ValueError and the contents stay unchanged. |
| Lists.PyList.Pop | dataTypes/list-example.py:36 | `pop` returns the last element and drops it. An empty list raises IndexError and stays empty. |
| Lists.PyList.Reverse | dataTypes/list-example.py:81 | The contents become their reversal. |
| Lists.PyList.Copy | dataTypes/list-example.py:66 | `copy()` is a new list object holding the same elements. |
| Lists.AccessExample | dataTypes/list-example.py:9-17 | `my_list[0]`, `[2]` and `[-1]` are 10, 30 and 50. `[1:4]`, `[:3]` and `[3:]` are `[20, 30, 40]`, `[10, 20, 30]` and `[40, 50]`. |
| Lists.MutationExample | dataTypes/list-example.py:20-37 | After `[0] = 100`, `append(60)`, `insert(1, 999)` and `remove(999)`, `pop()` returns 60 and leaves `[100, 20, 30, 40, 50]`. |
| Lists.Mutate | dataTypes/list-example.py:20-37 | On any non-empty list, `[0] = v`, `append(y)`, `insert(1, x)`, `remove(x)` and `pop()`, with `x != v`, return `y` and leave the list with only its first element replaced. |
| Lists.MutationSteps | dataTypes/list-example.py:20-37 | The contents after each of those five steps, one function at a time. |
| Lists.ExtendConcatExample | dataTypes/list-example.py:55-62 | `[1, 2, 3]` extended is `[1, 2, 3, 4, 5, 6]`. `b + [30, 40]` is `[10, 20, 30, 40]` and `b` is unchanged. |
| Lists.ShallowCopyExample | dataTypes/list-example.py:65-69 | After `shallow[0].append(99)`, `orig[0]` is `[1, 2, 99]`: the inner lists are shared. |
| Lists.ReverseExample | dataTypes/list-example.py:80-82 | `[1, 2, 3, 4]` reversed is `[4, 3, 2, 1]`. |
| Lists.SortOfThree | dataTypes/list-example.py:85-86 | Three items ordered second, third, first sort to that order. |
| Lists.SortedExample | dataTypes/list-example.py:85-88 | `sorted(["Zoe", "Ana", "Mohan"])` is `["Ana", "Mohan", "Zoe"]`, and `names` keeps its order. |
| Lists.IndexCountExample | dataTypes/list-example.py:91-95 | `letters.index("b")` is 1, the first `"b"`, and `letters.count("b")` is 2. |
| Lists.JoinExample | dataTypes/list-example.py:98-100 | `" ".join(["Python", "is", "awesome"])` is `"Python is awesome"`. |
| Lists.StackExample | dataTypes/list-example.py:103-108 | After pushing task1, task2 and task3, `pop()` returns `"task3"` and leaves `["task1", "task2"]`. |
| Lists.SquaresMatrixExample | dataTypes/list-example.py:40-48 | `[x * x for x in range(1, 6)]` is `[1, 4, 9, 16, 25]`, and `matrix[1][2]` is 6. |
| Tuples.Subscript | dataTypes/tuple-example.py:22-25 | Subscripting a tuple value is sequence subscripting, and what it selects is one of the tuple's items. Subscripting a string succeeds exactly for `-len <= i < len`, gives the one-character string at that position, and otherwise raises IndexError. Subscripting a bool or an int raises TypeError. |
| Tuples.Subscript2 | dataTypes/tuple-example.py:25 | `t[i][j]` fails with the outer subscript's error, or else is the inner subscript of what `t[i]` selects. It succeeds only when `t[i]` is a tuple or a string. |
| Tuples.StrSubscriptExample | dataTypes/tuple-example.py:22-25 | `"bc"[0]` is `"b"` and `"bc"[-1]` is `"c"`. `"bc"[2]` raises IndexError, and `("a", "bc")[1][0]` is `"b"`. |
| Tuples.Unpack3 | dataTypes/tuple-example.py:29-33 | `a, b, c = t` succeeds exactly when `t` has three elements, and binds them in order. Otherwise it raises ValueError. |
| Tuples.Pack3 | dataTypes/tuple-example.py:29 | Packing three values gives a three-element tuple holding them in order. |
| Tuples.UnpackPack | dataTypes/tuple-example.py:29-33 | Unpacking undoes packing, and a successful unpacking repacks to the same tuple. |
| Tuples.AssignItem | dataTypes/tuple-example.py:74-78 | `t[i] = v` always raises TypeError, and the tuple is unchanged. |
| Tuples.AssignItemRefused | dataTypes/tuple-example.py:74-78 | Where a list with the same elements would accept `l[i] = v`, and change its contents exactly when `v` differs from `l[i]`, the tuple still refuses it and keeps its contents. |
| Tuples.RepeatAdd | dataTypes/tuple-example.py:52-54 | `t * (j + k) == t * j + t * k`. |
| Tuples.RepeatUnfold | dataTypes/tuple-example.py:53 | `t * k` is `t` followed by `t * (k - 1)`. |
| Tuples.RepeatCount | dataTypes/tuple-example.py:53 | Each element occurs `k` times as often in `t * k` as in `t`. |
| Tuples.AccessExample | dataTypes/tuple-example.py:8-18 | `(10, 20, 30, 40, 50)[0]`, `[2]` and `[-1]` are 10, 30 and 50. The three slices are the commented sub-tuples, and `t[:3] + t[3:] == t`. |
| Tuples.NestedExample | dataTypes/tuple-example.py:21-25 | `nested_tuple[1]` is `(2, 3)` and `nested_tuple[2][1]` is 5. Subscripting its first item, an int, raises TypeError. |
| Tuples.UnpackExample | dataTypes/tuple-example.py:28-33 | `a, b, c = (10, 20, 30)` binds 10, 20 and 30. Unpacking two values into three names fails. |
| Tuples.ConcatRepeatExample | dataTypes/tuple-example.py:45-54 | `(1, 2, 3) + (4, 5, 6)` is `(1, ..., 6)`, and `(1, 2, 3) * 3` is three copies. |
| Tuples.RepeatThree | dataTypes/tuple-example.py:53 | Three copies of any three-element tuple, element by element. |
| Tuples.CoordinatesExample | dataTypes/tuple-example.py:56-64 | The point-keyed dict is valid. `coordinates[(0, 0)]` is `"Origin"` and `coordinates[(1, 1)]` is `"Point C"`. |
| Tuples.CountIndexExample | dataTypes/tuple-example.py:67-70 | `(1, 2, 3, 2, 4, 2).count(2)` is 3 and `.index(3)` is 2. |
| Tuples.ImmutableExample | dataTypes/tuple-example.py:73-78 | Assigning to `(1, 2, 3)[0]` raises TypeError and leaves `(1, 2, 3)`. The same assignment on a list would give `[10, 2, 3]`. |

## Left out

- Console output: every `print`, and the `repr` formatting it shows. This includes the display order of sets, which depends on hashing. The `for key, value in user.items()` loop of the dict script only prints, so it is not modelled.
- `type()` introspection, and the difference between `(10,)` and `(10)` that it shows. This is runtime reflection, not container behaviour.
- Floats and heterogeneous literal lists (`3.14`, `[1, "hello", 3.14, True]`). Elements are a generic type, or the closed `Values.Value` type with bool, int, string and tuple cases.
- `copy.deepcopy`, because it is a library call. The shallow copy is modelled: a list of `PyList` objects whose inner objects are shared.
- Hashing. Tuple and frozenset keys are Dafny values compared by equality. `frozenset` is a Dafny `set`, which cannot be changed.
- `str.split` and its whitespace rules. The "unique words" snippet of the set script is therefore not modelled.
- Python-version notes (insertion order since 3.7, `|` on dicts since 3.9). The model has the behaviour of current Python.
- Lists.SortBy: stability is not stated. For the string order used here, equal elements are identical, so stability cannot be observed. The sort is specified for any total preorder. Python's string order (`<=`) is modelled as `StrLe`, lexicographic by code point, and proved to be one.
- Sets.PySet.Pop: says only that some element comes out. Python's choice depends on hashing.
- Tuples: a tuple is a Dafny sequence value. No operation can change it, so "the tuple is unchanged" holds by construction.
- DictExamples.Fib: recursion is unbounded over `int`, with no recursion limit. Arbitrary-precision integers match Python's.
