/** The chained hash table as a value: what each operation does to the buckets, and the proof that
    every run behaves as a finite map and pays at most two moves per counted insertion. */
module ChainedTable {
  import opened Options
  import opened Fnv1a

  /** The bits of a return code. `HASH_ENTRY_FAILED` is zero, the empty set of flags. */
  datatype Flag = Success | Collision | Resized | Updated

  datatype Entry<+V> = Entry(key: string, value: V)

  type Buckets<+V> = seq<seq<Entry<V>>>

  /** `elemCount` counts fresh insertions; deletion leaves it alone. */
  datatype Table<+V> = Table(buckets: Buckets<V>, elemCount: nat)

  const INITIAL_SIZE: nat := 21

  function Slot(key: string, length: nat): (slot: nat)
    requires length > 0
    ensures slot < length
  {
    Hash(key) % length
  }

  // ---------------------------------------------------------------- operations

  function EmptyBuckets<V>(length: nat): Buckets<V> {
    seq(length, _ => [])
  }

  function Create<V>(): Table<V> {
    Table(EmptyBuckets(INITIAL_SIZE), 0)
  }

  /** Position of the first entry with this key, or the chain's length. */
  function Find<V>(chain: seq<Entry<V>>, key: string): (i: nat)
    ensures i <= |chain|
    ensures i < |chain| ==> chain[i].key == key
    ensures forall j :: 0 <= j < i ==> chain[j].key != key
  {
    if chain == [] || chain[0].key == key then 0 else 1 + Find(chain[1..], key)
  }

  function Get<V>(chain: seq<Entry<V>>, key: string): Option<V> {
    var i := Find(chain, key);
    if i < |chain| then Some(chain[i].value) else None
  }

  function Lookup<V>(b: Buckets<V>, key: string): Option<V>
    requires |b| > 0
  {
    Get(b[Slot(key, |b|)], key)
  }

  /** The load test `length * 0.75 <= elem_count + 1`, in exact arithmetic. */
  predicate NeedsGrowth(length: nat, elemCount: nat) {
    3 * length <= 4 * (elemCount + 1)
  }

  function Push<V>(b: Buckets<V>, e: Entry<V>): (r: Buckets<V>)
    requires |b| > 0
    ensures |r| == |b|
  {
    var i := Slot(e.key, |b|);
    b[i := [e] + b[i]]
  }

  function PushAll<V>(b: Buckets<V>, entries: seq<Entry<V>>): (r: Buckets<V>)
    requires |b| > 0
    ensures |r| == |b|
    decreases entries
  {
    if entries == [] then b else PushAll(Push(b, entries[0]), entries[1..])
  }

  /** The entries in the order the resize loop visits them, from bucket `i` on. */
  function FlattenFrom<V>(b: Buckets<V>, i: nat): seq<Entry<V>>
    requires i <= |b|
    decreases |b| - i
  {
    if i == |b| then [] else b[i] + FlattenFrom(b, i + 1)
  }

  function Flatten<V>(b: Buckets<V>): seq<Entry<V>> {
    FlattenFrom(b, 0)
  }

  function Rehash<V>(b: Buckets<V>, newLength: nat): (r: Buckets<V>)
    requires newLength > 0
    ensures |r| == newLength
  {
    PushAll(EmptyBuckets(newLength), Flatten(b))
  }

  function Replaced<V>(chain: seq<Entry<V>>, key: string, value: V): seq<Entry<V>>
    requires Find(chain, key) < |chain|
  {
    chain[Find(chain, key) := Entry(key, value)]
  }

  function Without<V>(chain: seq<Entry<V>>, key: string): seq<Entry<V>>
    requires Find(chain, key) < |chain|
  {
    chain[..Find(chain, key)] + chain[Find(chain, key) + 1..]
  }

  /** A fresh entry: push it, count it, and double the table when the load test asks for it. */
  function InsertNew<V>(t: Table<V>, key: string, value: V): (r: (Table<V>, set<Flag>))
    requires |t.buckets| > 0
    ensures |r.0.buckets| > 0
  {
    var pushed := Table(Push(t.buckets, Entry(key, value)), t.elemCount + 1);
    var flags := if t.buckets[Slot(key, |t.buckets|)] == [] then {Success} else {Success, Collision};
    if NeedsGrowth(|pushed.buckets|, pushed.elemCount) then
      (pushed.(buckets := Rehash(pushed.buckets, 2 * |pushed.buckets|)), flags + {Resized})
    else
      (pushed, flags)
  }

  function Insert<V>(t: Table<V>, key: string, value: V): (r: (Table<V>, set<Flag>))
    requires |t.buckets| > 0
    ensures |r.0.buckets| > 0
  {
    var i := Slot(key, |t.buckets|);
    var chain := t.buckets[i];
    if Find(chain, key) < |chain| then
      (t.(buckets := t.buckets[i := Replaced(chain, key, value)]), {Success, Updated})
    else
      InsertNew(t, key, value)
  }

  function Delete<V>(t: Table<V>, key: string): (r: (Table<V>, set<Flag>))
    requires |t.buckets| > 0
    ensures |r.0.buckets| == |t.buckets|
  {
    var i := Slot(key, |t.buckets|);
    var chain := t.buckets[i];
    var j := Find(chain, key);
    if j == |chain| then (t, {})
    else
      (t.(buckets := t.buckets[i := Without(chain, key)]),
       if j == 0 then {Success} else {Success, Collision})
  }

  // ---------------------------------------------------------------- invariant

  predicate Distinct<V>(chain: seq<Entry<V>>) {
    chain == [] || (Get(chain[1..], chain[0].key).None? && Distinct(chain[1..]))
  }

  /** No chain repeats a key and no key is bound outside the bucket its hash selects. */
  ghost predicate WellPlaced<V>(b: Buckets<V>) {
    && |b| > 0
    && (forall i :: 0 <= i < |b| ==> Distinct(b[i]))
    && forall i, key :: 0 <= i < |b| && i != Slot(key, |b|) ==> Get(b[i], key).None?
  }

  /** The initial size, doubled any number of times. */
  predicate IsTableLength(length: nat) {
    length == INITIAL_SIZE || (length > INITIAL_SIZE && length % 2 == 0 && IsTableLength(length / 2))
  }

  ghost predicate Inv<V>(t: Table<V>) {
    && WellPlaced(t.buckets)
    && IsTableLength(|t.buckets|)
    && 4 * (t.elemCount + 1) < 3 * |t.buckets|
    && |Flatten(t.buckets)| <= t.elemCount
  }

  /** The finite map a table stands for. */
  ghost predicate Represents<V>(b: Buckets<V>, m: map<string, V>)
    requires |b| > 0
  {
    forall key :: Lookup(b, key) == if key in m then Some(m[key]) else None
  }

  // ---------------------------------------------------------------- chains

  lemma GetCons<V>(e: Entry<V>, chain: seq<Entry<V>>, key: string)
    ensures Get([e] + chain, key) == if e.key == key then Some(e.value) else Get(chain, key)
  {
    assert ([e] + chain)[1..] == chain;
  }

  lemma {:induction false} GetConcat<V>(c: seq<Entry<V>>, d: seq<Entry<V>>, key: string)
    ensures Get(c + d, key) == if Get(c, key).Some? then Get(c, key) else Get(d, key)
  {
    if c == [] {
      assert c + d == d;
    } else {
      assert c + d == [c[0]] + (c[1..] + d);
      assert c == [c[0]] + c[1..];
      GetConcat(c[1..], d, key);
      GetCons(c[0], c[1..] + d, key);
    }
  }

  lemma {:induction false} DistinctConcat<V>(c: seq<Entry<V>>, d: seq<Entry<V>>)
    requires Distinct(c) && Distinct(d)
    requires forall key :: Get(c, key).Some? ==> Get(d, key).None?
    ensures Distinct(c + d)
  {
    if c == [] {
      assert c + d == d;
    } else {
      var e, rest := c[0], c[1..];
      assert c == [e] + rest && c + d == [e] + (rest + d);
      forall key | Get(rest, key).Some?
        ensures Get(d, key).None?
      {
        GetCons(e, rest, key);
      }
      GetCons(e, rest, e.key);
      GetConcat(rest, d, e.key);
      DistinctConcat(rest, d);
    }
  }

  lemma FindCons<V>(e: Entry<V>, rest: seq<Entry<V>>, key: string)
    ensures Find([e] + rest, key) == if e.key == key then 0 else 1 + Find(rest, key)
  {
    assert ([e] + rest)[1..] == rest;
  }

  lemma UpdateCons<T>(e: T, rest: seq<T>, i: nat, x: T)
    requires i < |rest|
    ensures ([e] + rest)[i + 1 := x] == [e] + rest[i := x]
  {
  }

  lemma CutCons<T>(e: T, rest: seq<T>, i: nat)
    requires i < |rest|
    ensures ([e] + rest)[..i + 1] + ([e] + rest)[i + 2..] == [e] + (rest[..i] + rest[i + 1..])
  {
    assert ([e] + rest)[..i + 1] == [e] + rest[..i];
    assert ([e] + rest)[i + 2..] == rest[i + 1..];
  }

  lemma ReplacedCons<V>(chain: seq<Entry<V>>, key: string, value: V)
    requires Find(chain, key) < |chain|
    ensures Replaced(chain, key, value)
         == if chain[0].key == key then [Entry(key, value)] + chain[1..]
            else [chain[0]] + Replaced(chain[1..], key, value)
  {
    hide Find;
    var e, rest := chain[0], chain[1..];
    assert chain == [e] + rest;
    FindCons(e, rest, key);
    if e.key != key {
      UpdateCons(e, rest, Find(rest, key), Entry(key, value));
    }
  }

  /** Replacing the value at a key's position rebinds that key alone. */
  lemma {:induction false} GetReplaced<V>(chain: seq<Entry<V>>, key: string, value: V, k: string)
    requires Find(chain, key) < |chain|
    ensures Get(Replaced(chain, key, value), k) == if k == key then Some(value) else Get(chain, k)
  {
    var e, rest := chain[0], chain[1..];
    assert chain == [e] + rest;
    GetCons(e, rest, k);
    ReplacedCons(chain, key, value);
    hide Replaced;
    if e.key == key {
      GetCons(Entry(key, value), rest, k);
    } else {
      GetCons(e, Replaced(rest, key, value), k);
      GetReplaced(rest, key, value, k);
    }
  }

  lemma {:induction false} DistinctReplaced<V>(chain: seq<Entry<V>>, key: string, value: V)
    requires Distinct(chain) && Find(chain, key) < |chain|
    ensures Distinct(Replaced(chain, key, value))
  {
    var e, rest := chain[0], chain[1..];
    ReplacedCons(chain, key, value);
    hide Replaced;
    if e.key != key {
      GetReplaced(rest, key, value, e.key);
      DistinctReplaced(rest, key, value);
    }
  }

  lemma WithoutCons<V>(chain: seq<Entry<V>>, key: string)
    requires Find(chain, key) < |chain|
    ensures Without(chain, key)
         == if chain[0].key == key then chain[1..] else [chain[0]] + Without(chain[1..], key)
  {
    hide Find;
    var e, rest := chain[0], chain[1..];
    assert chain == [e] + rest;
    FindCons(e, rest, key);
    if e.key == key {
      assert chain[..0] + rest == rest;
    } else {
      CutCons(e, rest, Find(rest, key));
    }
  }

  /** Unlinking a key's node from a chain without repetitions unbinds that key alone. */
  lemma {:induction false} GetRemoved<V>(chain: seq<Entry<V>>, key: string, k: string)
    requires Distinct(chain) && Find(chain, key) < |chain|
    ensures Get(Without(chain, key), k) == if k == key then None else Get(chain, k)
  {
    var e, rest := chain[0], chain[1..];
    assert chain == [e] + rest;
    GetCons(e, rest, k);
    WithoutCons(chain, key);
    hide Without;
    if e.key != key {
      GetCons(e, Without(rest, key), k);
      GetRemoved(rest, key, k);
    }
  }

  lemma {:induction false} DistinctRemoved<V>(chain: seq<Entry<V>>, key: string)
    requires Distinct(chain) && Find(chain, key) < |chain|
    ensures Distinct(Without(chain, key))
  {
    var e, rest := chain[0], chain[1..];
    WithoutCons(chain, key);
    hide Without;
    if e.key != key {
      GetRemoved(rest, key, e.key);
      DistinctRemoved(rest, key);
    }
  }

  /** The visiting order of the resize loop meets every bound key, and meets it once. */
  lemma {:induction false} FlattenGet<V>(b: Buckets<V>, i: nat, key: string)
    requires WellPlaced(b) && i <= |b|
    ensures Get(FlattenFrom(b, i), key) == if i <= Slot(key, |b|) then Lookup(b, key) else None
    decreases |b| - i
  {
    hide Slot;
    if i < |b| {
      FlattenGet(b, i + 1, key);
      GetConcat(b[i], FlattenFrom(b, i + 1), key);
    }
  }

  lemma {:induction false} FlattenDistinct<V>(b: Buckets<V>, i: nat)
    requires WellPlaced(b) && i <= |b|
    ensures Distinct(FlattenFrom(b, i))
    decreases |b| - i
  {
    hide Slot;
    if i < |b| {
      FlattenDistinct(b, i + 1);
      forall key | Get(b[i], key).Some?
        ensures Get(FlattenFrom(b, i + 1), key).None?
      {
        FlattenGet(b, i + 1, key);
      }
      DistinctConcat(b[i], FlattenFrom(b, i + 1));
    }
  }

  // ---------------------------------------------------------------- conservation

  /** Replacing one chain changes the multiset of all entries by exactly that chain. */
  lemma {:induction false} FlattenUpdate<V>(b: Buckets<V>, i: nat, k: nat, chain: seq<Entry<V>>)
    requires i <= k < |b|
    ensures multiset(FlattenFrom(b[k := chain], i)) + multiset(b[k])
         == multiset(FlattenFrom(b, i)) + multiset(chain)
    decreases |b| - i
  {
    var rest, rest' := FlattenFrom(b, i + 1), FlattenFrom(b[k := chain], i + 1);
    assert FlattenFrom(b, i) == b[i] + rest;
    assert FlattenFrom(b[k := chain], i) == b[k := chain][i] + rest';
    if i < k {
      FlattenUpdate(b, i + 1, k, chain);
      assert multiset(b[i] + rest) == multiset(b[i]) + multiset(rest);
      assert multiset(b[i] + rest') == multiset(b[i]) + multiset(rest');
      assert multiset(b[i]) + multiset(rest') + multiset(b[k])
          == multiset(b[i]) + (multiset(rest') + multiset(b[k]));
    } else {
      FlattenUnchanged(b, k, k + 1, chain);
    }
  }

  lemma {:induction false} FlattenUnchanged<V>(b: Buckets<V>, k: nat, i: nat, chain: seq<Entry<V>>)
    requires k < i <= |b|
    ensures FlattenFrom(b[k := chain], i) == FlattenFrom(b, i)
    decreases |b| - i
  {
    if i < |b| {
      FlattenUnchanged(b, k, i + 1, chain);
    }
  }

  lemma MultisetCancel<T>(a: multiset<T>, b: multiset<T>, c: multiset<T>, d: multiset<T>)
    requires a + d == b + (c + d)
    ensures a == b + c
  {
    forall x
      ensures a[x] == (b + c)[x]
    {
      assert (a + d)[x] == (b + (c + d))[x];
    }
  }

  lemma PushConserves<V>(b: Buckets<V>, e: Entry<V>)
    requires |b| > 0
    ensures multiset(Flatten(Push(b, e))) == multiset(Flatten(b)) + multiset{e}
  {
    hide Slot;
    var chain := b[Slot(e.key, |b|)];
    FlattenUpdate(b, 0, Slot(e.key, |b|), [e] + chain);
    assert multiset([e] + chain) == multiset{e} + multiset(chain);
    MultisetCancel(multiset(Flatten(Push(b, e))), multiset(Flatten(b)), multiset{e}, multiset(chain));
  }

  lemma {:induction false} PushAllConserves<V>(b: Buckets<V>, entries: seq<Entry<V>>)
    requires |b| > 0
    ensures multiset(Flatten(PushAll(b, entries))) == multiset(Flatten(b)) + multiset(entries)
    decreases entries
  {
    hide Slot;
    if entries != [] {
      var e := entries[0];
      PushConserves(b, e);
      PushAllConserves(Push(b, e), entries[1..]);
      assert entries == [e] + entries[1..];
    } else {
      assert multiset(entries) == multiset{};
    }
  }

  lemma {:induction false} FlattenEmpty<V>(n: nat, i: nat)
    requires i <= n
    ensures FlattenFrom(EmptyBuckets<V>(n), i) == []
    decreases n - i
  {
    if i < n {
      FlattenEmpty<V>(n, i + 1);
    }
  }

  lemma PushLookup<V>(b: Buckets<V>, e: Entry<V>, key: string)
    requires |b| > 0
    ensures Lookup(Push(b, e), key) == if key == e.key then Some(e.value) else Lookup(b, key)
  {
    hide Slot;
    GetCons(e, b[Slot(e.key, |b|)], key);
  }

  lemma PushPlaced<V>(b: Buckets<V>, e: Entry<V>)
    requires WellPlaced(b) && Lookup(b, e.key).None?
    ensures WellPlaced(Push(b, e))
  {
    hide Slot;
    var s := Slot(e.key, |b|);
    assert ([e] + b[s])[1..] == b[s];
    forall i, key | 0 <= i < |b| && i != Slot(key, |b|)
      ensures Get(Push(b, e)[i], key).None?
    {
      GetCons(e, b[s], key);
    }
  }

  lemma {:induction false} PushAllLookup<V>(b: Buckets<V>, entries: seq<Entry<V>>, key: string)
    requires |b| > 0 && Distinct(entries)
    ensures Lookup(PushAll(b, entries), key)
         == if Get(entries, key).Some? then Get(entries, key) else Lookup(b, key)
    decreases entries
  {
    hide Slot;
    if entries != [] {
      assert entries == [entries[0]] + entries[1..];
      PushLookup(b, entries[0], key);
      PushAllLookup(Push(b, entries[0]), entries[1..], key);
      GetCons(entries[0], entries[1..], key);
    }
  }

  lemma {:induction false} PushAllPlaced<V>(b: Buckets<V>, entries: seq<Entry<V>>)
    requires WellPlaced(b) && Distinct(entries)
    requires forall key :: Get(entries, key).Some? ==> Lookup(b, key).None?
    ensures WellPlaced(PushAll(b, entries))
    decreases entries
  {
    hide Slot, WellPlaced;
    if entries != [] {
      var e, rest := entries[0], entries[1..];
      assert entries == [e] + rest;
      GetCons(e, rest, e.key);
      PushPlaced(b, e);
      forall key | Get(rest, key).Some?
        ensures Lookup(Push(b, e), key).None?
      {
        GetCons(e, rest, key);
        PushLookup(b, e, key);
      }
      PushAllPlaced(Push(b, e), rest);
    }
  }

  lemma EmptyPlaced<V>(n: nat)
    requires n > 0
    ensures WellPlaced(EmptyBuckets<V>(n))
    ensures forall key :: Lookup(EmptyBuckets<V>(n), key).None?
    ensures Flatten(EmptyBuckets<V>(n)) == []
  {
    hide Slot;
    FlattenEmpty<V>(n, 0);
  }

  /** Every entry is in the bucket its hash gives modulo the length. */
  ghost predicate PlacedByHash<V>(b: Buckets<V>) {
    forall i, j :: 0 <= i < |b| && 0 <= j < |b[i]| ==> Hash(b[i][j].key) % |b| == i
  }

  lemma PlacesAreHashes<V>(b: Buckets<V>)
    requires WellPlaced(b)
    ensures PlacedByHash(b)
  {
    hide Hash;
    forall i, j | 0 <= i < |b| && 0 <= j < |b[i]|
      ensures Hash(b[i][j].key) % |b| == i
    {
      assert Get(b[i], b[i][j].key).Some?;
      assert Slot(b[i][j].key, |b|) == i;
    }
  }

  /** A resize moves every entry exactly once into its bucket for the new length: the multiset of
      entries is the same before and after, and every lookup answers as before. */
  lemma RehashPreserves<V>(b: Buckets<V>, newLength: nat)
    requires |b| > 0 && WellPlaced(b) && newLength > 0
    ensures WellPlaced(Rehash(b, newLength)) && PlacedByHash(Rehash(b, newLength))
    ensures |Rehash(b, newLength)| == newLength
    ensures multiset(Flatten(Rehash(b, newLength))) == multiset(Flatten(b))
    ensures forall key :: Lookup(Rehash(b, newLength), key) == Lookup(b, key)
  {
    hide WellPlaced, Slot, FlattenFrom, Lookup, PlacedByHash;
    var empty := EmptyBuckets<V>(newLength);
    EmptyPlaced<V>(newLength);
    FlattenDistinct(b, 0);
    PushAllPlaced(empty, Flatten(b));
    PushAllConserves(empty, Flatten(b));
    PlacesAreHashes(Rehash(b, newLength));
    forall key
      ensures Lookup(Rehash(b, newLength), key) == Lookup(b, key)
    {
      PushAllLookup(empty, Flatten(b), key);
      FlattenGet(b, 0, key);
    }
  }

  // ---------------------------------------------------------------- single operations

  ghost predicate LookupsUpdated<V>(b: Buckets<V>, b': Buckets<V>, key: string, entry: Option<V>)
    requires |b| > 0 && |b'| > 0
  {
    forall k :: Lookup(b', k) == if k == key then entry else Lookup(b, k)
  }

  /** Changing one key's chain so that it binds only that key differently. */
  lemma ChainChanged<V>(b: Buckets<V>, key: string, chain: seq<Entry<V>>, entry: Option<V>)
    requires WellPlaced(b) && Distinct(chain)
    requires forall k :: Get(chain, k) == if k == key then entry else Get(b[Slot(key, |b|)], k)
    ensures WellPlaced(b[Slot(key, |b|) := chain])
    ensures LookupsUpdated(b, b[Slot(key, |b|) := chain], key, entry)
  {
    hide Slot;
  }

  lemma PushPreserves<V>(b: Buckets<V>, key: string, value: V)
    requires WellPlaced(b) && Lookup(b, key).None?
    ensures WellPlaced(Push(b, Entry(key, value)))
    ensures |Flatten(Push(b, Entry(key, value)))| == |Flatten(b)| + 1
    ensures LookupsUpdated(b, Push(b, Entry(key, value)), key, Some(value))
  {
    hide Slot, Flatten;
    var e := Entry(key, value);
    PushConserves(b, e);
    assert |multiset(Flatten(Push(b, e)))| == |multiset(Flatten(b)) + multiset{e}|;
    PushPlaced(b, e);
    forall k
      ensures Lookup(Push(b, e), k) == if k == key then Some(value) else Lookup(b, k)
    {
      PushLookup(b, e, k);
    }
  }

  lemma UpdatePreserves<V>(b: Buckets<V>, key: string, value: V)
    requires WellPlaced(b) && Lookup(b, key).Some?
    ensures var i := Slot(key, |b|);
      var b' := b[i := Replaced(b[i], key, value)];
      && WellPlaced(b')
      && |Flatten(b')| == |Flatten(b)|
      && LookupsUpdated(b, b', key, Some(value))
  {
    hide Slot, Flatten;
    var was := b[Slot(key, |b|)];
    var chain := Replaced(was, key, value);
    DistinctReplaced(was, key, value);
    forall k
      ensures Get(chain, k) == if k == key then Some(value) else Get(was, k)
    {
      GetReplaced(was, key, value, k);
    }
    ChainChanged(b, key, chain, Some(value));
    ReplacedSize(b, Slot(key, |b|), chain);
  }

  lemma RemovePreserves<V>(b: Buckets<V>, key: string)
    requires WellPlaced(b) && Lookup(b, key).Some?
    ensures var i := Slot(key, |b|);
      var b' := b[i := Without(b[i], key)];
      && WellPlaced(b')
      && |Flatten(b')| == |Flatten(b)| - 1
      && LookupsUpdated(b, b', key, None)
  {
    hide Slot, Flatten;
    var was := b[Slot(key, |b|)];
    DistinctRemoved(was, key);
    forall k
      ensures Get(Without(was, key), k) == if k == key then None else Get(was, k)
    {
      GetRemoved(was, key, k);
    }
    ChainChanged(b, key, Without(was, key), None);
    ReplacedSize(b, Slot(key, |b|), Without(was, key));
  }

  lemma ReplacedSize<V>(b: Buckets<V>, i: nat, chain: seq<Entry<V>>)
    requires i < |b|
    ensures |Flatten(b[i := chain])| + |b[i]| == |Flatten(b)| + |chain|
  {
    FlattenUpdate(b, 0, i, chain);
    assert |multiset(Flatten(b[i := chain])) + multiset(b[i])| == |multiset(Flatten(b)) + multiset(chain)|;
  }

  lemma GrowthPreserves<V>(b: Buckets<V>)
    requires WellPlaced(b)
    ensures var b' := Rehash(b, 2 * |b|);
      && WellPlaced(b')
      && |Flatten(b')| == |Flatten(b)|
      && forall k :: Lookup(b', k) == Lookup(b, k)
  {
    hide Slot;
    RehashPreserves(b, 2 * |b|);
    assert |multiset(Flatten(Rehash(b, 2 * |b|)))| == |multiset(Flatten(b))|;
  }

  /** Insertion keeps the invariant, binds the key to the new value and leaves every other key alone,
      whether it updates in place, pushes on a chain or resizes. */
  lemma InsertCorrect<V>(t: Table<V>, key: string, value: V)
    requires Inv(t)
    ensures var (t', flags) := Insert(t, key, value);
      && Inv(t')
      && LookupsUpdated(t.buckets, t'.buckets, key, Some(value))
      && Success in flags
      && (Updated in flags <==> Lookup(t.buckets, key).Some?)
      && t'.elemCount == t.elemCount + (if Updated in flags then 0 else 1)
      && |t'.buckets| == |t.buckets| * (if Resized in flags then 2 else 1)
  {
    hide Slot, WellPlaced, Rehash, Flatten;
    if Lookup(t.buckets, key).Some? {
      UpdatePreserves(t.buckets, key, value);
    } else {
      PushPreserves(t.buckets, key, value);
      GrowthPreserves(Push(t.buckets, Entry(key, value)));
    }
  }

  /** A fresh key adds one live entry, and resizes exactly when the load test asks for it. */
  lemma InsertSize<V>(t: Table<V>, key: string, value: V)
    requires Inv(t) && Lookup(t.buckets, key).None?
    ensures var (t', flags) := Insert(t, key, value);
      && |Flatten(t'.buckets)| == |Flatten(t.buckets)| + 1
      && (Resized in flags <==> 3 * |t.buckets| <= 4 * (t.elemCount + 2))
  {
    hide Slot, WellPlaced, Flatten, Rehash, Push;
    PushPreserves(t.buckets, key, value);
    GrowthPreserves(Push(t.buckets, Entry(key, value)));
  }

  /** A resize relinks the new entry along with all the others. */
  lemma ResizeMovesAll<V>(t: Table<V>, key: string, value: V)
    requires Inv(t)
    ensures var (t', flags) := Insert(t, key, value);
      Resized in flags ==> |Flatten(t'.buckets)| == |Flatten(Push(t.buckets, Entry(key, value)))|
  {
    hide Slot, WellPlaced, Flatten, Rehash, Push;
    if Lookup(t.buckets, key).None? {
      PushPreserves(t.buckets, key, value);
      GrowthPreserves(Push(t.buckets, Entry(key, value)));
    }
  }

  /** Deletion keeps the invariant and unbinds exactly the key; it fails exactly when the key is
      absent, and then changes nothing. */
  lemma DeleteCorrect<V>(t: Table<V>, key: string)
    requires Inv(t)
    ensures var (t', flags) := Delete(t, key);
      && Inv(t')
      && LookupsUpdated(t.buckets, t'.buckets, key, None)
      && (Success in flags <==> Lookup(t.buckets, key).Some?)
      && (Success !in flags ==> flags == {} && t' == t)
      && |Flatten(t'.buckets)| == |Flatten(t.buckets)| - (if Success in flags then 1 else 0)
  {
    hide Slot;
    if Lookup(t.buckets, key).Some? {
      RemovePreserves(t.buckets, key);
    }
  }

  /** A fresh insertion reports a collision exactly when a bound key already shares its bucket. */
  lemma CollisionExact<V>(t: Table<V>, key: string, value: V)
    requires Inv(t) && Lookup(t.buckets, key).None?
    ensures Collision in Insert(t, key, value).1 <==>
      exists k :: Lookup(t.buckets, k).Some? && Hash(k) % |t.buckets| == Hash(key) % |t.buckets|
  {
    var chain := t.buckets[Slot(key, |t.buckets|)];
    if chain != [] {
      assert Get(chain, chain[0].key).Some?;
      assert Slot(chain[0].key, |t.buckets|) == Slot(key, |t.buckets|);
    }
  }

  // ---------------------------------------------------------------- runs

  datatype Op<+V> =
    | InsertOp(key: string, value: V)
    | DeleteOp(key: string)
    | LookupOp(key: string)
    | ExistsOp(key: string)

  datatype Outcome<+V> = Code(flags: set<Flag>) | Found(result: Option<V>) | Present(yes: bool)

  function TableStep<V>(t: Table<V>, op: Op<V>): (r: (Table<V>, Outcome<V>))
    requires |t.buckets| > 0
    ensures |r.0.buckets| > 0
  {
    match op
    case InsertOp(key, value) => var (t', flags) := Insert(t, key, value); (t', Code(flags))
    case DeleteOp(key) => var (t', flags) := Delete(t, key); (t', Code(flags))
    case LookupOp(key) => (t, Found(Lookup(t.buckets, key)))
    case ExistsOp(key) => (t, Present(Lookup(t.buckets, key).Some?))
  }

  /** The reference: the same operation on a finite map. */
  function MapStep<V>(m: map<string, V>, op: Op<V>): (map<string, V>, Outcome<V>) {
    match op
    case InsertOp(key, value) =>
      (m[key := value], Code(if key in m then {Success, Updated} else {Success}))
    case DeleteOp(key) => (m - {key}, Code(if key in m then {Success} else {}))
    case LookupOp(key) => (m, Found(if key in m then Some(m[key]) else None))
    case ExistsOp(key) => (m, Present(key in m))
  }

  /** What a finite map can predict: everything but the bits about the table's own layout. */
  function Visible<V>(o: Outcome<V>): Outcome<V> {
    match o
    case Code(flags) => Code(flags - {Collision, Resized})
    case _ => o
  }

  function RunTable<V>(t: Table<V>, ops: seq<Op<V>>): (r: (Table<V>, seq<Outcome<V>>))
    requires |t.buckets| > 0
    ensures |r.0.buckets| > 0
    decreases ops
  {
    if ops == [] then (t, [])
    else
      var (t1, o) := TableStep(t, ops[0]);
      var (t2, os) := RunTable(t1, ops[1..]);
      (t2, [Visible(o)] + os)
  }

  function RunMap<V>(m: map<string, V>, ops: seq<Op<V>>): (map<string, V>, seq<Outcome<V>>)
    decreases ops
  {
    if ops == [] then (m, [])
    else
      var (m1, o) := MapStep(m, ops[0]);
      var (m2, os) := RunMap(m1, ops[1..]);
      (m2, [o] + os)
  }

  /** Rebinding one key in the table is rebinding it in the map. */
  lemma RepresentsUpdated<V>(b: Buckets<V>, b': Buckets<V>, m: map<string, V>, key: string, entry: Option<V>)
    requires |b| > 0 && |b'| > 0
    requires Represents(b, m) && LookupsUpdated(b, b', key, entry)
    ensures Represents(b', if entry.Some? then m[key := entry.value] else m - {key})
  {
    hide Lookup;
  }

  lemma StepRefines<V>(t: Table<V>, m: map<string, V>, op: Op<V>)
    requires Inv(t) && Represents(t.buckets, m)
    ensures Inv(TableStep(t, op).0)
    ensures Represents(TableStep(t, op).0.buckets, MapStep(m, op).0)
    ensures Visible(TableStep(t, op).1) == MapStep(m, op).1
  {
    hide Lookup, Insert, Delete, WellPlaced, Flatten, IsTableLength, LookupsUpdated;
    match op
    case InsertOp(key, value) =>
      InsertCorrect(t, key, value);
      InsertVisible(t, key, value);
      RepresentsUpdated(t.buckets, Insert(t, key, value).0.buckets, m, key, Some(value));
    case DeleteOp(key) =>
      DeleteCorrect(t, key);
      DeleteVisible(t, key);
      RepresentsUpdated(t.buckets, Delete(t, key).0.buckets, m, key, None);
    case _ =>
  }

  lemma DeleteVisible<V>(t: Table<V>, key: string)
    requires |t.buckets| > 0
    ensures Delete(t, key).1 - {Collision, Resized}
         == if Lookup(t.buckets, key).Some? then {Success} else {}
  {
  }

  lemma InsertVisible<V>(t: Table<V>, key: string, value: V)
    requires |t.buckets| > 0
    ensures Insert(t, key, value).1 - {Collision, Resized}
         == if Lookup(t.buckets, key).Some? then {Success, Updated} else {Success}
  {
    hide Slot;
  }

  lemma {:induction false} RunRefines<V>(t: Table<V>, m: map<string, V>, ops: seq<Op<V>>)
    requires Inv(t) && Represents(t.buckets, m)
    ensures Inv(RunTable(t, ops).0)
    ensures Represents(RunTable(t, ops).0.buckets, RunMap(m, ops).0)
    ensures RunTable(t, ops).1 == RunMap(m, ops).1
    decreases ops
  {
    hide Slot;
    if ops != [] {
      StepRefines(t, m, ops[0]);
      RunRefines(TableStep(t, ops[0]).0, MapStep(m, ops[0]).0, ops[1..]);
    }
  }

  lemma CreateCorrect<V>()
    ensures Inv(Create<V>())
    ensures Represents(Create<V>().buckets, map[])
  {
    EmptyPlaced<V>(INITIAL_SIZE);
  }

  /** Every run from a fresh table agrees with a finite map, return codes included. */
  lemma TableIsMap<V>(ops: seq<Op<V>>)
    ensures RunTable(Create(), ops).1 == RunMap(map[], ops).1
    ensures Represents(RunTable(Create(), ops).0.buckets, RunMap(map[], ops).0)
    ensures Inv(RunTable(Create(), ops).0)
  {
    CreateCorrect<V>();
    RunRefines(Create(), map[], ops);
  }

  // ---------------------------------------------------------------- amortised cost

  /** Entries relinked by an operation: all live ones when it resizes, none otherwise. */
  function Moved<V>(t: Table<V>, op: Op<V>): nat
    requires |t.buckets| > 0
  {
    var (t', _) := TableStep(t, op);
    if |t'.buckets| != |t.buckets| then |Flatten(t'.buckets)| else 0
  }

  function TotalMoved<V>(t: Table<V>, ops: seq<Op<V>>): nat
    requires |t.buckets| > 0
    decreases ops
  {
    if ops == [] then 0 else Moved(t, ops[0]) + TotalMoved(TableStep(t, ops[0]).0, ops[1..])
  }

  /** The credit that pays for resizes: `moved` so far against the present length, and the present
      length against the counted insertions that forced it. */
  predicate Paid(moved: nat, length: nat, elemCount: nat) {
    && 4 * moved + 3 * INITIAL_SIZE <= 3 * length
    && (length > INITIAL_SIZE ==> 3 * length <= 8 * (elemCount + 1))
  }

  lemma StepPaid<V>(t: Table<V>, op: Op<V>, moved: nat)
    requires Inv(t) && Paid(moved, |t.buckets|, t.elemCount)
    ensures var t' := TableStep(t, op).0;
      Inv(t') && Paid(moved + Moved(t, op), |t'.buckets|, t'.elemCount)
  {
    hide Slot;
    match op
    case InsertOp(key, value) =>
      InsertCorrect(t, key, value);
    case DeleteOp(key) =>
      DeleteCorrect(t, key);
    case _ =>
  }

  lemma InvPositive<V>(t: Table<V>)
    requires Inv(t)
    ensures |t.buckets| > 0
  {
  }

  lemma {:induction false} RunPaid<V>(t: Table<V>, ops: seq<Op<V>>, moved: nat)
    requires Inv(t) && Paid(moved, |t.buckets|, t.elemCount)
    ensures var t' := RunTable(t, ops).0;
      Paid(moved + TotalMoved(t, ops), |t'.buckets|, t'.elemCount)
    decreases ops
  {
    hide Inv, Paid, Moved, TableStep;
    InvPositive(t);
    if ops != [] {
      StepPaid(t, ops[0], moved);
      RunPaid(TableStep(t, ops[0]).0, ops[1..], moved + Moved(t, ops[0]));
    }
  }

  /** All resizes of a run together move at most two entries per counted insertion. */
  lemma AmortisedResizeCost<V>(ops: seq<Op<V>>)
    ensures TotalMoved(Create<V>(), ops) <= 2 * RunTable(Create<V>(), ops).0.elemCount
  {
    hide RunTable, TotalMoved, WellPlaced, Flatten;
    CreateCorrect<V>();
    RunPaid(Create<V>(), ops, 0);
  }
}
