/** PHP arrays with string keys, as the helpers use them for route parameters,
    query parameters and router options: an ORDERED list of entries whose keys
    are distinct. Order matters because it decides the order of a generated
    query string. */
module PhpArray {
  import opened Wrappers

  predicate DistinctKeys<V>(a: seq<(string, V)>) {
    forall i, j :: 0 <= i < j < |a| ==> a[i].0 != a[j].0
  }

  /** A string-keyed PHP array. */
  type Assoc<V> = a: seq<(string, V)> | DistinctKeys(a) witness []

  /** `array_keys($a)`, in order. */
  function Keys<V>(a: seq<(string, V)>): (ks: seq<string>)
    ensures |ks| == |a|
    ensures forall i :: 0 <= i < |a| ==> ks[i] == a[i].0
  {
    if a == [] then [] else [a[0].0] + Keys(a[1..])
  }

  predicate HasKey<V>(a: seq<(string, V)>, k: string) {
    k in Keys(a)
  }

  /** `$a[$k] ?? null`. */
  function Lookup<V>(a: seq<(string, V)>, k: string): (r: Option<V>)
    ensures r.Some? <==> HasKey(a, k)
  {
    if a == [] then None
    else if a[0].0 == k then Some(a[0].1)
    else Lookup(a[1..], k)
  }

  /** `$a[$k] = $v`: an existing key keeps its place and takes the new value;
      a new key is appended. */
  function Put<V>(a: Assoc<V>, k: string, v: V): (r: Assoc<V>)
    ensures Keys(r) == if HasKey(a, k) then Keys(a) else Keys(a) + [k]
    ensures forall j :: Lookup(r, j) == if j == k then Some(v) else Lookup(a, j)
  {
    InsertKeys(a, k, v);
    InsertDistinct(a, k, v);
    InsertLookups(a, k, v);
    Insert(a, k, v)
  }

  /** The entries of Put, on any list of entries. */
  function Insert<V>(a: seq<(string, V)>, k: string, v: V): seq<(string, V)> {
    if a == [] then [(k, v)]
    else if a[0].0 == k then [(k, v)] + a[1..]
    else [a[0]] + Insert(a[1..], k, v)
  }

  lemma {:induction false} InsertKeys<V>(a: seq<(string, V)>, k: string, v: V)
    ensures Keys(Insert(a, k, v)) == if HasKey(a, k) then Keys(a) else Keys(a) + [k]
  {
    if a != [] {
      KeysOfTail(a);
      if a[0].0 != k {
        InsertKeys(a[1..], k, v);
        KeysOfTail(Insert(a, k, v));
      } else {
        KeysOfTail(Insert(a, k, v));
      }
    }
  }

  lemma {:induction false} InsertLookup<V>(a: seq<(string, V)>, k: string, v: V, j: string)
    ensures Lookup(Insert(a, k, v), j) == if j == k then Some(v) else Lookup(a, j)
  {
    if a != [] && a[0].0 != k {
      InsertLookup(a[1..], k, v, j);
      assert Insert(a, k, v)[1..] == Insert(a[1..], k, v);
    } else if a != [] {
      assert Insert(a, k, v)[1..] == a[1..];
    }
  }

  lemma InsertLookups<V>(a: seq<(string, V)>, k: string, v: V)
    ensures forall j :: Lookup(Insert(a, k, v), j) == if j == k then Some(v) else Lookup(a, j)
  {
    forall j ensures Lookup(Insert(a, k, v), j) == if j == k then Some(v) else Lookup(a, j) {
      InsertLookup(a, k, v, j);
    }
  }

  lemma InsertDistinct<V>(a: Assoc<V>, k: string, v: V)
    ensures DistinctKeys(Insert(a, k, v))
  {
    var r := Insert(a, k, v);
    InsertKeys(a, k, v);
    var ks := Keys(r);
    forall i, j | 0 <= i < j < |r| ensures r[i].0 != r[j].0 {
      assert r[i].0 == ks[i] && r[j].0 == ks[j];
      if j < |a| {
        assert ks[i] == a[i].0 && ks[j] == a[j].0;
      } else {
        assert ks[j] == k && !HasKey(a, k);
        assert ks[i] == a[i].0 == Keys(a)[i];
      }
    }
  }

  /** Putting a new key appends its entry. */
  lemma PutAppends<V>(a: Assoc<V>, k: string, v: V)
    requires !HasKey(a, k)
    ensures Put(a, k, v) == a + [(k, v)]
  {
    InsertAppends(a, k, v);
  }

  lemma {:induction false} InsertAppends<V>(a: seq<(string, V)>, k: string, v: V)
    requires !HasKey(a, k)
    ensures Insert(a, k, v) == a + [(k, v)]
  {
    if a != [] {
      KeysOfTail(a);
      InsertAppends(a[1..], k, v);
      assert [a[0]] + (a[1..] + [(k, v)]) == a + [(k, v)];
    }
  }

  /** Putting the first key replaces its value in place. */
  lemma PutFirst<V>(a: Assoc<V>, v: V)
    requires a != []
    ensures Put(a, a[0].0, v) == [(a[0].0, v)] + a[1..]
  {
  }

  /** The keys of `ks` that are not in `excluded`, in their order. */
  function NewKeys(ks: seq<string>, excluded: seq<string>): seq<string> {
    if ks == [] then []
    else if ks[0] in excluded then NewKeys(ks[1..], excluded)
    else [ks[0]] + NewKeys(ks[1..], excluded)
  }

  /** `array_merge($a, $b)` for string keys: the result starts as `$a`, then each
      entry of `$b` in turn overwrites a value in place or appends a new key. */
  function Merge<V>(a: Assoc<V>, b: Assoc<V>): Assoc<V>
    decreases |b|
  {
    if b == [] then a else Merge(Put(a, b[0].0, b[0].1), b[1..])
  }

  // ---------------------------------------------------------------------------
  // Properties of Merge

  /** One step of Merge: the first override is put, then the rest are merged. */
  lemma MergeStep<V>(a: Assoc<V>, b: Assoc<V>)
    requires b != []
    ensures Merge(a, b) == Merge(Put(a, b[0].0, b[0].1), b[1..])
  {
  }

  lemma {:induction false} KeysOfTail<V>(a: seq<(string, V)>)
    requires a != []
    ensures Keys(a) == [a[0].0] + Keys(a[1..])
  {
  }

  /** The overlay rule: a key of `b` takes its value from `b`; any other key keeps
      its value from `a`. */
  lemma {:induction false} MergeLookup<V>(a: Assoc<V>, b: Assoc<V>, k: string)
    ensures Lookup(Merge(a, b), k) == if HasKey(b, k) then Lookup(b, k) else Lookup(a, k)
    decreases |b|
  {
    if b != [] {
      var a' := Put(a, b[0].0, b[0].1);
      MergeLookup(a', b[1..], k);
      KeysOfTail(b);
    }
  }

  /** NewKeys keeps exactly the keys of `ks` outside `excluded`. */
  lemma {:induction false} NewKeysMembers(ks: seq<string>, excluded: seq<string>, k: string)
    ensures k in NewKeys(ks, excluded) <==> k in ks && k !in excluded
  {
    if ks != [] {
      NewKeysMembers(ks[1..], excluded, k);
    }
  }

  /** A new key does not change which keys of a list are new. */
  lemma {:induction false} NewKeysIgnores(ks: seq<string>, excluded: seq<string>, k: string)
    requires k !in ks
    ensures NewKeys(ks, excluded + [k]) == NewKeys(ks, excluded)
  {
    if ks != [] {
      NewKeysIgnores(ks[1..], excluded, k);
    }
  }

  /** The order rule: the keys of `a` keep their places, and the keys that only
      `b` has follow, in `b`'s order. */
  lemma {:induction false} MergeKeys<V>(a: Assoc<V>, b: Assoc<V>)
    ensures Keys(Merge(a, b)) == Keys(a) + NewKeys(Keys(b), Keys(a))
    decreases |b|
  {
    if b == [] {
      assert Keys(a) + NewKeys(Keys(b), Keys(a)) == Keys(a);
    } else {
      var a' := Put(a, b[0].0, b[0].1);
      MergeKeys(a', b[1..]);
      PutNewKeys(a, b);
    }
  }

  /** One step of MergeKeys: putting the first entry of `b` into `a`. */
  lemma PutNewKeys<V>(a: Assoc<V>, b: Assoc<V>)
    requires b != []
    ensures var a' := Put(a, b[0].0, b[0].1);
      Keys(a') + NewKeys(Keys(b[1..]), Keys(a')) == Keys(a) + NewKeys(Keys(b), Keys(a))
  {
    var k := b[0].0;
    var rest := Keys(b[1..]);
    FirstKeyNotInTail(b);
    assert Keys(b) == [k] + rest;
    if k !in Keys(a) {
      NewKeysIgnores(rest, Keys(a), k);
    }
  }

  lemma FirstKeyNotInTail<V>(b: Assoc<V>)
    requires b != []
    ensures Keys(b) == [b[0].0] + Keys(b[1..])
    ensures b[0].0 !in Keys(b[1..])
  {
    var rest := Keys(b[1..]);
    forall j | 0 <= j < |rest| ensures rest[j] != b[0].0 {
      assert rest[j] == b[j + 1].0;
    }
  }

  /** In an array with distinct keys, the entry at a place is what its key looks up. */
  lemma {:induction false} LookupAt<V>(a: Assoc<V>, i: nat)
    requires i < |a|
    ensures Lookup(a, a[i].0) == Some(a[i].1)
  {
    if i > 0 {
      LookupAt(a[1..], i - 1);
    }
  }

  /** Two arrays with the same keys in the same order and the same values are equal. */
  lemma Extensionality<V>(a: Assoc<V>, b: Assoc<V>)
    requires Keys(a) == Keys(b)
    requires forall k :: Lookup(a, k) == Lookup(b, k)
    ensures a == b
  {
    forall i | 0 <= i < |a|
      ensures a[i] == b[i]
    {
      assert a[i].0 == Keys(a)[i] == Keys(b)[i] == b[i].0;
      LookupAt(a, i);
      LookupAt(b, i);
    }
  }

  lemma {:induction false} NewKeysNone(ks: seq<string>, excluded: seq<string>)
    requires forall k :: k in ks ==> k in excluded
    ensures NewKeys(ks, excluded) == []
  {
    if ks != [] {
      NewKeysNone(ks[1..], excluded);
    }
  }

  /** Merging an array with itself changes nothing. */
  lemma MergeSelf<V>(a: Assoc<V>)
    ensures Merge(a, a) == a
  {
    MergeKeys(a, a);
    NewKeysNone(Keys(a), Keys(a));
    assert Keys(a) + [] == Keys(a);
    forall k ensures Lookup(Merge(a, a), k) == Lookup(a, k) {
      MergeLookup(a, a, k);
    }
    Extensionality(Merge(a, a), a);
  }

  /** Merging into an empty array gives the overrides unchanged. */
  lemma MergeIntoEmpty<V>(b: Assoc<V>)
    ensures Merge([], b) == b
  {
    MergeKeys([], b);
    NewKeysAll(Keys(b));
    forall k ensures Lookup(Merge([], b), k) == Lookup(b, k) {
      MergeLookup([], b, k);
    }
    Extensionality(Merge([], b), b);
  }

  lemma {:induction false} NewKeysAll(ks: seq<string>)
    ensures NewKeys(ks, []) == ks
  {
    if ks != [] {
      NewKeysAll(ks[1..]);
    }
  }
}
