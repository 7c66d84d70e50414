/** The keyed collections both containers are built on (a Laravel `Collection`
    for the store, a Doctrine `Collection` for the inventory). Both wrap a PHP
    array: an ORDERED list of key/value entries with distinct keys, where
    writing an existing key replaces its value in place and writing a new key
    appends it at the end. Only the operations the containers use are here. */
module Collections {
  import opened Container

  /** One key/value pair of a PHP array. */
  datatype Entry<V> = Entry(key: int, value: V)

  /** A PHP value as the strict comparison `===` sees it: Doctrine's
      `contains` tests its argument against the stored values this way, so an
      integer is never identical to a stored object. */
  datatype PhpValue<V> = IntValue(i: int) | ObjectValue(o: V)

  /** The keys of the array. */
  function Keys<V>(e: seq<Entry<V>>): (r: set<int>)
    ensures forall i | 0 <= i < |e| :: e[i].key in r
  {
    if e == [] then {} else {e[0].key} + Keys(e[1..])
  }

  /** Keys are distinct, as in every PHP array. */
  predicate UniqueKeys<V>(e: seq<Entry<V>>) {
    e == [] || (e[0].key !in Keys(e[1..]) && UniqueKeys(e[1..]))
  }

  /** The values in array order (`toArray()` without the keys). */
  function Values<V>(e: seq<Entry<V>>): (r: seq<V>)
    ensures |r| == |e|
    ensures forall i | 0 <= i < |e| :: r[i] == e[i].value
  {
    if e == [] then [] else [e[0].value] + Values(e[1..])
  }

  /** A key belongs to the array exactly when some entry carries it. */
  lemma {:induction false} KeyHasEntry<V>(e: seq<Entry<V>>, k: int)
    ensures k in Keys(e) <==> exists i | 0 <= i < |e| :: e[i].key == k
  {
    if e != [] {
      KeyHasEntry(e[1..], k);
      if k != e[0].key && k in Keys(e[1..]) {
        var j :| 0 <= j < |e| - 1 && e[1..][j].key == k;
        assert e[j + 1].key == k;
      } else if k == e[0].key {
        assert e[0].key == k;
      }
    }
  }

  /** `has($k)` / `containsKey($k)`: some entry carries the key. */
  function HasKey<V>(e: seq<Entry<V>>, k: int): (r: bool)
    ensures r <==> exists i | 0 <= i < |e| :: e[i].key == k
  {
    KeyHasEntry(e, k);
    k in Keys(e)
  }

  /** `get($k)`: the value stored under `k`, or null. */
  function Get<V>(e: seq<Entry<V>>, k: int): (r: Option<V>)
    ensures r.Some? <==> k in Keys(e)
    ensures r.Some? ==> Entry(k, r.value) in e
  {
    if e == [] then None
    else if e[0].key == k then Some(e[0].value)
    else Get(e[1..], k)
  }

  /** With distinct keys, the value found at a position is the one `get` returns. */
  lemma {:induction false} GetAt<V>(e: seq<Entry<V>>, i: int)
    requires UniqueKeys(e) && 0 <= i < |e|
    ensures Get(e, e[i].key) == Some(e[i].value)
  {
    if i > 0 {
      assert e[1..][i - 1] == e[i];
      assert e[i].key in Keys(e[1..]);
      GetAt(e[1..], i - 1);
    }
  }

  /** `put($k, $v)` / `set($k, $v)`, i.e. `$array[$k] = $v`. */
  function WithKey<V>(e: seq<Entry<V>>, k: int, v: V): (r: seq<Entry<V>>)
    ensures Keys(r) == Keys(e) + {k}
    ensures k in Keys(e) ==> |r| == |e|
    ensures k !in Keys(e) ==> r == e + [Entry(k, v)]
  {
    if e == [] then [Entry(k, v)]
    else if e[0].key == k then [Entry(k, v)] + e[1..]
    else [e[0]] + WithKey(e[1..], k, v)
  }

  /** Overwriting an existing key replaces its entry where it stands: the
      entries before and after keep their positions. */
  lemma {:induction false} PutAt<V>(e: seq<Entry<V>>, i: int, v: V)
    requires UniqueKeys(e) && 0 <= i < |e|
    ensures WithKey(e, e[i].key, v) == e[..i] + [Entry(e[i].key, v)] + e[i + 1..]
  {
    if i > 0 {
      assert e[1..][i - 1] == e[i];
      assert e[i].key in Keys(e[1..]);
      PutAt(e[1..], i - 1, v);
      assert e[1..][..i - 1] == e[1..i] && e[1..][i..] == e[i + 1..];
      assert [e[0]] + e[1..i] == e[..i];
    }
  }

  /** After `put($k, $v)`, `k` reads `v` and every other key reads as before. */
  lemma {:induction false} GetAfterPut<V>(e: seq<Entry<V>>, k: int, v: V, j: int)
    ensures Get(WithKey(e, k, v), j) == if j == k then Some(v) else Get(e, j)
  {
    if e != [] && e[0].key != k {
      GetAfterPut(e[1..], k, v, j);
    }
  }

  /** `put` keeps the keys distinct. */
  lemma {:induction false} PutKeepsKeysUnique<V>(e: seq<Entry<V>>, k: int, v: V)
    requires UniqueKeys(e)
    ensures UniqueKeys(WithKey(e, k, v))
  {
    if e != [] && e[0].key != k {
      PutKeepsKeysUnique(e[1..], k, v);
    }
  }

  /** `forget($k)`, i.e. `unset($array[$k])`. */
  function WithoutKey<V>(e: seq<Entry<V>>, k: int): (r: seq<Entry<V>>)
    ensures Keys(r) == Keys(e) - {k}
    ensures k !in Keys(e) ==> r == e
  {
    if e == [] then []
    else if e[0].key == k then WithoutKey(e[1..], k)
    else [e[0]] + WithoutKey(e[1..], k)
  }

  /** Forgetting a present key removes its entry and keeps the order of the rest. */
  lemma {:induction false} ForgetAt<V>(e: seq<Entry<V>>, i: int)
    requires UniqueKeys(e) && 0 <= i < |e|
    ensures WithoutKey(e, e[i].key) == e[..i] + e[i + 1..]
  {
    if i > 0 {
      assert e[1..][i - 1] == e[i];
      assert e[i].key in Keys(e[1..]);
      ForgetAt(e[1..], i - 1);
      assert e[1..][..i - 1] == e[1..i] && e[1..][i..] == e[i + 1..];
      assert [e[0]] + e[1..i] == e[..i];
    }
  }

  /** After `forget($k)`, `k` reads null and every other key reads as before. */
  lemma {:induction false} GetAfterForget<V>(e: seq<Entry<V>>, k: int, j: int)
    ensures Get(WithoutKey(e, k), j) == if j == k then None else Get(e, j)
  {
    if e != [] {
      GetAfterForget(e[1..], k, j);
    }
  }

  /** With distinct keys, `forget` removes one entry when the key is present
      and none otherwise, and keeps the keys distinct. */
  lemma {:induction false} ForgetKeepsKeysUnique<V>(e: seq<Entry<V>>, k: int)
    requires UniqueKeys(e)
    ensures UniqueKeys(WithoutKey(e, k))
    ensures |WithoutKey(e, k)| == if k in Keys(e) then |e| - 1 else |e|
  {
    if e != [] {
      ForgetKeepsKeysUnique(e[1..], k);
    }
  }

  /** Writing a new key and forgetting it again restores the array. */
  lemma {:induction false} ForgetUndoesPut<V>(e: seq<Entry<V>>, k: int, v: V)
    requires k !in Keys(e)
    ensures WithoutKey(WithKey(e, k, v), k) == e
  {
    if e != [] {
      assert e[0].key != k;
      assert WithKey(e, k, v) == [e[0]] + WithKey(e[1..], k, v);
      ForgetUndoesPut(e[1..], k, v);
    }
  }

  /** Position of the first entry whose value satisfies `p`, or `|e|`. */
  function FirstIndex<V>(e: seq<Entry<V>>, p: V -> bool): (r: nat)
    ensures r <= |e|
    ensures forall j | 0 <= j < r :: !p(e[j].value)
    ensures r < |e| ==> p(e[r].value)
  {
    if e == [] then 0
    else if p(e[0].value) then 0
    else 1 + FirstIndex(e[1..], p)
  }

  /** `first($callback)`: the first value, in array order, that satisfies `p`, or null. */
  function First<V>(e: seq<Entry<V>>, p: V -> bool): (r: Option<V>)
    ensures r.None? <==> forall j | 0 <= j < |e| :: !p(e[j].value)
    ensures r.Some? ==> exists i | 0 <= i < |e| ::
      e[i].value == r.value && p(r.value) && forall j | 0 <= j < i :: !p(e[j].value)
  {
    var i := FirstIndex(e, p);
    if i < |e| then Some(e[i].value) else None
  }

  /** `search($callback)`: the key of the first entry whose value satisfies `p`, or false. */
  function Search<V>(e: seq<Entry<V>>, p: V -> bool): (r: Option<int>)
    ensures r.None? <==> forall j | 0 <= j < |e| :: !p(e[j].value)
    ensures r.Some? ==> r.value == e[FirstIndex(e, p)].key
  {
    var i := FirstIndex(e, p);
    if i < |e| then Some(e[i].key) else None
  }

  /** `filter($callback)`: the entries whose value satisfies `p`, keys and order kept. */
  function Filter<V>(e: seq<Entry<V>>, p: V -> bool): (r: seq<Entry<V>>)
    ensures forall i | 0 <= i < |r| :: r[i] in e && p(r[i].value)
    ensures forall i | 0 <= i < |e| && p(e[i].value) :: e[i] in r
    ensures Keys(r) <= Keys(e)
    ensures UniqueKeys(e) ==> UniqueKeys(r)
  {
    if e == [] then []
    else if p(e[0].value) then [e[0]] + Filter(e[1..], p)
    else Filter(e[1..], p)
  }

  /** Filtering works entry by entry in array order: the filter of a
      concatenation is the concatenation of the filters. */
  lemma {:induction false} FilterAppend<V>(a: seq<Entry<V>>, b: seq<Entry<V>>, p: V -> bool)
    ensures Filter(a + b, p) == Filter(a, p) + Filter(b, p)
  {
    if a == [] {
      assert a + b == b;
    } else {
      assert (a + b)[0] == a[0];
      assert (a + b)[1..] == a[1..] + b;
      FilterAppend(a[1..], b, p);
    }
  }

  /** `first()` without a callback: the first value, or Doctrine's false on an empty array. */
  function FirstValue<V>(e: seq<Entry<V>>): (r: Option<V>)
    ensures r.None? <==> |e| == 0
    ensures r.Some? ==> r.value == Values(e)[0]
  {
    if e == [] then None else Some(e[0].value)
  }

  /** Filtering keeps array order: the first value of the filtered array is
      the first value of the whole array that satisfies the filter. */
  lemma {:induction false} FirstOfFilter<V>(e: seq<Entry<V>>, p: V -> bool)
    ensures FirstValue(Filter(e, p)) == First(e, p)
  {
    if e != [] && !p(e[0].value) {
      FirstOfFilter(e[1..], p);
      assert First(e, p) == First(e[1..], p) by {
        assert FirstIndex(e, p) == 1 + FirstIndex(e[1..], p);
      }
    }
  }

  /** Doctrine's `contains($x)`: whether `x` is strictly identical to one of the stored VALUES. */
  function Contains<V(==)>(e: seq<Entry<V>>, x: PhpValue<V>): (r: bool)
    ensures x.IntValue? ==> !r
    ensures x.ObjectValue? ==> (r <==> x.o in Values(e))
  {
    exists i | 0 <= i < |e| :: ObjectValue(e[i].value) == x
  }

  /** Distinct keys: the array has exactly as many entries as keys. */
  lemma {:induction false} KeysCount<V>(e: seq<Entry<V>>)
    requires UniqueKeys(e)
    ensures |Keys(e)| == |e|
  {
    if e != [] {
      KeysCount(e[1..]);
    }
  }

  /** The mutable collection object. Both containers hold a REFERENCE to one
      of these, so every holder of the same object sees every write. */
  class Collection<V> {
    var elements: seq<Entry<V>>

    ghost predicate Valid()
      reads this
    {
      UniqueKeys(elements)
    }

    constructor (elements: seq<Entry<V>>)
      requires UniqueKeys(elements)
      ensures Valid() && this.elements == elements
    {
      this.elements := elements;
    }

    /** Laravel's `put` and Doctrine's `set`: `$this->elements[$key] = $value`. */
    method Put(key: int, value: V)
      requires Valid()
      modifies this
      ensures Valid()
      ensures elements == WithKey(old(elements), key, value)
    {
      PutKeepsKeysUnique(elements, key, value);
      elements := WithKey(elements, key, value);
    }

    /** Laravel's `forget`: `unset($this->items[$key])`. */
    method Forget(key: int)
      requires Valid()
      modifies this
      ensures Valid()
      ensures elements == WithoutKey(old(elements), key)
    {
      ForgetKeepsKeysUnique(elements, key);
      elements := WithoutKey(elements, key);
    }
  }
}
