/** The slot allocation both containers share: `findFreeSlot` scans slots
    0, 1, ..., 23 upwards and takes the first one its test calls free. The
    store tests the keys; the inventory, as written, tests the values. */
module Slots {
  import opened Container
  import opened Collections

  /** The first k in [from, n) that `free` accepts, scanning upwards. */
  function FirstFreeFrom(free: int -> bool, from: int, n: int): (r: Option<int>)
    decreases n - from
    ensures r.Some? ==> from <= r.value < n && free(r.value)
    ensures r.Some? ==> forall k | from <= k < r.value :: !free(k)
    ensures r.None? <==> forall k | from <= k < n :: !free(k)
  {
    if from >= n then None
    else if free(from) then Some(from)
    else FirstFreeFrom(free, from + 1, n)
  }

  /** The loop `for ($slot = 0; $slot < n; $slot++) if (free($slot)) return $slot;`. */
  method ScanSlots(free: int -> bool, n: nat) returns (r: Option<int>)
    ensures r == FirstFreeFrom(free, 0, n)
  {
    for slot := 0 to n
      invariant FirstFreeFrom(free, slot, n) == FirstFreeFrom(free, 0, n)
    {
      if free(slot) {
        return Some(slot);
      }
    }
    return None;
  }

  /** The store's test: the slot is not a key (`!has($slot)`). */
  function NotAKey<V>(e: seq<Entry<V>>): int -> bool {
    k => k !in Keys(e)
  }

  /** The lowest slot in [0, n) that is not a key of `e`. */
  function LowestFreeSlot<V>(e: seq<Entry<V>>, n: int): (r: Option<int>)
    ensures r.Some? ==> 0 <= r.value < n && r.value !in Keys(e)
    ensures r.Some? ==> forall k | 0 <= k < r.value :: k in Keys(e)
    ensures r.None? <==> forall k | 0 <= k < n :: k in Keys(e)
  {
    var r := FirstFreeFrom(NotAKey(e), 0, n);
    assert forall k :: NotAKey(e)(k) == (k !in Keys(e));
    r
  }

  /** The set {0, ..., n-1}. */
  function SlotRange(n: nat): (r: set<int>)
    ensures forall k :: k in r <==> 0 <= k < n
    ensures |r| == n
  {
    if n == 0 then {}
    else
      var rest := SlotRange(n - 1);
      assert n - 1 !in rest;
      rest + {n - 1}
  }

  /** A subset is no larger than its superset, and equally large only when equal. */
  lemma SubsetSize(a: set<int>, b: set<int>)
    requires a <= b
    ensures |a| <= |b|
    ensures |a| == |b| ==> a == b
  {
    var d := b - a;
    assert b == a + d;
    assert a * d == {};
    assert |b| == |a| + |d|;
    if |a| == |b| {
      assert d == {};
    }
  }

  /** An array whose distinct keys all lie in [0, n) holds at most n entries,
      and the upward scan finds no free slot exactly when it holds n. */
  lemma FullExactlyAtCapacity<V>(e: seq<Entry<V>>, n: nat)
    requires UniqueKeys(e)
    requires forall k | k in Keys(e) :: 0 <= k < n
    ensures |e| <= n
    ensures LowestFreeSlot(e, n).None? <==> |e| == n
  {
    KeysCount(e);
    var keys, slots := Keys(e), SlotRange(n);
    assert keys <= slots;
    SubsetSize(keys, slots);
    if LowestFreeSlot(e, n).None? {
      assert slots <= keys;
      assert slots == keys;
    } else {
      var s := LowestFreeSlot(e, n).value;
      assert s in slots && s !in keys;
    }
  }
}
