/** The character inventory (`Character\Domain\ValueObjects\Inventory`): a
    24-slot map over item entities. Its `with...` methods return a new
    Inventory, but over the SAME collection object the receiver holds, which
    they have written to first. */
module Character {
  import opened Container
  import opened Collections
  import opened EquipmentEntities
  import opened Slots
  import Equipment

  datatype CharacterId = CharacterId(value: int)

  /** The callback of `getEquippedItems`. */
  function IsEquipped(x: Item): bool {
    x.equipped
  }

  /** The callback of `findEquippedItemOfType`. */
  function EquippedOfType(t: Equipment.ItemType): Item -> bool {
    (x: Item) => x.itemType == t && x.equipped
  }

  /** The free-slot test of `findFreeSlot` as written: `!contains($slot)`,
      i.e. the slot NUMBER is not one of the stored values. */
  function NotAStoredValue(e: seq<Entry<Item>>): int -> bool {
    k => !Contains(e, IntValue(k))
  }

  /** An integer is never one of the stored items, so the scan by value
      stops at its first index whatever the inventory holds. */
  lemma ScanByValueStopsAtFirst(e: seq<Entry<Item>>, from: int, n: int)
    requires from < n
    ensures FirstFreeFrom(NotAStoredValue(e), from, n) == Some(from)
  {
    assert !Contains(e, IntValue(from));
  }

  /** `(int)` applied to the carry of `array_reduce`: null reads as 0. */
  function AsInt(carry: Option<int>): int {
    if carry.Some? then carry.value else 0
  }

  /** `array_reduce($items, fn ($carry, $item) => $carry + $item->getItemEffect($t))`
      with the carry starting at null; PHP's null + x is x. */
  function ReduceEffects(items: seq<Item>, t: string, carry: Option<int>): (r: Option<int>)
    ensures r.None? <==> carry.None? && items == []
  {
    if items == [] then carry
    else ReduceEffects(items[1..], t, Some(AsInt(carry) + items[0].effect(t)))
  }

  /** The plain sum of the effects of the given items. */
  function EffectSum(items: seq<Item>, t: string): int {
    if items == [] then 0 else items[0].effect(t) + EffectSum(items[1..], t)
  }

  /** Reference definition: the total effect of the equipped items among
      `items`; unequipped items contribute nothing. */
  function EquippedEffect(items: seq<Item>, t: string): int {
    if items == [] then 0
    else (if items[0].equipped then items[0].effect(t) else 0) + EquippedEffect(items[1..], t)
  }

  /** The reduction adds the effect sum to whatever the carry held. */
  lemma {:induction false} ReduceIsSum(items: seq<Item>, t: string, carry: Option<int>)
    ensures AsInt(ReduceEffects(items, t, carry)) == AsInt(carry) + EffectSum(items, t)
  {
    if items != [] {
      ReduceIsSum(items[1..], t, Some(AsInt(carry) + items[0].effect(t)));
    }
  }

  /** Summing over the equipped entries is the reference total over all entries. */
  lemma {:induction false} SumOfEquipped(e: seq<Entry<Item>>, t: string)
    ensures EffectSum(Values(Filter(e, IsEquipped)), t) == EquippedEffect(Values(e), t)
  {
    if e != [] {
      SumOfEquipped(e[1..], t);
      assert Values(e)[1..] == Values(e[1..]);
      if IsEquipped(e[0].value) {
        var f := Filter(e, IsEquipped);
        assert f == [e[0]] + Filter(e[1..], IsEquipped);
        assert Values(f)[1..] == Values(Filter(e[1..], IsEquipped));
      }
    }
  }

  /** The total splits over a concatenation. */
  lemma {:induction false} EquippedEffectAppend(xs: seq<Item>, ys: seq<Item>, t: string)
    ensures EquippedEffect(xs + ys, t) == EquippedEffect(xs, t) + EquippedEffect(ys, t)
  {
    if xs == [] {
      assert xs + ys == ys;
    } else {
      assert (xs + ys)[0] == xs[0];
      assert (xs + ys)[1..] == xs[1..] + ys;
      EquippedEffectAppend(xs[1..], ys, t);
    }
  }

  /** The order of the items does not change the total: any permutation of
      the same items has the same total. */
  lemma {:induction false} EquippedEffectOrderFree(xs: seq<Item>, ys: seq<Item>, t: string)
    requires multiset(xs) == multiset(ys)
    ensures EquippedEffect(xs, t) == EquippedEffect(ys, t)
  {
    if xs == [] {
      assert |ys| == |multiset(ys)| == 0;
    } else {
      var x := xs[0];
      assert xs == [x] + xs[1..];
      assert x in multiset(ys);
      var i :| 0 <= i < |ys| && ys[i] == x;
      var rest := ys[..i] + ys[i + 1..];
      assert ys == ys[..i] + ([x] + ys[i + 1..]);
      assert multiset(xs) == multiset{x} + multiset(xs[1..]);
      assert multiset(ys) == multiset(ys[..i]) + multiset{x} + multiset(ys[i + 1..]);
      assert multiset(rest) == multiset(ys[..i]) + multiset(ys[i + 1..]);
      assert multiset(xs[1..]) == multiset(xs) - multiset{x};
      assert multiset(rest) == multiset(ys) - multiset{x};
      EquippedEffectOrderFree(xs[1..], rest, t);
      EquippedEffectAppend(ys[..i], [x] + ys[i + 1..], t);
      EquippedEffectAppend(ys[..i], ys[i + 1..], t);
      assert ([x] + ys[i + 1..])[1..] == ys[i + 1..];
    }
  }

  /** With nothing equipped the total is 0. */
  lemma {:induction false} NothingEquippedNoEffect(items: seq<Item>, t: string)
    requires forall i | 0 <= i < |items| :: !items[i].equipped
    ensures EquippedEffect(items, t) == 0
  {
    if items != [] {
      NothingEquippedNoEffect(items[1..], t);
    }
  }

  /** Equipped effects 3 and 2 beside an unequipped 5 total 5. */
  lemma EquippedEffectExample(a: Item, b: Item, c: Item, t: string)
    requires a.equipped && a.effect(t) == 3
    requires !b.equipped && b.effect(t) == 5
    requires c.equipped && c.effect(t) == 2
    ensures EquippedEffect([a, b, c], t) == 5
  {
    assert [c][1..] == [];
    assert EquippedEffect([c], t) == 2;
    assert [b, c][1..] == [c];
    assert EquippedEffect([b, c], t) == 2;
    assert [a, b, c][1..] == [b, c];
  }

  class Inventory {
    static const NumberOfSlots := 24

    /** `getItems()` reads this field: the collection, by reference. */
    const items: Collection<Item>

    /** Field assignment; the capacity check is in `WithItems`. */
    constructor (items: Collection<Item>)
      ensures this.items == items
    {
      this.items := items;
    }

    /** `withItems` and the private constructor: refuses a collection of 24
        or more entries, else wraps the given collection object. */
    static method WithItems(items: Collection<Item>) returns (r: Result<Inventory>)
      ensures r.Err? <==> |items.elements| >= NumberOfSlots
      ensures r.Err? ==> r.error == NotEnoughSpace
      ensures r.Ok? ==> fresh(r.value) && r.value.items == items
    {
      if |items.elements| >= NumberOfSlots {
        return Err(NotEnoughSpace);
      }
      var inventory := new Inventory(items);
      return Ok(inventory);
    }

    /** Explicit placement as written: a slot of 24 or more is out of range,
        negative slots pass, and the slot-taken guard asks `contains($slot)`,
        which tests the VALUES, so an integer never matches and the guard
        never fires: an occupant is overwritten. */
    method WithAddedItem(slot: int, item: Item) returns (r: Result<Inventory>)
      requires items.Valid()
      modifies items, item
      ensures items.Valid()
      ensures slot >= NumberOfSlots ==> r == Err(SlotOutOfRange)
      ensures slot >= NumberOfSlots ==>
        items.elements == old(items.elements) && item.inventorySlot == old(item.inventorySlot)
      ensures slot < NumberOfSlots ==>
        && item.inventorySlot == Defined(slot)
        && items.elements == WithKey(old(items.elements), slot, item)
        && (r.Ok? <==> |items.elements| < NumberOfSlots)
        && (r.Ok? ==> fresh(r.value) && r.value.items == items)
        && (r.Err? ==> r.error == NotEnoughSpace)
    {
      if slot >= NumberOfSlots {
        return Err(SlotOutOfRange);
      }
      if Contains(items.elements, IntValue(slot)) {
        return Err(SlotIsTaken);
      }
      r := AddItem(slot, item);
    }

    /** Placement at the slot `findFreeSlot` returns, which is always 0. */
    method WithAddedItemToFreeSlot(item: Item) returns (r: Result<Inventory>)
      requires items.Valid()
      modifies items, item
      ensures items.Valid()
      ensures item.inventorySlot == Defined(0)
      ensures items.elements == WithKey(old(items.elements), 0, item)
      ensures r.Ok? <==> |items.elements| < NumberOfSlots
      ensures r.Ok? ==> fresh(r.value) && r.value.items == items
      ensures r.Err? ==> r.error == NotEnoughSpace
    {
      var slot := FindFreeSlot();
      if slot.Err? {
        return Err(ContainerIsFull);
      }
      r := AddItem(slot.value, item);
    }

    /** The free-slot scan as written: the first index for which
        `contains($slot)` is false, which is index 0. */
    method FindFreeSlot() returns (r: Result<int>)
      ensures r == SlotOrFull(FirstFreeFrom(NotAStoredValue(items.elements), 0, NumberOfSlots))
      ensures r == Ok(0)
    {
      var slot := ScanSlots(NotAStoredValue(items.elements), NumberOfSlots);
      ScanByValueStopsAtFirst(items.elements, 0, NumberOfSlots);
      return SlotOrFull(slot);
    }

    /** The first item, in collection order, of the given type that is
        equipped; None stands for the false that `first()` returns on an
        empty filter result. */
    function FindEquippedItemOfType(t: Equipment.ItemType): (r: Option<Item>)
      reads items
      ensures r == First(items.elements, EquippedOfType(t))
      ensures r.None? <==> forall i | 0 <= i < |items.elements| ::
        !(items.elements[i].value.itemType == t && items.elements[i].value.equipped)
      ensures r.Some? ==> r.value.itemType == t && r.value.equipped
      ensures r.Some? ==> r.value in Values(items.elements)
    {
      FirstOfFilter(items.elements, EquippedOfType(t));
      FirstValue(Filter(items.elements, EquippedOfType(t)))
    }

    /** Identity membership among the stored items. */
    function HasItem(x: Item): (r: bool)
      reads items
      ensures r <==> x in Values(items.elements)
    {
      Contains(items.elements, ObjectValue(x))
    }

    /** The total effect of the equipped items, 0 when none is equipped. */
    function GetEquippedItemsEffect(t: string): (r: int)
      reads items
      ensures r == EquippedEffect(Values(items.elements), t)
    {
      ReduceIsSum(Values(GetEquippedItems()), t, None);
      SumOfEquipped(items.elements, t);
      AsInt(ReduceEffects(Values(GetEquippedItems()), t, None))
    }

    /** The occupant of a slot, or null for a free or out-of-range slot. */
    function GetItemForSlot(slot: int): (r: Option<Item>)
      reads items
      ensures r.Some? <==> slot in Keys(items.elements)
      ensures r.Some? ==> Entry(slot, r.value) in items.elements
    {
      Get(items.elements, slot)
    }

    /** The entries holding equipped items, keys kept. */
    function GetEquippedItems(): (r: seq<Entry<Item>>)
      reads items
      ensures forall i | 0 <= i < |r| :: r[i] in items.elements && r[i].value.equipped
      ensures forall i | 0 <= i < |items.elements| && items.elements[i].value.equipped ::
        items.elements[i] in r
      ensures UniqueKeys(items.elements) ==> UniqueKeys(r)
    {
      Filter(items.elements, IsEquipped)
    }

    /** `addItem`: records the slot on the item, writes slot => item into the
        SHARED collection (overwriting any occupant), then constructs a new
        Inventory over that same collection, which fails once the write has
        brought it to 24 entries. The write stays in either case. */
    method AddItem(slot: int, item: Item) returns (r: Result<Inventory>)
      requires items.Valid()
      modifies items, item
      ensures items.Valid()
      ensures item.inventorySlot == Defined(slot)
      ensures items.elements == WithKey(old(items.elements), slot, item)
      ensures r.Ok? <==> |items.elements| < NumberOfSlots
      ensures r.Ok? ==> fresh(r.value) && r.value.items == items
      ensures r.Err? ==> r.error == NotEnoughSpace
    {
      item.inventorySlot := Defined(slot);
      var shared := items;
      shared.Put(slot, item);
      r := WithItems(items);
    }

    /** Corrected free-slot scan: the lowest slot that is not a KEY. */
    method FindFreeSlotByKey() returns (r: Result<int>)
      ensures r == SlotOrFull(LowestFreeSlot(items.elements, NumberOfSlots))
      ensures r.Ok? ==> 0 <= r.value < NumberOfSlots && r.value !in Keys(items.elements)
      ensures r.Ok? ==> forall k | 0 <= k < r.value :: k in Keys(items.elements)
      ensures r.Err? <==> forall k | 0 <= k < NumberOfSlots :: k in Keys(items.elements)
    {
      var slot := ScanSlots(NotAKey(items.elements), NumberOfSlots);
      return SlotOrFull(slot);
    }

    /** Corrected explicit placement: the guard tests the KEYS, and the new
        Inventory gets a copy of the collection, so the receiver is unchanged. */
    method WithAddedItemByKey(slot: int, item: Item) returns (r: Result<Inventory>)
      requires items.Valid()
      modifies item
      ensures items.elements == old(items.elements)
      ensures slot >= NumberOfSlots ==> r == Err(SlotOutOfRange) && item.inventorySlot == old(item.inventorySlot)
      ensures slot < NumberOfSlots && slot in Keys(items.elements) ==>
        r == Err(SlotIsTaken) && item.inventorySlot == old(item.inventorySlot)
      ensures slot < NumberOfSlots && slot !in Keys(items.elements) ==>
        && item.inventorySlot == Defined(slot)
        && (r.Ok? <==> |items.elements| + 1 < NumberOfSlots)
        && (r.Ok? ==> fresh(r.value) && fresh(r.value.items) && r.value.items.Valid())
        && (r.Ok? ==> r.value.items.elements == items.elements + [Entry(slot, item)])
        && (r.Err? ==> r.error == NotEnoughSpace)
    {
      if slot >= NumberOfSlots {
        return Err(SlotOutOfRange);
      }
      if HasKey(items.elements, slot) {
        return Err(SlotIsTaken);
      }
      r := AddItemToCopy(slot, item);
    }

    /** Corrected placement at the lowest free key, on a copy. */
    method WithAddedItemToFreeSlotByKey(item: Item) returns (r: Result<Inventory>)
      requires items.Valid()
      modifies item
      ensures items.elements == old(items.elements)
      ensures LowestFreeSlot(items.elements, NumberOfSlots).None? ==>
        r == Err(ContainerIsFull) && item.inventorySlot == old(item.inventorySlot)
      ensures LowestFreeSlot(items.elements, NumberOfSlots).Some? ==>
        var slot := LowestFreeSlot(items.elements, NumberOfSlots).value;
        && item.inventorySlot == Defined(slot)
        && (r.Ok? <==> |items.elements| + 1 < NumberOfSlots)
        && (r.Ok? ==> fresh(r.value) && fresh(r.value.items) && r.value.items.Valid())
        && (r.Ok? ==> r.value.items.elements == items.elements + [Entry(slot, item)])
        && (r.Err? ==> r.error == NotEnoughSpace)
    {
      var slot := FindFreeSlotByKey();
      if slot.Err? {
        return Err(slot.error);
      }
      r := AddItemToCopy(slot.value, item);
    }

    /** Corrected `addItem`: writes into a fresh copy of the collection. */
    method AddItemToCopy(slot: int, item: Item) returns (r: Result<Inventory>)
      requires items.Valid()
      modifies item
      ensures items.elements == old(items.elements)
      ensures item.inventorySlot == Defined(slot)
      ensures r.Ok? <==> |WithKey(items.elements, slot, item)| < NumberOfSlots
      ensures r.Ok? ==> fresh(r.value) && fresh(r.value.items) && r.value.items.Valid()
      ensures r.Ok? ==> r.value.items.elements == WithKey(items.elements, slot, item)
      ensures r.Err? ==> r.error == NotEnoughSpace
    {
      item.inventorySlot := Defined(slot);
      PutKeepsKeysUnique(items.elements, slot, item);
      var copy := new Collection(WithKey(items.elements, slot, item));
      r := WithItems(copy);
    }
  }

  /** As written, a derived inventory shares its collection with the
      original: the original observes the item placed through it. */
  method OriginalObservesAddedItem(inventory: Inventory, item: Item) returns (derived: Result<Inventory>)
    requires inventory.items.Valid() && inventory.items.elements == []
    modifies inventory.items, item
    ensures derived.Ok? && derived.value.items == inventory.items
    ensures inventory.GetItemForSlot(0) == Some(item)
  {
    derived := inventory.WithAddedItem(0, item);
  }

  /** As written, placing an item at an occupied slot succeeds and replaces
      the occupant instead of failing slot-taken. */
  method OccupiedSlotIsOverwritten(inventory: Inventory, slot: int, item: Item) returns (r: Result<Inventory>)
    requires inventory.items.Valid() && slot < Inventory.NumberOfSlots
    requires slot in Keys(inventory.items.elements) && |inventory.items.elements| < Inventory.NumberOfSlots
    modifies inventory.items, item
    ensures r.Ok? && inventory.GetItemForSlot(slot) == Some(item)
  {
    r := inventory.WithAddedItem(slot, item);
    GetAfterPut(old(inventory.items.elements), slot, item, slot);
  }
}
