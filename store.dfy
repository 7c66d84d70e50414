/** The trade store (`Trade\Domain\Store`): a 24-slot container of priced
    items plus a money balance, mutated in place. */
module Trade {
  import opened Container
  import opened Collections
  import opened Equipment
  import opened Slots
  import Character

  datatype StoreId = StoreId(value: int)

  /** A sell-only store takes money in but never pays it out. */
  datatype StoreType = SellOnly | BuyAndSell {
    predicate IsSellOnly() { SellOnly? }
  }

  /** An item listed in a store, with the price it is listed at. */
  datatype StoreItem = StoreItem(item: Item, price: Money) {
    function Id(): ItemId { item.id }
    predicate IsOfType(t: ItemType) { item.itemType == t }
    /** The plain item, price dropped. */
    function ToBaseItem(): Item { item }
  }

  /** The callback of `findItem` and `takeOut`. */
  function HasId(itemId: ItemId): StoreItem -> bool {
    (si: StoreItem) => si.Id() == itemId
  }

  /** The callback of `findItemsOfType`. */
  function OfType(t: ItemType): StoreItem -> bool {
    (si: StoreItem) => si.IsOfType(t)
  }

  class Store {
    static const NumberOfSlots := 24

    // The getters getId, getCharacterId, getItems and getMoney read these fields.
    const id: StoreId
    const characterId: Character.CharacterId
    const storeType: StoreType
    /** Shared with whoever handed the collection to the constructor. */
    const items: Collection<StoreItem>
    var money: Money

    /** Field assignment; the capacity check is in `Create`. */
    constructor (id: StoreId, characterId: Character.CharacterId, storeType: StoreType,
                 items: Collection<StoreItem>, money: Money)
      ensures this.id == id && this.characterId == characterId && this.storeType == storeType
      ensures this.items == items && this.money == money
    {
      this.id := id;
      this.characterId := characterId;
      this.storeType := storeType;
      this.items := items;
      this.money := money;
    }

    /** `new Store(...)`: refuses a collection of 24 or more entries, else
        keeps every argument as given (the collection by reference). */
    static method Create(id: StoreId, characterId: Character.CharacterId, storeType: StoreType,
                         items: Collection<StoreItem>, money: Money)
      returns (r: Result<Store>)
      ensures r.Err? <==> |items.elements| >= NumberOfSlots
      ensures r.Err? ==> r.error == NotEnoughSpace
      ensures r.Ok? ==> fresh(r.value)
      ensures r.Ok? ==> r.value.id == id && r.value.characterId == characterId
      ensures r.Ok? ==> r.value.storeType == storeType && r.value.items == items && r.value.money == money
    {
      if |items.elements| >= NumberOfSlots {
        return Err(NotEnoughSpace);
      }
      var store := new Store(id, characterId, storeType, items, money);
      return Ok(store);
    }

    /** Places an item at an explicit slot. Slots of 24 and above are out of
        range; negative slots are accepted. */
    method AddItemToSlot(slot: int, item: StoreItem) returns (r: Outcome)
      requires items.Valid()
      modifies items
      ensures items.Valid()
      ensures slot >= NumberOfSlots ==>
        r == Fail(SlotOutOfRange) && items.elements == old(items.elements)
      ensures slot < NumberOfSlots && slot in Keys(old(items.elements)) ==>
        r == Fail(SlotIsTaken) && items.elements == old(items.elements)
      ensures slot < NumberOfSlots && slot !in Keys(old(items.elements)) ==>
        r == Pass && items.elements == WithKey(old(items.elements), slot, item)
    {
      if slot >= NumberOfSlots {
        return Fail(SlotOutOfRange);
      }
      if HasKey(items.elements, slot) {
        return Fail(SlotIsTaken);
      }
      items.Put(slot, item);
      return Pass;
    }

    /** Lists an item at its own price in the lowest free slot. */
    method Add(item: Item) returns (r: Outcome)
      requires items.Valid()
      modifies items
      ensures items.Valid()
      ensures LowestFreeSlot(old(items.elements), NumberOfSlots).None? ==>
        r == Fail(ContainerIsFull) && items.elements == old(items.elements)
      ensures LowestFreeSlot(old(items.elements), NumberOfSlots).Some? ==>
        var slot := LowestFreeSlot(old(items.elements), NumberOfSlots).value;
        r == Pass && items.elements == WithKey(old(items.elements), slot, StoreItem(item, item.price))
    {
      var storeItem := StoreItem(item, item.price);
      var slot := FindFreeSlot();
      if slot.Err? {
        return Fail(slot.error);
      }
      items.Put(slot.value, storeItem);
      return Pass;
    }

    /** Scans slots 0..23 upwards for one that is not a key. */
    method FindFreeSlot() returns (r: Result<int>)
      ensures r == SlotOrFull(LowestFreeSlot(items.elements, NumberOfSlots))
      ensures r.Ok? ==> 0 <= r.value < NumberOfSlots && r.value !in Keys(items.elements)
      ensures r.Ok? ==> forall k | 0 <= k < r.value :: k in Keys(items.elements)
      ensures r.Err? <==> forall k | 0 <= k < NumberOfSlots :: k in Keys(items.elements)
      ensures r.Err? ==> r.error == ContainerIsFull
    {
      var slot := ScanSlots(NotAKey(items.elements), NumberOfSlots);
      return SlotOrFull(slot);
    }

    /** The first listed item, in collection order, with the given id, or null. */
    function FindItem(itemId: ItemId): (r: Option<StoreItem>)
      reads items
      ensures r.None? <==> forall i | 0 <= i < |items.elements| :: items.elements[i].value.Id() != itemId
      ensures r.Some? ==> r.value.Id() == itemId
      ensures r.Some? ==> exists i | 0 <= i < |items.elements| ::
        items.elements[i].value == r.value && forall j | 0 <= j < i :: items.elements[j].value.Id() != itemId
    {
      First(items.elements, HasId(itemId))
    }

    /** The entries whose item has the given type, keys kept. */
    function FindItemsOfType(t: ItemType): (r: seq<Entry<StoreItem>>)
      reads items
      ensures forall i | 0 <= i < |r| :: r[i] in items.elements && r[i].value.IsOfType(t)
      ensures forall i | 0 <= i < |items.elements| && items.elements[i].value.IsOfType(t) ::
        items.elements[i] in r
      ensures UniqueKeys(items.elements) ==> UniqueKeys(r)
    {
      Filter(items.elements, OfType(t))
    }

    /** Removes the first entry holding the given id and returns its plain item. */
    method TakeOut(itemId: ItemId) returns (r: Result<Item>)
      requires items.Valid()
      modifies items
      ensures items.Valid()
      ensures var e := old(items.elements);
              var i := FirstIndex(e, HasId(itemId));
              if i == |e| then r == Err(ItemNotInContainer) && items.elements == e
              else r == Ok(e[i].value.ToBaseItem()) && items.elements == WithoutKey(e, e[i].key)
    {
      var slot := Search(items.elements, HasId(itemId));
      if slot.None? {
        return Err(ItemNotInContainer);
      }
      GetAt(items.elements, FirstIndex(items.elements, HasId(itemId)));
      var item := Get(items.elements, slot.value);
      items.Forget(slot.value);
      return Ok(item.value.ToBaseItem());
    }

    method PutMoneyIn(m: Money)
      modifies this
      ensures money == Combine(old(money), m)
    {
      money := Combine(money, m);
    }

    /** Pays money out of the balance; a sell-only store refuses. The caller
        is responsible for the balance covering the amount. */
    method TakeMoneyOut(m: Money) returns (r: Result<Money>)
      requires !storeType.IsSellOnly() ==> m.amount <= money.amount
      modifies this
      ensures storeType.IsSellOnly() ==> r == Err(StoreDoesNotBuyItems) && money == old(money)
      ensures !storeType.IsSellOnly() ==> r == Ok(m) && money == Remove(old(money), m)
    {
      if storeType.IsSellOnly() {
        return Err(StoreDoesNotBuyItems);
      }
      money := Remove(money, m);
      return Ok(m);
    }
  }

  /** The 24-entry limit is enforced only by the constructor: a store whose 23
      entries sit in slots 0..23 still has a free slot, and `add` fills it,
      bringing the store to 24 entries. */
  lemma AddReachesCapacity(e: seq<Entry<StoreItem>>, v: StoreItem)
    requires UniqueKeys(e) && |e| == Store.NumberOfSlots - 1
    requires forall k | k in Keys(e) :: 0 <= k < Store.NumberOfSlots
    ensures LowestFreeSlot(e, Store.NumberOfSlots).Some?
    ensures |WithKey(e, LowestFreeSlot(e, Store.NumberOfSlots).value, v)| == Store.NumberOfSlots
  {
    FullExactlyAtCapacity(e, Store.NumberOfSlots);
  }

  /** An empty sell-only store: listing an item and taking it out returns the
      item and empties the store; a second take-out fails, and so does paying
      money out. */
  method SellOnlyRoundTrip(item: Item)
    returns (first: Result<Item>, emptied: seq<Entry<StoreItem>>, second: Result<Item>, paid: Result<Money>)
    ensures first == Ok(item) && emptied == [] && second == Err(ItemNotInContainer)
    ensures paid == Err(StoreDoesNotBuyItems)
  {
    var items := new Collection<StoreItem>([]);
    var created := Store.Create(StoreId(1), Character.CharacterId(1), SellOnly, items, Money(0));
    var store := created.value;
    var added := store.Add(item);
    first := store.TakeOut(item.id);
    emptied := items.elements;
    second := store.TakeOut(item.id);
    paid := store.TakeMoneyOut(Money(10));
  }

  /** A buy-and-sell store with 100 pays out 30 and keeps 70. */
  method BuyAndSellPayout() returns (paid: Result<Money>, balance: Money)
    ensures paid == Ok(Money(30)) && balance == Money(70)
  {
    var items := new Collection<StoreItem>([]);
    var created := Store.Create(StoreId(2), Character.CharacterId(2), BuyAndSell, items, Money(100));
    var store := created.value;
    paid := store.TakeMoneyOut(Money(30));
    balance := store.money;
  }
}
