# Slotted containers of RPG-Game-Simple, modelled in Dafny

The game keeps items in two 24-slot containers.

- The **trade store** (`Trade\Domain\Store`) holds priced store items keyed by slot, a store type (sell-only or buy-and-sell) and a money balance. Its methods change the store in place. It places items at an explicit slot or at the lowest free slot, finds items by id or by type, takes an item out as its plain item, and takes money in or pays it out. A sell-only store never pays out.
- The **character inventory** (`Character\Domain\ValueObjects\Inventory`) holds item entities keyed by slot. Its `with...` methods return a new Inventory. It also answers which equipped item has a given type, whether an item is held, what sits in a slot, and the total of one effect over the equipped items.

Both containers sit on a PHP collection: a Laravel `Collection` for the store, a Doctrine `Collection` for the inventory. Each wraps a PHP array, which is an ordered list of key/value entries. The model treats it that way:

- `Collections.Entry` is one key/value entry, and an array is a `seq<Entry<V>>` with distinct keys.
- Writing an existing key (`put`, `set`) replaces that entry where it stands. Writing a new key appends it at the end.
- `first`, `search` and `filter` go through the entries in this order.
- The collection itself is an object, `Collections.Collection`. A container holds a reference to it, so it shares it with everyone else who holds one. The store keeps the collection its constructor was given. The inventory's `addItem` writes into the receiver's own collection and then builds the new Inventory around that same object.

Modules:

- `Container`: the result types. Every exception becomes a `Failure` value inside `Result<T>` or `Outcome`. The store's `Container*` exceptions and `StoreDoesNotBuyItems` (Store.php:10-15) and the inventory's own exception classes (Inventory.php:5-8) share the one `Failure` type. Nothing is lost by this, because each operation raises only the exceptions of its own class: `SlotOutOfRange` from `withAddedItem` is `InventorySlotOutOfRangeException`, and from `addItemToSlot` it is `ContainerSlotOutOfRangeException`.
- `Collections`: the PHP-array operations the containers call, as functions, and the collection class.
- `Slots`: the upward free-slot scan both `findFreeSlot` methods run, and the capacity facts about it.
- `Equipment` and `EquipmentEntities`: the item values the containers read.
- `Trade`: the store.
- `Character`: the inventory.

Where the code does not do what its names, types and exception classes suggest, the model follows the code:

- Slots are not kept in `[0, 24)`. Only `slot >= 24` is rejected, so negative slots are accepted (Store.php:69, Inventory.php:39).
- The 24-entry limit is checked only when a container is constructed (Store.php:49, Inventory.php:25). A store can reach 24 entries through `add` (`Trade.AddReachesCapacity`). The inventory's `addItem` fails at 24 only after its write has happened.
- Collection order is insertion order, not slot order. `findItem`, `takeOut` and `findEquippedItemOfType` return the first match in insertion order.
- The inventory's slot-taken guard and its free-slot scan call Doctrine's `contains`. That method tests the stored values, not the keys. So the guard never fires and the scan always returns 0 (see Findings).
- `withAddedItem` changes the receiver, because the new Inventory shares the receiver's collection (see Findings).
- `findEquippedItemOfType` returns Doctrine's `false`, not null, when nothing matches. `None` stands for it.

The getters `getId`, `getCharacterId`, `getItems` and `getMoney` (Store.php:62-65, 114-122, 158-161) and the inventory's `getItems` (Inventory.php:114-117) are the classes' public fields `id`, `characterId`, `items` and `money`.

## Model

| member | source | states |
|---|---|---|
| `Collections.HasKey` | app/Modules/Trade/Domain/Store.php:73 | `has($k)` holds exactly when some entry carries the key `k` |
| `Collections.KeyHasEntry` | app/Modules/Trade/Domain/Store.php:92 | a key is in the key set exactly when some entry carries it |
| `Collections.Values` | app/Modules/Character/Domain/ValueObjects/Inventory.php:84 | `toArray()` as `array_reduce` reads it: the values in array order, one per entry |
| `Collections.Contains` | app/Modules/Character/Domain/ValueObjects/Inventory.php:43 | Doctrine's strict `contains($x)`: never true for an integer, and true for an object exactly when it is one of the stored values |
| `Collections.Get` | app/Modules/Character/Domain/ValueObjects/Inventory.php:94 | `get($k)` finds a value exactly when `k` is a key, and the value found is stored under `k` |
| `Collections.GetAt` | app/Modules/Trade/Domain/Store.php:126-135 | with distinct keys, `get` of the key found at a position returns the value at that position |
| `Collections.WithKey` | app/Modules/Trade/Domain/Store.php:77 | `put`/`set` make the key set the old keys plus `k`. An existing key keeps the length, and a new key is appended at the end |
| `Collections.PutAt` | app/Modules/Character/Domain/ValueObjects/Inventory.php:109 | overwriting an existing key replaces its entry at its own position, and every other entry keeps its place |
| `Collections.GetAfterPut` | app/Modules/Trade/Domain/Store.php:77 | after `put($k, $v)`, `k` reads `v` and every other key reads as before |
| `Collections.PutKeepsKeysUnique` | app/Modules/Character/Domain/ValueObjects/Inventory.php:109 | `put`/`set` keep the keys distinct |
| `Collections.WithoutKey` | app/Modules/Trade/Domain/Store.php:137 | `forget` makes the key set the old keys minus `k`, and leaves the array untouched when `k` is absent |
| `Collections.ForgetAt` | app/Modules/Trade/Domain/Store.php:137 | forgetting a present key removes exactly its entry and keeps the rest in order |
| `Collections.GetAfterForget` | app/Modules/Trade/Domain/Store.php:137 | after `forget($k)`, `k` reads null and every other key reads as before |
| `Collections.ForgetKeepsKeysUnique` | app/Modules/Trade/Domain/Store.php:137 | with distinct keys, `forget` removes one entry when `k` is present and none otherwise, and keeps the keys distinct |
| `Collections.ForgetUndoesPut` | app/Modules/Trade/Domain/Store.php:124-140 | putting a new key and then forgetting it gives back the original array, so a freed slot can be filled again |
| `Collections.First` | app/Modules/Trade/Domain/Store.php:102-104 | `first($callback)` gives null exactly when no value matches. Otherwise it gives a matching value with no match before it |
| `Collections.Search` | app/Modules/Trade/Domain/Store.php:126-128 | `search($callback)` gives false exactly when no value matches. Otherwise it gives the key of the first matching entry |
| `Collections.Filter` | app/Modules/Trade/Domain/Store.php:109-111 | `filter` keeps exactly the entries whose value matches, with their keys, and keeps keys distinct |
| `Collections.FilterAppend` | app/Modules/Trade/Domain/Store.php:109-111 | `filter` works entry by entry in array order: the filter of a concatenation is the concatenation of the filters, so kept entries keep their order |
| `Collections.FirstValue` | app/Modules/Character/Domain/ValueObjects/Inventory.php:72 | Doctrine's `first()`: false (None) exactly on an empty array, otherwise the first value in array order |
| `Collections.FirstOfFilter` | app/Modules/Character/Domain/ValueObjects/Inventory.php:70-72 | `filter(p)->first()` is the first value in collection order that satisfies `p` |
| `Collections.Collection.Put` | app/Modules/Trade/Domain/Store.php:86 | the collection object's array becomes the old array with `key => value` written. The array stays well-formed |
| `Collections.Collection.Forget` | app/Modules/Trade/Domain/Store.php:137 | the collection object's array becomes the old array without `key`. The array stays well-formed |
| `Slots.FirstFreeFrom` | app/Modules/Trade/Domain/Store.php:91-95 | the upward scan returns a slot in range that the test accepts, with every lower slot rejected. It finds nothing exactly when the test rejects every slot |
| `Slots.ScanSlots` | app/Modules/Trade/Domain/Store.php:91-95 | the `for` loop over slots 0..n-1 returns what the upward scan specifies |
| `Slots.LowestFreeSlot` | app/Modules/Trade/Domain/Store.php:89-98 | the scan by key gives the least slot in `[0, n)` that is not a key. It gives nothing exactly when all of `0..n-1` are keys |
| `Slots.FullExactlyAtCapacity` | app/Modules/Trade/Domain/Store.php:89-98 | with distinct keys all in `[0, n)` there are at most `n` entries, and the scan finds no free slot exactly when there are `n` |
| `Trade.Store.constructor` | app/Modules/Trade/Domain/Store.php:55-59 | every field is stored as given |
| `Trade.Store.Create` | app/Modules/Trade/Domain/Store.php:47-60 | fails not-enough-space exactly when the collection has 24 or more entries. Otherwise it is a fresh store holding the given id, owner, type, collection object and money |
| `Trade.Store.AddItemToSlot` | app/Modules/Trade/Domain/Store.php:67-78 | slot >= 24 fails out-of-range and a key already present fails slot-taken, in both cases with the items unchanged. Otherwise `slot => item` is written. Negative slots pass |
| `Trade.Store.Add` | app/Modules/Trade/Domain/Store.php:80-87 | `StoreItem(item, item.price)` is written at the lowest free slot in `[0, 24)`. With no free slot the result is container-full and the items are unchanged |
| `Trade.Store.FindFreeSlot` | app/Modules/Trade/Domain/Store.php:89-98 | returns the least slot in `[0, 24)` that is not a key. Fails container-full exactly when all of 0..23 are keys |
| `Trade.Store.FindItem` | app/Modules/Trade/Domain/Store.php:100-105 | null exactly when no stored item has the id. Otherwise a stored item with that id, with none before it in collection order |
| `Trade.Store.FindItemsOfType` | app/Modules/Trade/Domain/Store.php:107-112 | exactly the entries whose item has the type, keys kept and distinct. Their order is the array order, by `Collections.FilterAppend` |
| `Trade.Store.TakeOut` | app/Modules/Trade/Domain/Store.php:124-140 | with no item of that id: item-not-in-container, items unchanged. Otherwise it removes exactly the key of the first matching entry and returns that entry's plain item |
| `Trade.Store.PutMoneyIn` | app/Modules/Trade/Domain/Store.php:142-145 | money becomes `combine(old money, m)` |
| `Trade.Store.TakeMoneyOut` | app/Modules/Trade/Domain/Store.php:147-156 | a sell-only store fails store-does-not-buy with money unchanged. Otherwise money becomes `remove(old money, m)` and `m` is returned |
| `Trade.AddReachesCapacity` | app/Modules/Trade/Domain/Store.php:80-98 | 23 entries in slots 0..23 still leave a free slot, and writing it gives a store of 24 entries, one more than the constructor accepts |
| `Trade.SellOnlyRoundTrip` | app/Modules/Trade/Domain/Store.php:124-156 | on an empty sell-only store, add then take-out returns the item and leaves the collection empty, a second take-out fails item-not-in-container, and paying out fails store-does-not-buy |
| `Trade.BuyAndSellPayout` | app/Modules/Trade/Domain/Store.php:147-156 | a buy-and-sell store holding 100 pays out 30 and keeps 70 |
| `Character.ScanByValueStopsAtFirst` | app/Modules/Character/Domain/ValueObjects/Inventory.php:59-63 | an integer is never one of the stored items, so the scan that tests `contains($slot)` stops at its first slot whatever the inventory holds |
| `Character.ReduceEffects` | app/Modules/Character/Domain/ValueObjects/Inventory.php:84-89 | `array_reduce` from a null carry returns null exactly when there are no items, which is why the result goes through `(int)` |
| `Character.ReduceIsSum` | app/Modules/Character/Domain/ValueObjects/Inventory.php:84-89 | `array_reduce` with `$carry + effect`, read through `(int)`, is the carry (null counting as 0) plus the sum of the effects |
| `Character.SumOfEquipped` | app/Modules/Character/Domain/ValueObjects/Inventory.php:82-102 | the sum over the equipped entries equals the reference total, in which unequipped items count 0 |
| `Character.EquippedEffectAppend` | app/Modules/Character/Domain/ValueObjects/Inventory.php:82-90 | the total over a concatenation is the sum of the two totals |
| `Character.EquippedEffectOrderFree` | app/Modules/Character/Domain/ValueObjects/Inventory.php:82-90 | any permutation of the same items (equal multisets) has the same total |
| `Character.NothingEquippedNoEffect` | app/Modules/Character/Domain/ValueObjects/Inventory.php:82-90 | with no item equipped the total is 0 |
| `Character.EquippedEffectExample` | app/Modules/Character/Domain/ValueObjects/Inventory.php:82-90 | equipped effects 3 and 2 beside an unequipped 5 total 5 |
| `Character.Inventory.constructor` | app/Modules/Character/Domain/ValueObjects/Inventory.php:29 | the inventory wraps the given collection object |
| `Character.Inventory.WithItems` | app/Modules/Character/Domain/ValueObjects/Inventory.php:23-35 | fails not-enough-space exactly when the collection has 24 or more entries. Otherwise it is a fresh inventory over that same collection object |
| `Character.Inventory.WithAddedItem` | app/Modules/Character/Domain/ValueObjects/Inventory.php:37-48 | slot >= 24 fails out-of-range before anything changes, and negative slots pass. Otherwise it never fails slot-taken and does what `addItem` does |
| `Character.Inventory.WithAddedItemToFreeSlot` | app/Modules/Character/Domain/ValueObjects/Inventory.php:50-55 | it is `addItem(0, item)`: slot 0 is recorded on the item and written in the shared collection, replacing any occupant |
| `Character.Inventory.FindFreeSlot` | app/Modules/Character/Domain/ValueObjects/Inventory.php:57-66 | returns the first slot for which `contains($slot)` is false, which is slot 0 |
| `Character.Inventory.FindEquippedItemOfType` | app/Modules/Character/Domain/ValueObjects/Inventory.php:68-73 | the first item in collection order that has the type and is equipped. None (Doctrine's false) exactly when there is none |
| `Character.Inventory.HasItem` | app/Modules/Character/Domain/ValueObjects/Inventory.php:75-80 | true exactly when the item object is one of the stored values |
| `Character.Inventory.GetEquippedItemsEffect` | app/Modules/Character/Domain/ValueObjects/Inventory.php:82-90 | equals the reference total of the effect over the equipped items, so it is 0 with none equipped |
| `Character.Inventory.GetItemForSlot` | app/Modules/Character/Domain/ValueObjects/Inventory.php:92-95 | an item exactly when the slot is a key, and that item is the one stored under the slot |
| `Character.Inventory.GetEquippedItems` | app/Modules/Character/Domain/ValueObjects/Inventory.php:97-102 | exactly the entries holding equipped items, keys kept and distinct, so no item is counted twice. Their order is the array order, by `Collections.FilterAppend` |
| `Character.Inventory.AddItem` | app/Modules/Character/Domain/ValueObjects/Inventory.php:104-112 | records the slot on the item and writes `slot => item` into the shared collection. The result is a fresh inventory over that same object, or not-enough-space when the write reached 24 entries. The write stays either way |
| `Character.OriginalObservesAddedItem` | app/Modules/Character/Domain/ValueObjects/Inventory.php:104-112 | after `withAddedItem(0, x)` on an empty inventory, the ORIGINAL inventory returns `x` for slot 0 |
| `Character.OccupiedSlotIsOverwritten` | app/Modules/Character/Domain/ValueObjects/Inventory.php:43-47 | placing an item at an occupied slot below 24 succeeds and replaces the occupant |
| `Character.Inventory.FindFreeSlotByKey` | app/Modules/Character/Domain/ValueObjects/Inventory.php:57-66 | corrected scan: the least slot in `[0, 24)` that is not a key. Container-full exactly when all are keys |
| `Character.Inventory.WithAddedItemByKey` | app/Modules/Character/Domain/ValueObjects/Inventory.php:37-48 | corrected placement: out-of-range, or slot-taken when the slot is a KEY. Otherwise the item goes into a fresh copy of the collection, and the receiver's collection is unchanged in every case |
| `Character.Inventory.WithAddedItemToFreeSlotByKey` | app/Modules/Character/Domain/ValueObjects/Inventory.php:50-55 | corrected free placement: the lowest free key receives the item in a fresh copy. Container-full when there is none. The receiver is unchanged |
| `Character.Inventory.AddItemToCopy` | app/Modules/Character/Domain/ValueObjects/Inventory.php:104-112 | corrected `addItem`: the new inventory gets its own collection, the old array with `slot => item` written. The receiver's collection is unchanged |

## Left out

- Trade.Store.TakeMoneyOut: on a buy-and-sell store the balance must cover the amount. The source of `Money::remove` is not part of this model, so what it does with a larger amount is not modelled.
- `Money` internals: `combine` and `remove` are integer addition and subtraction on a non-negative amount. Currency rules are not modelled.
- `Item`, `StoreItem`, `ItemId`, `ItemType`, `StoreType` and `InventorySlot` are not part of this model beyond what the containers read. A store item is assumed to report its wrapped item's id and type, and `toBaseItem` is assumed to return the wrapped item. An inventory item's type, equipped flag and effect lookup are fixed fields, so changes by other code are not modelled. `InventorySlot::defined` (Inventory.php:106) is taken to accept any integer. Its source is not part of this model, so the claim that negative slots pass `withAddedItem` holds only if it does not throw on them.
- The Laravel and Doctrine libraries: only the operations the containers call are modelled, with integer keys only. `filter` yields the filtered entries as a value. The new collection object it really returns is not shared with anyone, so nothing is lost by this.
- Character.Inventory.GetEquippedItemsEffect: PHP's switch from integer to float on overflow is not modelled. Integers are unbounded.
- Exception messages, the persistence mapping and the Blade message template (resources/views/message/partials/my-message.blade.php) are not modelled: they carry no container logic.
- Concurrency: the containers are single-threaded domain objects.

## Findings

| source | as written | input that shows it | evidently intended | confidence | as-written member | corrected member |
|---|---|---|---|---|---|---|
| app/Modules/Character/Domain/ValueObjects/Inventory.php:43-60 | the slot-taken guard and the free-slot scan call `contains($slot)`, which tests the stored VALUES, and an integer is never an item | an inventory with an item at slot 0: `withAddedItem(0, x)` succeeds and replaces it, and `findFreeSlot()` returns 0 | test the keys (`containsKey($slot)`), giving slot-taken and the lowest free slot | high; not executed | `Character.Inventory.WithAddedItem`, `Character.OccupiedSlotIsOverwritten`, `Character.Inventory.FindFreeSlot` | `Character.Inventory.WithAddedItemByKey`, `Character.Inventory.FindFreeSlotByKey`, `Character.Inventory.WithAddedItemToFreeSlotByKey` |
| app/Modules/Character/Domain/ValueObjects/Inventory.php:104-112 | `addItem` writes into the receiver's own collection and wraps that same object | an empty inventory `inv`: after `inv.withAddedItem(0, x)`, `inv.getItemForSlot(0)` is `x` | a value object whose `with...` methods leave the receiver unchanged, writing into a copy | medium; not executed | `Character.Inventory.AddItem`, `Character.OriginalObservesAddedItem` | `Character.Inventory.AddItemToCopy`, `Character.Inventory.WithAddedItemByKey` |

The members `Character.Inventory.WithAddedItem`, `WithAddedItemToFreeSlot`, `FindFreeSlot` and `AddItem` model the code as written. The `...ByKey` members and `AddItemToCopy` are the corrected inventory operations, with the intended properties stated in their contracts.
