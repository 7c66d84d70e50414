/** The equipment value objects the containers store. Only what the
    containers read is modelled: identity, type, price, the equipped flag,
    the effect lookup and the inventory slot an item records. */
module Equipment {

  datatype ItemId = ItemId(value: int)

  datatype ItemType = ItemType(name: string)

  /** An amount of money in the game's integer currency. The store only ever
      passes it to `combine` and `remove`. */
  datatype Money = Money(amount: nat)

  /** `Money::combine`: adds two amounts. */
  function Combine(a: Money, b: Money): Money {
    Money(a.amount + b.amount)
  }

  /** `Money::remove`: subtracts an amount the balance covers. What the real
      `remove` does with a larger amount is not modelled, so it is excluded. */
  function Remove(a: Money, b: Money): Money
    requires b.amount <= a.amount
  {
    Money(a.amount - b.amount)
  }

  /** The item as the store sees it (`Equipment\Domain\Item`). */
  datatype Item = Item(id: ItemId, itemType: ItemType, price: Money)
}

/** The item entity the inventory holds (`Equipment\Domain\Entities\Item`). It
    is an object: the inventory compares items by identity and writes the
    slot each one records. */
module EquipmentEntities {
  import opened Equipment

  /** The slot an item records: none yet, or a defined index. */
  datatype InventorySlot = Undefined | Defined(slot: int)

  class Item {
    const itemType: ItemType
    const equipped: bool
    /** `getItemEffect($itemEffectType)`: the item's contribution to an effect. */
    const effect: string -> int
    var inventorySlot: InventorySlot

    constructor (itemType: ItemType, equipped: bool, effect: string -> int)
      ensures this.itemType == itemType && this.equipped == equipped && this.effect == effect
      ensures inventorySlot == Undefined
    {
      this.itemType := itemType;
      this.equipped := equipped;
      this.effect := effect;
      inventorySlot := Undefined;
    }
  }
}
