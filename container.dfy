/** Outcomes of container operations: the exceptions of the store and the
    inventory become values of these datatypes. */
module Container {

  /** The kinds of failure both containers raise. */
  datatype Failure =
    | SlotOutOfRange        // slot index >= number of slots
    | SlotIsTaken           // explicit placement on an occupied slot
    | ContainerIsFull       // no free slot when auto-placing
    | NotEnoughSpace        // a collection of 24 or more entries handed to a constructor
    | ItemNotInContainer    // take-out of an item the store does not hold
    | StoreDoesNotBuyItems  // money withdrawal from a sell-only store

  /** A lookup that can legitimately miss (PHP's null, or Doctrine's false). */
  datatype Option<+T> = None | Some(value: T)

  /** The result of an operation that returns a value or throws. */
  datatype Result<+T> = Ok(value: T) | Err(error: Failure)

  /** The result of an operation that returns nothing or throws. */
  datatype Outcome = Pass | Fail(error: Failure)

  /** A free-slot search as the containers report it: the slot found, or the
      container-full exception. */
  function SlotOrFull(slot: Option<int>): Result<int> {
    if slot.Some? then Ok(slot.value) else Err(ContainerIsFull)
  }
}
