/** The shared slot and the sending handle. The lock and the condition
    variable around the slot only serialise these operations; in this
    sequential model each operation is one atomic step. */
module Slots {
  import opened Messages

  /** The `Option<Message<T>>` behind the mutex: at most one pending message. */
  class Slot<T> {
    var pending: Option<Message<T>>

    /** A fresh slot is empty. */
    constructor ()
      ensures pending == None
    {
      pending := None;
    }

    /** Store `m`, overwriting whatever was pending. */
    method Put(m: Message<T>)
      modifies this
      ensures pending == Some(m)
    {
      pending := Some(m);
    }

    /** `Option::take`: hand out the pending message and leave the slot empty. */
    method Take() returns (r: Option<Message<T>>)
      modifies this
      ensures r == old(pending)
      ensures pending == None
    {
      r := pending;
      pending := None;
    }

    /** The type-erased presence check used by the interrupters: a peek that
        leaves the slot as it is. */
    method IsSome() returns (b: bool)
      ensures b <==> pending.Some?
    {
      b := pending.Some?;
    }
  }

  /** The producer's handle. `consumed` records that `terminate`, which takes
      the handle by value, has been called on it. */
  class Sender<T> {
    const slot: Slot<T>
    ghost var consumed: bool

    constructor (slot: Slot<T>)
      ensures this.slot == slot
      ensures !consumed
    {
      this.slot := slot;
      consumed := false;
    }

    /** Overwrite the slot with a value; a pending value or a pending
        `Terminate` is lost. */
    method Send(v: T)
      requires !consumed
      modifies slot
      ensures slot.pending == Some(Message(v))
    {
      slot.Put(Message(v));
    }

    /** Overwrite the slot with `Terminate` and give up the handle. */
    method Terminate()
      requires !consumed
      modifies this, slot
      ensures slot.pending == Some(Message.Terminate)
      ensures consumed
    {
      slot.Put(Message.Terminate);
      consumed := true;
    }
  }
}
