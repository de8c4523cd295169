/** Cooperative cancellation checks handed to the callback. Each is a one-way
    latch over a presence check of the slot that never consumes the slot. */
module Interrupts {
  import opened Messages
  import opened Slots

  /** The single-threaded checker, created fresh for each callback invocation. */
  class Interrupter<T> {
    const slot: Slot<T>
    var latched: bool

    constructor (slot: Slot<T>)
      ensures this.slot == slot
      ensures !latched
    {
      this.slot := slot;
      latched := false;
    }

    /** True iff the latch is already set or a message is pending now; a true
        answer sets the latch, so every later answer is true as well. */
    method Interrupted() returns (r: bool)
      modifies this
      ensures r <==> old(latched) || slot.pending.Some?
      ensures latched == r
      ensures unchanged(slot)
    {
      if latched {
        r := true;
      } else {
        var present := slot.IsSome();
        if present {
          latched := true;
          r := true;
        } else {
          r := false;
        }
      }
    }
  }

  /** The state every clone of one `MultiInterrupter` shares: the slot and
      the latch. */
  class MultiInterrupterInner<T> {
    const slot: Slot<T>
    var latched: bool

    constructor (slot: Slot<T>)
      ensures this.slot == slot
      ensures !latched
    {
      this.slot := slot;
      latched := false;
    }
  }

  /** The checker for callbacks that fan work out to several workers; each
      worker polls its own clone. */
  class MultiInterrupter<T> {
    const inner: MultiInterrupterInner<T>

    constructor New(slot: Slot<T>)
      ensures fresh(inner)
      ensures inner.slot == slot
      ensures !inner.latched
    {
      inner := new MultiInterrupterInner(slot);
    }

    /** A clone is another handle on the same inner state, not a new latch. */
    constructor Clone(other: MultiInterrupter<T>)
      ensures inner == other.inner
    {
      inner := other.inner;
    }

    /** The same answer as `Interrupter.Interrupted`, but the latch it reads
        and sets is the shared one. */
    method Interrupted() returns (r: bool)
      modifies inner
      ensures r <==> old(inner.latched) || inner.slot.pending.Some?
      ensures inner.latched == r
      ensures unchanged(inner.slot)
    {
      if inner.latched {
        r := true;
      } else {
        var present := inner.slot.IsSome();
        if present {
          inner.latched := true;
          r := true;
        } else {
          r := false;
        }
      }
    }
  }

  /** The answers the checks of a callback get, in order, when the slot was
      emptied just before the callback started: a check is answered true iff
      some write happened earlier in the callback. */
  ghost function Peeks<T>(es: seq<Event<T>>): seq<bool>
    decreases |es|
  {
    if |es| == 0 then []
    else
      var init := es[..|es| - 1];
      Peeks(init) + (if es[|es| - 1].Check? then [!NoWrites(init)] else [])
  }

  /** What event `i` of a callback adds to its answers and to the slot. */
  lemma PeekStep<T>(step: seq<Event<T>>, i: nat)
    requires i < |step|
    ensures Peeks(step[..i + 1]) == Peeks(step[..i]) + (if step[i].Check? then [!NoWrites(step[..i])] else [])
    ensures !NoWrites(step[..i]) ==> !NoWrites(step[..i + 1])
  {
    var done := step[..i];
    assert step[..i + 1][..i] == done;
    if !NoWrites(done) {
      var j :| 0 <= j < |done| && !done[j].Check?;
      assert step[..i + 1][j] == done[j];
    }
  }

  /** The answers of one callback form a latch: once a check is answered
      true, every later check is too, and a true answer means the callback has
      been superseded by a write. */
  lemma {:induction false} PeeksLatch<T>(es: seq<Event<T>>)
    ensures |Peeks(es)| == CheckCount(es)
    ensures forall i, j | 0 <= i <= j < |Peeks(es)| && Peeks(es)[i] :: Peeks(es)[j]
    ensures forall i | 0 <= i < |Peeks(es)| && Peeks(es)[i] :: !NoWrites(es)
    ensures NoWrites(es) ==> forall i | 0 <= i < |Peeks(es)| :: !Peeks(es)[i]
    decreases |es|
  {
    if |es| > 0 {
      var init := es[..|es| - 1];
      PeeksLatch(init);
      assert forall k | 0 <= k < |init| :: init[k] == es[k];
    }
  }
}
