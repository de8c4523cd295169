# waker_interrupter, modelled in Dafny

This project models the core of `waker_interrupter`, a Rust crate. The crate
provides a single-slot "latest wins" mailbox between a producer and a
long-running worker callback. The producer's `Sender` overwrites the slot,
so fast producers coalesce and nothing queues. The `Receiver`'s run loop
takes from the slot and can debounce values within a holdoff window. It
hands each value to a callback together with an interruption checker.
`Interrupter` and `MultiInterrupter` are one-way latches over a peek at the
slot, and the peek never consumes the message.

The model keeps the source's imperative shape:

- `Slots.Slot` is a class whose `pending: Option<Message<T>>` field is
  overwritten by `Put`, emptied by `Take` and peeked at by `IsSome`.
- `Slots.Sender` writes through the slot. Its ghost `consumed` flag stands for
  `terminate(self)` taking the handle by value.
- `Interrupts.Interrupter` keeps its own `latched` field.
  `Interrupts.MultiInterrupter` handles share one `MultiInterrupterInner`
  object, which holds the slot and the latch. Every clone sees that latch.
- `Receivers.Receiver.Run` is the loop of the `run_function!` macro, written
  with `while` loops over the slot. Each pass of its outer loop is `Round`.
  `Round` calls `AwaitMessage` for the inner await loop, `Holdoff` for the
  debounce loop and `Deliver` for the callback call.

Threads are replaced by a script, a sequence of steps. Each time the loop
waits, the other side performs one step:

- a wait on the condition variable;
- a holdoff sleep;
- the callback's own run.

A step is a list of events. An event is either a write through the sender or
a check by one of the callback's workers. An empty step is a wait in which
nothing is written, such as a `wake_interval` timeout or a spurious wakeup.
Once the script is used up the producer stays silent.

So the results of the loop's takes are the slot's contents at the start,
followed by the last write of each step (`Policy.Observations`). The loop's
decisions over those results are the pure function `Policy.Outcome`.
`Run` is proved against it. Its postcondition then states what the loop
does, using definitions that look at the take results in a different way:

- without holdoff, the loop delivers every value taken before `Terminate`
  (`Taken(BeforeTerminate(obs))`);
- with holdoff, it delivers exactly the values whose next take found the slot
  empty (`Settled(obs)`);
- it returns iff it takes `Terminate`.

The message variant is `Message(T)`, as in the code (src/lib.rs:12-15).
`Sender` is not `Clone`, and `terminate` consumes it. So a script has
exactly one sender, and that sender writes nothing after its `Terminate`.

## Model

| member | source | states |
|---|---|---|
| `Messages.LastWrite` | src/lib.rs:22-30 | Writes overwrite and never queue. The slot holds the message of the last write of a step, or what it held before if the step wrote nothing, so earlier sends in a burst are never seen. |
| `Messages.LastWriteNotTerminate` | src/lib.rs:22-30 | A step that writes no `Terminate` leaves `Terminate` in the slot only if it was there already. |
| `Messages.PerformableTail` | src/lib.rs:27-30 | A sender that has terminated cannot write again. Performing one event keeps the rest of a script performable, with the handle consumed after a `Terminate`. |
| `Messages.SingleTerminateInStep` | src/lib.rs:27-30 | "Nothing is written after the single `Terminate`" holds within each step of a script. |
| `Slots.Slot.constructor` | src/lib.rs:165 | A new slot holds `None`. |
| `Slots.Slot.Put` | src/lib.rs:23 | Storing a message overwrites whatever was pending. |
| `Slots.Slot.Take` | src/lib.rs:124 | `take()` returns the previous contents and leaves the slot `None`. |
| `Slots.Slot.IsSome` | src/lib.rs:37-45 | The type-erased presence check is true iff a message is pending. |
| `Slots.Sender.constructor` | src/lib.rs:166 | A sender refers to the given slot and has not terminated. |
| `Slots.Sender.Send` | src/lib.rs:22-25 | After `send(v)` the slot is `Some(Message(v))`, whatever it held before. |
| `Slots.Sender.Terminate` | src/lib.rs:27-30 | After `terminate` the slot is `Some(Terminate)`, overwriting any pending value, and the handle is consumed. |
| `Receivers.Channel` | src/lib.rs:164-169 | A fresh empty slot is shared by a new sender and a new receiver. |
| `Receivers.Receiver.constructor` | src/lib.rs:167 | A receiver refers to the given slot. |
| `Interrupts.Interrupter.constructor` | src/lib.rs:53-58 | A new checker is bound to the slot with its latch clear. |
| `Interrupts.Interrupter.Interrupted` | src/lib.rs:60-70 | The answer is true iff the latch was set or a message is pending. A true answer sets the latch. The slot is unchanged, because the check only peeks. |
| `Interrupts.MultiInterrupterInner.constructor` | src/lib.rs:73-76 | The shared inner state holds the slot and a clear latch. |
| `Interrupts.MultiInterrupter.New` | src/lib.rs:84-91 | A new handle gets a fresh inner state on the slot, with the latch clear. |
| `Interrupts.MultiInterrupter.Clone` | src/lib.rs:78-81 | A clone shares the original's inner state and gets no latch of its own. |
| `Interrupts.MultiInterrupter.Interrupted` | src/lib.rs:93-103 | The same answer as `Interrupter`, but the latch read and set is the shared one. The slot is unchanged. |
| `Interrupts.Peeks` | src/lib.rs:60-70 | The definition of the answers to a callback's checks, with the slot emptied just before the callback: a check is answered true iff some write came earlier in the callback. `Receivers.Invoke` is proved to produce exactly these answers. |
| `Interrupts.PeeksLatch` | src/lib.rs:60-70 | Every check gets exactly one answer. Within one callback the answers form a latch: after a true answer all later answers are true. A true answer means a write has happened since the callback started, and with no write every answer is false. |
| `Receivers.Perform` | src/lib.rs:22-30 | One write of the producer: `send` stores the value, and `terminate` stores `Terminate` and uses the sender up. |
| `Receivers.Produce` | src/lib.rs:22-30 | During a wait the producer's writes leave the slot holding their last write. The sender is used up iff it already was, or the step writes `Terminate`. Nothing is written after that. |
| `Receivers.Invoke` | src/lib.rs:150 | During one callback call, every check by a worker answers as `Peeks` says: true iff some write came earlier in the callback. The slot ends holding the step's last write, because checks never empty it. The sender is used up iff it was already, or the step writes `Terminate`. The latch that clones share is stated by `Interrupts.MultiInterrupter.Clone` and `Interrupts.MultiInterrupter.Interrupted`, and shown by `Scenarios.MultiInterrupterSharesLatch`. |
| `Receivers.Receiver.AwaitMessage` | src/lib.rs:119-136 | The await step takes, and after every empty take waits through exactly one step of the script. After `n` waits the unused script is the script minus its first `n` steps. The message returned is take result `n` of `Observations`, and every earlier take result was empty. It returns `None` only when the script has run out, where the loop blocks. The loop's outcome from the new state equals its outcome from the old one. |
| `Receivers.Receiver.Holdoff` | src/lib.rs:138-148 | Each holdoff sleep uses exactly one step of the script, and the take after it reads that step's last write. The loop makes `k` value takes, each replacing the held value, so `settled` is the last of them (`Policy.Held`). It then ends on the next take: `stop` iff that take is `Terminate`, and an empty take settles the held value. When the script runs out, the held value settles. The unused script is the script minus its first `k + 1` steps, or empty when it ran out (`Policy.Debounced`). |
| `Receivers.Receiver.Deliver` | src/lib.rs:150 | The callback runs while the producer performs exactly the next step of the script. The slot then holds that step's last write, or stays empty when the script has run out. The loop then carries on awaiting, with its outcome unchanged. |
| `Receivers.Receiver.Round` | src/lib.rs:118-151 | One pass of the outer loop: await, debounce when a holdoff is set, then hand the value to the callback. When the pass stops the loop, its result is the loop's whole outcome from the old state. Otherwise it delivers exactly one value, and the outcome from the new state completes the old outcome. Each pass that does not stop uses up a step or a pending message. |
| `Receivers.Receiver.Run` | src/lib.rs:109-162 | Without holdoff, every value taken before `Terminate` is delivered in take order. With holdoff, exactly the values followed by an empty take are delivered. The loop returns iff it takes `Terminate`, and it leaves the slot empty. |
| `Policy.Lasts` | src/lib.rs:122-124 | Each take after a wait finds the last write of that wait's step, because the slot was emptied by the previous take. |
| `Policy.Observations` | src/lib.rs:118-150 | The definition of the loop's take results under the scripted scheduling: the slot's contents when the loop starts, followed by `Lasts` of the script. `Receivers.Receiver.AwaitMessage` is proved to take exactly these results. |
| `Policy.BeforeTerminate` | src/lib.rs:126 | The take results up to the first `Terminate`. It is a prefix without `Terminate`, shorter than the whole iff a `Terminate` was taken, and followed by that `Terminate`. |
| `Policy.WaitedOutcome` | src/lib.rs:119-136 | Empty takes while awaiting change nothing. Resuming from the first non-empty take gives the same outcome as awaiting from the start. |
| `Policy.SkipEmptyTakes` | src/lib.rs:127-135 | An empty take while awaiting leads to another wait and take, with the loop's outcome unchanged. |
| `Policy.HoldoffReplaces` | src/lib.rs:140-143 | While debouncing, each value taken replaces the held one. After `k` value takes the loop holds the last of them. |
| `Policy.HoldoffEnds` | src/lib.rs:138-150 | How a debounce ends. A `Terminate` take makes the loop return with nothing more delivered. Otherwise the held value is delivered and the loop awaits again from the take after the debounce. |
| `Policy.DeliveriesBoundedByTakes` | src/lib.rs:118-150 | Bounds `Outcome`, the pure state machine of the loop's decisions: the callback runs at most once per take result, plus once for a value already held. |
| `Policy.TerminatedIff` | src/lib.rs:118-151 | The loop returns iff some take yields `Terminate`. Otherwise it stays blocked awaiting. |
| `Policy.NoHoldoffDeliversEveryTakenValue` | src/lib.rs:118-150 | Without holdoff the callback receives exactly the values taken before `Terminate`, in take order. |
| `Policy.HoldoffDeliversSettled` | src/lib.rs:138-150 | With holdoff the delivered values are exactly those whose next take found the slot empty, or that were held when the producer went quiet. A value superseded by another value or by `Terminate` is never delivered. |
| `Policy.NothingAfterTerminate` | src/lib.rs:126 | Takes after a `Terminate` change nothing: no callback runs once `Terminate` has been taken. |
| `Policy.ProducerTerminationEndsRun` | src/lib.rs:27-30 | A `Terminate` sent by the producer is the last write of its step. It is therefore taken, and the loop returns instead of blocking. |
| `Policy.NoTerminateWrittenNoReturn` | src/lib.rs:27-30 | The converse of `ProducerTerminationEndsRun`: the loop never returns when the slot does not start out holding `Terminate` and the producer never writes one, for example when every sender is dropped without `terminate`. |
| `Scenarios.HoldoffTrace` | tests/tests.rs:88-114 | With holdoff, sending 0, 1, 2 and then terminate delivers exactly `[1]`. |
| `Scenarios.NoHoldoffTrace` | tests/tests.rs:116-142 | Without holdoff, the same spaced-out sends deliver `[0, 1, 2]`. |
| `Scenarios.CoalescingTrace` | src/lib.rs:22-25 | Three sends before the receiver wakes deliver only the last value. |
| `Scenarios.InterrupterLatches` | src/lib.rs:60-70 | An `Interrupter` answers false on an empty slot and true once a message is pending. It stays true after the slot is emptied again. |
| `Scenarios.MultiInterrupterSharesLatch` | src/lib.rs:78-103 | Once one clone has answered true, another clone answers true even though the slot has been emptied since. |

## Left out

- Locks and the condition variable (`Mutex`, `Condvar`, `notify_one`, `wait`, `wait_for`) are left out. Each operation on the slot is one atomic step, and a blocking wait becomes one script step.
- `wake_interval` and all `Duration` values are left out. A timed-out wait is an empty step. `holdoff` is a `bool`: a configured holdoff sleep is one script step, and its length is not modelled.
- Relaxed ordering on the `AtomicBool` is left out. The shared latch is a plain field of one shared object, so cross-thread visibility delays are not modelled.
- `Arc` reference counting and lifetimes are left out.
- The `dyn OpaqueOption` type erasure is left out. The checkers are generic over the slot's value type and read `pending.Some?`.
- `static_assertions` / `assert_impl_all!` are compile-time trait checks and are left out.
- The callback's own work is left out. A callback step records only the producer's writes and the workers' checks while it runs. `Receivers.Receiver.Run` drops the answers, and `Receivers.Invoke` states them.
- `Receivers.Receiver.Run`: the receiver taken by value is not modelled, so nothing stops a second call on the same receiver.
- `Receivers.Receiver.Run`: when the script runs out while the loop is awaiting, the model returns with `terminated == false`. The source blocks forever in that case. `Policy.NoTerminateWrittenNoReturn` shows this happens whenever no `Terminate` is written, for example when every sender is dropped without `terminate`.
- The integration and multithreaded tests (tests/tests.rs:12-86) are not modelled, because they assert wall-clock timing and use a rayon fan-out. Their interruption behaviour is covered by `Receivers.Invoke` and `Interrupts.PeeksLatch`.
- A panic in the callback is not modelled. The crate's `parking_lot` mutex does not poison, so such a panic has no effect on the slot.
