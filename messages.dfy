/** The values that travel through the single-slot mailbox, and the events
    that a producer and a running callback perform between two takes. */
module Messages {

  datatype Option<T> = None | Some(value: T)

  /** What the slot can hold: a value for the callback, or the order to stop. */
  datatype Message<T> = Message(value: T) | Terminate

  /** One thing that happens while the receiver is not taking from the slot:
      the producer writes a message through its sender, or worker number
      `worker` of the running callback asks its interruption checker. */
  datatype Event<T> = Write(msg: Message<T>) | Check(worker: nat)

  /** No event of `es` writes to the slot. */
  ghost predicate NoWrites<T>(es: seq<Event<T>>)
  {
    forall i | 0 <= i < |es| :: es[i].Check?
  }

  /** The slot contents after the writes of `es` land on a slot holding `p`:
      writes overwrite, nothing queues, so the last write wins. */
  ghost function LastWrite<T>(p: Option<Message<T>>, es: seq<Event<T>>): (r: Option<Message<T>>)
    ensures NoWrites(es) ==> r == p
    ensures forall i | 0 <= i < |es| && es[i].Write? && NoWrites(es[i + 1..]) :: r == Some(es[i].msg)
    ensures !NoWrites(es) ==> r.Some?
    decreases |es|
  {
    if |es| == 0 then p
    else
      var init := es[..|es| - 1];
      match es[|es| - 1]
      case Write(m) => Some(m)
      case Check(_) =>
        assert forall i | 0 <= i < |init| :: init[i] == es[i];
        LastWrite(p, init)
  }

  /** A step that writes no `Terminate` cannot leave one in the slot unless
      it was already there. */
  lemma {:induction false} LastWriteNotTerminate<T>(p: Option<Message<T>>, es: seq<Event<T>>)
    requires p != Some(Terminate)
    requires forall e | e in es :: e != Write(Terminate)
    ensures LastWrite(p, es) != Some(Terminate)
    decreases |es|
  {
    if |es| > 0 {
      var last := es[|es| - 1];
      assert last in es;
      if last.Check? {
        var init := es[..|es| - 1];
        assert forall e | e in init :: e in es;
        LastWriteNotTerminate(p, init);
      }
    }
  }

  /** How many events of `es` are checks. */
  ghost function CheckCount<T>(es: seq<Event<T>>): nat
    decreases |es|
  {
    if |es| == 0 then 0
    else CheckCount(es[..|es| - 1]) + (if es[|es| - 1].Check? then 1 else 0)
  }

  /** The sender is single-use for termination: no write follows the
      `Terminate` write (the source's `terminate` takes the sender by value,
      and the sender cannot be cloned). */
  ghost predicate SingleTerminate<T>(es: seq<Event<T>>)
  {
    forall i, j | 0 <= i < j < |es| && es[i] == Write(Terminate) :: es[j].Check?
  }

  /** A sender whose handle is `consumed` or not can perform the writes of `es`. */
  ghost predicate Performable<T>(consumed: bool, es: seq<Event<T>>)
  {
    SingleTerminate(es) && (consumed ==> NoWrites(es))
  }

  /** Performing the first event of `es` leaves the rest performable. */
  lemma PerformableTail<T>(consumed: bool, es: seq<Event<T>>)
    requires Performable(consumed, es) && |es| > 0
    ensures es[0].Write? ==> !consumed
    ensures Performable(consumed || es[0] == Write(Terminate), es[1..])
  {
  }

  /** What performing event `i` of a step adds to the events performed so far. */
  lemma ExtendStep<T>(p: Option<Message<T>>, step: seq<Event<T>>, i: nat, more: seq<Event<T>>)
    requires i < |step|
    ensures (step[i..] + more)[1..] == step[i + 1..] + more
    ensures (Write(Terminate) in step[..i + 1]) == (Write(Terminate) in step[..i] || step[i] == Write(Terminate))
    ensures LastWrite(p, step[..i + 1]) == (if step[i].Write? then Some(step[i].msg) else LastWrite(p, step[..i]))
  {
    assert step[..i + 1] == step[..i] + [step[i]];
    assert step[..i + 1][..i] == step[..i];
  }

  /** All events of a script, step after step. */
  ghost function Flatten<T>(script: seq<seq<Event<T>>>): seq<Event<T>>
    decreases |script|
  {
    if |script| == 0 then [] else script[0] + Flatten(script[1..])
  }

  /** The sender's single termination holds within every step of a script. */
  lemma {:induction false} SingleTerminateInStep<T>(script: seq<seq<Event<T>>>, k: nat)
    requires k < |script| && SingleTerminate(Flatten(script))
    ensures SingleTerminate(script[k])
    decreases k
  {
    var a, b := script[0], Flatten(script[1..]);
    assert Flatten(script) == a + b;
    if k == 0 {
      forall i, j | 0 <= i < j < |a| && a[i] == Write(Terminate) ensures a[j].Check? {
        assert (a + b)[i] == a[i] && (a + b)[j] == a[j];
      }
    } else {
      forall i, j | 0 <= i < j < |b| && b[i] == Write(Terminate) ensures b[j].Check? {
        assert (a + b)[|a| + i] == b[i] && (a + b)[|a| + j] == b[j];
      }
      SingleTerminateInStep(script[1..], k - 1);
    }
  }
}
