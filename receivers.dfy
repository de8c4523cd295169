/** The receiving side: the channel constructor and the receive loop shared
    by `run` and `run_multithreaded`.

    Scheduling is replaced by a script. Every wait of the loop (on the
    condition variable while the slot is empty, a holdoff sleep, or the
    callback's own run) lets the other side perform one step of the script:
    the producer's writes through its sender and, during a callback, the
    callback's interruption checks. An empty step is a wait in which nothing
    was written (a `wake_interval` timeout, a spurious wakeup, a quiet
    holdoff window). When the script is used up the producer stays silent. */
module Receivers {
  import opened Messages
  import opened Slots
  import opened Interrupts
  import opened Policy

  /** Which checker the callback gets: `run` hands it an `Interrupter`,
      `run_multithreaded` a `MultiInterrupter`. */
  datatype Flavour = Single | Multi

  /** `channel`: one fresh, empty slot shared by a new sender and a new receiver. */
  method Channel<T>() returns (tx: Sender<T>, rx: Receiver<T>)
    ensures fresh(tx) && fresh(rx) && fresh(tx.slot)
    ensures tx.slot == rx.slot
    ensures tx.slot.pending == None
    ensures !tx.consumed
  {
    var slot := new Slot();
    tx := new Sender(slot);
    rx := new Receiver(slot);
  }

  /** The producer writes `m` through its sender: `send` for a value,
      `terminate` for the order to stop, which uses the sender up. */
  method Perform<T>(tx: Sender<T>, m: Message<T>)
    requires !tx.consumed
    modifies tx, tx.slot
    ensures tx.slot.pending == Some(m)
    ensures tx.consumed == (m == Terminate)
  {
    if m.Terminate? {
      tx.Terminate();
    } else {
      tx.Send(m.value);
    }
  }

  /** The producer performs the writes of `step` while the receiver waits;
      checks have no checker to ask outside a callback and are skipped. */
  method Produce<T>(tx: Sender<T>, step: seq<Event<T>>, ghost more: seq<Event<T>>)
    requires Performable(tx.consumed, step + more)
    modifies tx, tx.slot
    ensures tx.slot.pending == LastWrite(old(tx.slot.pending), step)
    ensures tx.consumed == (old(tx.consumed) || Write(Terminate) in step)
    ensures Performable(tx.consumed, more)
  {
    var i := 0;
    while i < |step|
      invariant 0 <= i <= |step|
      invariant tx.slot.pending == LastWrite(old(tx.slot.pending), step[..i])
      invariant tx.consumed == (old(tx.consumed) || Write(Terminate) in step[..i])
      invariant Performable(tx.consumed, step[i..] + more)
    {
      ExtendStep(old(tx.slot.pending), step, i, more);
      PerformableTail(tx.consumed, step[i..] + more);
      var e := step[i];
      if e.Write? {
        Perform(tx, e.msg);
      }
      i := i + 1;
    }
    assert step[..i] == step && step[i..] + more == more;
  }

  /** One callback invocation `f(val, checker)`: a checker of the chosen
      flavour is created on the slot, the producer performs the writes of
      `step`, and the callback's workers ask their checkers. Each check is
      answered true iff the callback has been superseded by a write, and the
      checks never consume the slot. */
  method Invoke<T>(tx: Sender<T>, flavour: Flavour, step: seq<Event<T>>, ghost more: seq<Event<T>>)
    returns (answers: seq<bool>)
    requires tx.slot.pending == None
    requires Performable(tx.consumed, step + more)
    modifies tx, tx.slot
    ensures tx.slot.pending == LastWrite(None, step)
    ensures tx.consumed == (old(tx.consumed) || Write(Terminate) in step)
    ensures Performable(tx.consumed, more)
    ensures answers == Peeks(step)
  {
    var slot := tx.slot;
    var single: Interrupter?<T> := null;
    var shared: MultiInterrupter?<T> := null;
    if flavour.Single? {
      single := new Interrupter(slot);
    } else {
      shared := new MultiInterrupter.New(slot);
    }
    // the handle each worker of the callback polls: a clone of `shared`
    var clones: map<nat, MultiInterrupter<T>> := map[];
    answers := [];
    var i := 0;
    while i < |step|
      invariant 0 <= i <= |step|
      invariant slot.pending == LastWrite(None, step[..i])
      invariant tx.consumed == (old(tx.consumed) || Write(Terminate) in step[..i])
      invariant Performable(tx.consumed, step[i..] + more)
      invariant answers == Peeks(step[..i])
      invariant flavour.Single? ==> single != null && fresh(single) && single.slot == slot
      invariant flavour.Single? && single != null && single.latched ==> !NoWrites(step[..i])
      invariant flavour.Multi? ==> shared != null && fresh(shared.inner) && shared.inner.slot == slot
      invariant flavour.Multi? && shared != null && shared.inner.latched ==> !NoWrites(step[..i])
      invariant flavour.Multi? && shared != null ==> forall w | w in clones :: clones[w].inner == shared.inner
    {
      ExtendStep(None, step, i, more);
      PeekStep(step, i);
      PerformableTail(tx.consumed, step[i..] + more);
      var e := step[i];
      if e.Write? {
        Perform(tx, e.msg);
      } else {
        var r: bool;
        if flavour.Single? {
          r := single.Interrupted();
        } else {
          if e.worker !in clones {
            var c := new MultiInterrupter.Clone(shared);
            clones := clones[e.worker := c];
          }
          r := clones[e.worker].Interrupted();
        }
        answers := answers + [r];
      }
      i := i + 1;
    }
    assert step[..i] == step && step[i..] + more == more;
  }

  class Receiver<T> {
    const slot: Slot<T>

    constructor (slot: Slot<T>)
      ensures this.slot == slot
    {
      this.slot := slot;
    }

    /** The await step: take; while the slot was empty, wait for the
        producer's next step and take again. Returns the message taken, or
        None when the script ran out while waiting (the loop blocks there).
        What the loop goes on to do is unchanged by the waiting. */
    method AwaitMessage(tx: Sender<T>, holdoff: bool, script: seq<seq<Event<T>>>)
      returns (m: Option<Message<T>>, rest: seq<seq<Event<T>>>, ghost n: nat)
      requires tx.slot == slot
      requires Performable(tx.consumed, Flatten(script))
      modifies slot, tx
      ensures slot.pending == None
      ensures Performable(tx.consumed, Flatten(rest))
      ensures n <= |script| && rest == script[n..]
      ensures m == Observations(old(slot.pending), script)[n]
      ensures forall i | 0 <= i < n :: Observations(old(slot.pending), script)[i].None?
      ensures m.None? ==> rest == []
      ensures |rest| < |script| || (rest == script && m == old(slot.pending))
      ensures Outcome(holdoff, Awaiting, [m] + Lasts(rest))
           == Outcome(holdoff, Awaiting, [old(slot.pending)] + Lasts(script))
    {
      ghost var obs := Observations(slot.pending, script);
      rest, n := script, 0;
      m := slot.Take();
      while m.None? && |rest| > 0
        invariant n <= |script| && rest == script[n..]
        invariant m == obs[n]
        invariant forall i | 0 <= i < n :: obs[i].None?
        invariant slot.pending == None
        invariant Performable(tx.consumed, Flatten(rest))
        decreases |rest|
      {
        assert obs[n + 1] == LastWrite(None, script[n]);
        Produce(tx, rest[0], Flatten(rest[1..]));
        rest, n := rest[1..], n + 1;
        m := slot.Take();
      }
      WaitedOutcome(holdoff, old(slot.pending), script, n);
    }

    /** The holdoff step, entered holding `val` just after a take: sleep (the
        producer performs its next step), then take. A value replaces the
        held one and the step repeats; `Terminate` stops the loop and the
        held value is dropped; an empty slot ends the debounce with the held
        value to deliver. Each sleep uses exactly one step of the script:
        `k` counts the value takes, and the take that ends the debounce
        (when the script has not run out) uses one step more. */
    method Holdoff(tx: Sender<T>, val: T, script: seq<seq<Event<T>>>)
      returns (stop: bool, settled: T, rest: seq<seq<Event<T>>>, ghost k: nat)
      requires tx.slot == slot && slot.pending == None
      requires Performable(tx.consumed, Flatten(script))
      modifies slot, tx
      ensures slot.pending == None
      ensures Performable(tx.consumed, Flatten(rest))
      ensures Debounced(Lasts(script), k, stop)
      ensures rest == script[(if k < |script| then k + 1 else |script|)..]
      ensures settled == Held(val, Lasts(script), k)
    {
      ghost var takes := Lasts(script);
      settled, rest, k := val, script, 0;
      while true
        invariant k <= |script| && rest == script[k..]
        invariant forall i | 0 <= i < k :: takes[i].Some? && takes[i].value.Message?
        invariant settled == Held(val, takes, k)
        invariant slot.pending == None
        invariant Performable(tx.consumed, Flatten(rest))
        decreases |rest|
      {
        if |rest| > 0 {
          assert takes[k] == LastWrite(None, script[k]);
          Produce(tx, rest[0], Flatten(rest[1..]));
          rest := rest[1..];
        }
        var next := slot.Take();
        if next.None? || next.value.Terminate? {
          stop := next.Some?;
          return;
        }
        settled, k := next.value.value, k + 1;
      }
    }

    /** The callback runs on a delivered value while the producer performs
        the next step of the script (none once it is used up); the loop then
        carries on awaiting. */
    method Deliver(tx: Sender<T>, flavour: Flavour, holdoff: bool, script: seq<seq<Event<T>>>)
      returns (rest: seq<seq<Event<T>>>)
      requires tx.slot == slot && slot.pending == None
      requires Performable(tx.consumed, Flatten(script))
      modifies slot, tx
      ensures Performable(tx.consumed, Flatten(rest))
      ensures |script| > 0 ==> rest == script[1..] && slot.pending == LastWrite(None, script[0])
      ensures |script| == 0 ==> rest == [] && slot.pending == None
      ensures Outcome(holdoff, Awaiting, [slot.pending] + Lasts(rest)) == Outcome(holdoff, Awaiting, Lasts(script))
    {
      if |script| > 0 {
        var _ := Invoke(tx, flavour, script[0], Flatten(script[1..]));
        rest := script[1..];
      } else {
        var _ := Invoke(tx, flavour, [], []);
        rest := [];
      }
    }

    /** One pass of the outer loop: await a message, debounce it when a
        holdoff is configured, and hand it to the callback. `stop` says the
        loop returns (on `Terminate`) or blocks for good (the script ran out
        while awaiting); otherwise `out` is the one value delivered and the
        loop's outcome carries on from the new state. */
    method Round(tx: Sender<T>, flavour: Flavour, holdoff: bool, script: seq<seq<Event<T>>>)
      returns (stop: bool, terminated: bool, out: seq<T>, rest: seq<seq<Event<T>>>)
      requires tx.slot == slot
      requires Performable(tx.consumed, Flatten(script))
      modifies slot, tx
      ensures Performable(tx.consumed, Flatten(rest))
      ensures stop ==> slot.pending == None
      ensures stop ==> RunResult(out, terminated) == Outcome(holdoff, Awaiting, [old(slot.pending)] + Lasts(script))
      ensures !stop ==> !terminated && |out| == 1
      ensures !stop ==> Then(out, Outcome(holdoff, Awaiting, [slot.pending] + Lasts(rest)))
                        == Outcome(holdoff, Awaiting, [old(slot.pending)] + Lasts(script))
      ensures !stop ==> |rest| < |script| || (rest == script == [] && slot.pending == None && old(slot.pending).Some?)
    {
      var m;
      ghost var waits;
      m, rest, waits := AwaitMessage(tx, holdoff, script);
      out, terminated := [], false;
      if m.None? {
        // the script ran out while the slot was empty: the loop blocks here
        assert [m] + Lasts(rest) == [None];
        assert Outcome(holdoff, Awaiting, [m] + Lasts(rest)) == RunResult([], false);
        stop := true;
      } else if m.value.Terminate? {
        stop, terminated := true, true;
      } else {
        var val := m.value.value;
        stop := false;
        if holdoff {
          ghost var rest0, valueTakes := rest, 0;
          stop, val, rest, valueTakes := Holdoff(tx, val, rest);
          HoldoffEnds(m.value.value, Lasts(rest0), valueTakes, stop);
          LastsSuffix(rest0, if valueTakes < |rest0| then valueTakes + 1 else |rest0|);
        }
        if stop {
          terminated := true;
        } else {
          out := [val];
          rest := Deliver(tx, flavour, holdoff, rest);
        }
      }
    }

    /** The receive loop (`run` / `run_multithreaded`) while the producer
        performs `script` through `tx`. Returns the values handed to the
        callback, in order, and whether the loop returned on `Terminate`
        (false: it ran out of script while awaiting, where it blocks).
        Without holdoff every value taken before `Terminate` is delivered;
        with holdoff exactly the values whose next take found the slot empty;
        the loop returns iff it takes `Terminate`. */
    method Run(tx: Sender<T>, flavour: Flavour, holdoff: bool, script: seq<seq<Event<T>>>)
      returns (delivered: seq<T>, terminated: bool)
      requires tx.slot == slot
      requires Performable(tx.consumed, Flatten(script))
      modifies slot, tx
      ensures var obs := Observations(old(slot.pending), script);
        && (!holdoff ==> delivered == Taken(BeforeTerminate(obs)))
        && (holdoff ==> delivered == Settled(obs))
        && (terminated <==> Terminates(obs))
      ensures slot.pending == None
    {
      ghost var obs := Observations(slot.pending, script);
      ghost var total := Outcome(holdoff, Awaiting, obs);
      var rest := script;
      delivered, terminated := [], false;
      var done := false;
      while !done
        invariant Performable(tx.consumed, Flatten(rest))
        invariant !done ==> !terminated
        invariant !done ==> Then(delivered, Outcome(holdoff, Awaiting, [slot.pending] + Lasts(rest))) == total
        invariant done ==> RunResult(delivered, terminated) == total && slot.pending == None
        decreases !done, |rest|, if slot.pending.None? then 0 else 1
      {
        ghost var before := Outcome(holdoff, Awaiting, [slot.pending] + Lasts(rest));
        var out;
        done, terminated, out, rest := Round(tx, flavour, holdoff, rest);
        ghost var after := Outcome(holdoff, Awaiting, [slot.pending] + Lasts(rest));
        if !done {
          assert Then(out, after) == before;
          assert Then(delivered + out, after) == Then(delivered, before);
        } else {
          assert RunResult(out, terminated) == before;
          assert RunResult(delivered + out, terminated) == Then(delivered, before);
        }
        delivered := delivered + out;
      }
      TerminatedIff(holdoff, Awaiting, obs);
      if holdoff {
        HoldoffDeliversSettled(Awaiting, obs);
        assert Resume(Awaiting) + obs == obs;
      } else {
        NoHoldoffDeliversEveryTakenValue(obs);
      }
    }
  }
}
