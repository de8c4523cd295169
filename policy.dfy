/** The decision logic of the receive loop, stated over the sequence of
    results its takes from the slot produce. The loop takes once, then waits
    (on the condition variable, in a holdoff sleep, or while the callback
    runs), takes again, and so on: so the take results are the slot's
    contents when the loop starts, followed by the last write of each wait. */
module Policy {
  import opened Messages

  /** Where the loop is: awaiting a message, or debouncing a held value. */
  datatype Phase<T> = Awaiting | Holding(held: T)

  /** The values handed to the callback, in order, and whether the loop
      returned because it took `Terminate` (false: it is still blocked
      awaiting a message that never comes). */
  datatype RunResult<T> = RunResult(delivered: seq<T>, terminated: bool)

  ghost function Then<T>(xs: seq<T>, r: RunResult<T>): RunResult<T>
  {
    RunResult(xs + r.delivered, r.terminated)
  }

  /** The loop's response to take results `obs`, starting in `phase`. Past
      the end of `obs` the producer stays silent: every later take finds the
      slot empty, so a held value is still delivered after its holdoff while
      an awaiting loop blocks for good. */
  ghost function Outcome<T>(holdoff: bool, phase: Phase<T>, obs: seq<Option<Message<T>>>): (r: RunResult<T>)
    decreases |obs|
  {
    if |obs| == 0 then
      RunResult(if phase.Holding? then [phase.held] else [], false)
    else
      match obs[0]
      case Some(Terminate) =>
        RunResult([], true)
      case Some(Message(v)) =>
        if holdoff then Outcome(holdoff, Holding(v), obs[1..])
        else Then([v], Outcome(holdoff, Awaiting, obs[1..]))
      case None =>
        if phase.Holding? then Then([phase.held], Outcome(holdoff, Awaiting, obs[1..]))
        else Outcome(holdoff, Awaiting, obs[1..])
  }

  /** The take results when the loop starts with `p` in the slot and waits
      through the steps of `script`. */
  ghost function Observations<T>(p: Option<Message<T>>, script: seq<seq<Event<T>>>): seq<Option<Message<T>>>
  {
    [p] + Lasts(script)
  }

  /** What the slot holds after each step, each step landing on an empty slot. */
  ghost function Lasts<T>(script: seq<seq<Event<T>>>): (r: seq<Option<Message<T>>>)
    ensures |r| == |script|
    ensures forall i | 0 <= i < |script| :: r[i] == LastWrite(None, script[i])
    decreases |script|
  {
    if |script| == 0 then [] else [LastWrite(None, script[0])] + Lasts(script[1..])
  }

  /** Some take result is `Terminate`. */
  ghost predicate Terminates<T>(obs: seq<Option<Message<T>>>)
  {
    exists i | 0 <= i < |obs| :: obs[i] == Some(Terminate)
  }

  /** The take results up to, and not including, the first `Terminate`. */
  ghost function BeforeTerminate<T>(obs: seq<Option<Message<T>>>): (r: seq<Option<Message<T>>>)
    ensures |r| <= |obs| && r == obs[..|r|]
    ensures !Terminates(r)
    ensures |r| < |obs| <==> Terminates(obs)
    ensures |r| < |obs| ==> obs[|r|] == Some(Terminate)
    decreases |obs|
  {
    if |obs| == 0 then []
    else if obs[0] == Some(Terminate) then []
    else
      var r := BeforeTerminate(obs[1..]);
      assert forall i | 0 <= i < |r| :: ([obs[0]] + r)[i + 1] == obs[1..][i];
      [obs[0]] + r
  }

  /** The values among the take results, in order. */
  ghost function Taken<T>(obs: seq<Option<Message<T>>>): seq<T>
    decreases |obs|
  {
    if |obs| == 0 then []
    else
      match obs[0]
      case Some(Message(v)) => [v] + Taken(obs[1..])
      case _ => Taken(obs[1..])
  }

  /** The values that settle: a value is kept iff the take right after it
      finds the slot empty (or there is none: the producer has gone quiet);
      nothing at or after the first `Terminate` is kept. */
  ghost function Settled<T>(obs: seq<Option<Message<T>>>): seq<T>
    decreases |obs|
  {
    if |obs| == 0 then []
    else
      match obs[0]
      case Some(Terminate) => []
      case None => Settled(obs[1..])
      case Some(Message(v)) =>
        if |obs| == 1 || obs[1].None? then [v] + Settled(obs[1..]) else Settled(obs[1..])
  }

  /** The take results the loop has in hand in `phase`: a held value is the
      last value it took. */
  ghost function Resume<T>(phase: Phase<T>): seq<Option<Message<T>>>
  {
    if phase.Holding? then [Some(Message(phase.held))] else []
  }

  /** The take results after the first `n` steps are the tail of all of them. */
  lemma LastsSuffix<T>(script: seq<seq<Event<T>>>, n: nat)
    requires n <= |script|
    ensures Lasts(script[n..]) == Lasts(script)[n..]
  {
    assert forall i | 0 <= i < |script| - n :: script[n..][i] == script[n + i];
  }

  /** Awaiting through `n` empty takes of a script, then resuming from the
      take after them, ends as awaiting from the start does. */
  lemma WaitedOutcome<T>(holdoff: bool, p: Option<Message<T>>, script: seq<seq<Event<T>>>, n: nat)
    requires n <= |script|
    requires forall i | 0 <= i < n :: Observations(p, script)[i].None?
    ensures Outcome(holdoff, Awaiting, [Observations(p, script)[n]] + Lasts(script[n..]))
         == Outcome(holdoff, Awaiting, [p] + Lasts(script))
  {
    var obs := Observations(p, script);
    LastsSuffix(script, n);
    assert [obs[n]] + Lasts(script[n..]) == obs[n..];
    SkipEmptyTakes(holdoff, obs, n);
  }

  /** Empty takes while awaiting change nothing: the loop just waits again. */
  lemma {:induction false} SkipEmptyTakes<T>(holdoff: bool, obs: seq<Option<Message<T>>>, n: nat)
    requires n < |obs|
    requires forall i | 0 <= i < n :: obs[i].None?
    ensures Outcome(holdoff, Awaiting, obs[n..]) == Outcome(holdoff, Awaiting, obs)
    decreases n
  {
    if n > 0 {
      SkipEmptyTakes(holdoff, obs[1..], n - 1);
      assert obs[1..][n - 1..] == obs[n..];
    }
  }

  /** While debouncing, each value taken replaces the held one: after `k`
      value takes the loop holds the last of them. */
  lemma {:induction false} HoldoffReplaces<T>(v: T, obs: seq<Option<Message<T>>>, k: nat)
    requires k <= |obs|
    requires forall i | 0 <= i < k :: obs[i].Some? && obs[i].value.Message?
    ensures Outcome(true, Holding(v), obs)
         == Outcome(true, Holding(if k == 0 then v else obs[k - 1].value.value), obs[k..])
    decreases k
  {
    if k > 0 {
      HoldoffReplaces(obs[0].value.value, obs[1..], k - 1);
      assert obs[1..][k - 1..] == obs[k..];
      if k > 1 {
        assert obs[1..][k - 2] == obs[k - 1];
      }
    }
  }

  /** The take results of a debounce that made `k` value takes and then
      stopped (`stop`: it took `Terminate`) or settled (it took nothing, or
      the producer had gone quiet). */
  ghost predicate Debounced<T>(obs: seq<Option<Message<T>>>, k: nat, stop: bool)
  {
    && k <= |obs|
    && (forall i | 0 <= i < k :: obs[i].Some? && obs[i].value.Message?)
    && (k < |obs| ==> obs[k] == (if stop then Some(Terminate) else None))
    && (k == |obs| ==> !stop)
  }

  /** The value held after `k` value takes, starting from `v`. */
  ghost function Held<T>(v: T, obs: seq<Option<Message<T>>>, k: nat): T
  {
    if k == 0 || k > |obs| then v
    else match obs[k - 1]
      case Some(Message(x)) => x
      case _ => v
  }

  /** How a debounce ends: after `k` value takes the held value is delivered
      and the loop awaits again, or `Terminate` was taken and nothing is. */
  lemma HoldoffEnds<T>(v: T, obs: seq<Option<Message<T>>>, k: nat, stop: bool)
    requires Debounced(obs, k, stop)
    ensures stop ==> Outcome(true, Holding(v), obs) == RunResult([], true)
    ensures !stop ==> Outcome(true, Holding(v), obs)
                      == Then([Held(v, obs, k)], Outcome(true, Awaiting, obs[(if k < |obs| then k + 1 else |obs|)..]))
  {
    HoldoffReplaces(v, obs, k);
    if k < |obs| {
      assert obs[k..][1..] == obs[k + 1..];
    }
  }

  /** Every delivery consumes a take: the callback runs at most once per
      take result, plus once for a value already held. */
  lemma {:induction false} DeliveriesBoundedByTakes<T>(holdoff: bool, phase: Phase<T>, obs: seq<Option<Message<T>>>)
    ensures |Outcome(holdoff, phase, obs).delivered| <= |obs| + (if phase.Holding? then 1 else 0)
    decreases |obs|
  {
    if |obs| > 0 && obs[0] != Some(Terminate) {
      var next := if obs[0].Some? && holdoff then Holding(obs[0].value.value) else Awaiting;
      DeliveriesBoundedByTakes(holdoff, next, obs[1..]);
    }
  }

  /** The loop returns iff it takes `Terminate`. */
  lemma {:induction false} TerminatedIff<T>(holdoff: bool, phase: Phase<T>, obs: seq<Option<Message<T>>>)
    ensures Outcome(holdoff, phase, obs).terminated <==> Terminates(obs)
    decreases |obs|
  {
    if |obs| > 0 {
      if obs[0] != Some(Terminate) {
        var next := if obs[0].Some? && holdoff then Holding(obs[0].value.value) else Awaiting;
        TerminatedIff(holdoff, next, obs[1..]);
        if Terminates(obs) {
          var i :| 0 <= i < |obs| && obs[i] == Some(Terminate);
          assert obs[1..][i - 1] == obs[i];
        }
        if Terminates(obs[1..]) {
          var i :| 0 <= i < |obs[1..]| && obs[1..][i] == Some(Terminate);
          assert obs[i + 1] == obs[1..][i];
        }
      }
    }
  }

  /** Without holdoff every value taken before `Terminate` reaches the
      callback, in take order: nothing is dropped after it was taken. */
  lemma {:induction false} NoHoldoffDeliversEveryTakenValue<T>(obs: seq<Option<Message<T>>>)
    ensures Outcome(false, Awaiting, obs).delivered == Taken(BeforeTerminate(obs))
    decreases |obs|
  {
    if |obs| > 0 && obs[0] != Some(Terminate) {
      NoHoldoffDeliversEveryTakenValue(obs[1..]);
      assert ([obs[0]] + BeforeTerminate(obs[1..]))[1..] == BeforeTerminate(obs[1..]);
    }
  }

  /** With holdoff the loop debounces: what it delivers is exactly the
      values that settle, continuing from the value it already holds. */
  lemma {:induction false} HoldoffDeliversSettled<T>(phase: Phase<T>, obs: seq<Option<Message<T>>>)
    ensures Outcome(true, phase, obs).delivered == Settled(Resume(phase) + obs)
    decreases |obs|
  {
    var all := Resume(phase) + obs;
    if |obs| == 0 {
      assert all == Resume(phase);
      if phase.Holding? {
        assert all[1..] == [];
      }
    } else {
      match obs[0]
      case Some(Terminate) =>
        if phase.Holding? {
          assert all[1..] == obs;
        }
      case Some(Message(v)) =>
        HoldoffDeliversSettled(Holding(v), obs[1..]);
        assert Resume(Holding(v)) + obs[1..] == obs;
        assert Outcome(true, phase, obs) == Outcome(true, Holding(v), obs[1..]);
        if phase.Holding? {
          assert all[1] == obs[0] && all[1..] == obs;
          assert Settled(all) == Settled(obs);
        } else {
          assert all == obs;
        }
      case None =>
        HoldoffDeliversSettled(Awaiting, obs[1..]);
        assert Resume(Awaiting) + obs[1..] == obs[1..];
        assert Settled(obs) == Settled(obs[1..]);
        if phase.Holding? {
          assert all[1] == obs[0] && all[1..] == obs;
          assert Settled(all) == [phase.held] + Settled(obs);
          assert Outcome(true, phase, obs).delivered == [phase.held] + Outcome(true, Awaiting, obs[1..]).delivered;
        } else {
          assert all == obs;
          assert Outcome(true, phase, obs) == Outcome(true, Awaiting, obs[1..]);
        }
    }
  }

  /** Takes after `Terminate` have no effect: no value written after the
      termination is observed is ever delivered. */
  lemma {:induction false} NothingAfterTerminate<T>(holdoff: bool, phase: Phase<T>, obs: seq<Option<Message<T>>>, k: nat)
    requires k < |obs| && obs[k] == Some(Terminate)
    ensures Outcome(holdoff, phase, obs) == Outcome(holdoff, phase, obs[..k + 1])
    ensures Outcome(holdoff, phase, obs).terminated
    decreases k
  {
    if obs[0] != Some(Terminate) {
      var next := if obs[0].Some? && holdoff then Holding(obs[0].value.value) else Awaiting;
      NothingAfterTerminate(holdoff, next, obs[1..], k - 1);
      assert obs[..k + 1][1..] == obs[1..][..k];
    }
  }

  /** A `Terminate` written by the sender is taken by the loop: the sender
      writes nothing after it, so it is the last write of its step. The loop
      then returns instead of blocking. */
  lemma ProducerTerminationEndsRun<T>(holdoff: bool, p: Option<Message<T>>, script: seq<seq<Event<T>>>, k: nat, i: nat)
    requires k < |script| && i < |script[k]| && script[k][i] == Write(Terminate)
    requires SingleTerminate(Flatten(script))
    ensures Observations(p, script)[k + 1] == Some(Terminate)
    ensures Outcome(holdoff, Awaiting, Observations(p, script)).terminated
  {
    SingleTerminateInStep(script, k);
    var step := script[k];
    var later := step[i + 1..];
    assert NoWrites(later) by {
      forall j | 0 <= j < |later| ensures later[j].Check? {
        assert later[j] == step[i + 1 + j];
      }
    }
    NothingAfterTerminate(holdoff, Awaiting, Observations(p, script), k + 1);
  }

  /** The converse: when the slot does not start out holding `Terminate` and
      the producer never writes one (every sender dropped without
      `terminate`), the loop never returns. */
  lemma NoTerminateWrittenNoReturn<T>(holdoff: bool, p: Option<Message<T>>, script: seq<seq<Event<T>>>)
    requires p != Some(Terminate)
    requires forall k, e | 0 <= k < |script| && e in script[k] :: e != Write(Terminate)
    ensures !Outcome(holdoff, Awaiting, Observations(p, script)).terminated
  {
    var obs := Observations(p, script);
    forall i | 0 <= i < |obs| ensures obs[i] != Some(Terminate) {
      if i > 0 {
        LastWriteNotTerminate(None, script[i - 1]);
      }
    }
    TerminatedIff(holdoff, Awaiting, obs);
  }
}
