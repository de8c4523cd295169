/** Concrete runs: the delivered sequences the repository's tests expect,
    with the producer's timing written as script steps, and the latch
    behaviour of both checkers. */
module Scenarios {
  import opened Messages
  import opened Slots
  import opened Interrupts
  import opened Policy
  import opened Receivers

  /** The holdoff test's producer, against a 100 ms holdoff: 0 at t=0, 1 at
      t=50, 2 at t=250, terminate at t=300. */
  function HoldoffScript(): seq<seq<Event<int>>>
  {
    [ [Write(Message(0))],   // awaiting: 0 is sent
      [Write(Message(1))],   // first holdoff sleep: 1 replaces 0
      [],                    // second holdoff sleep: quiet, so 1 settles
      [],                    // the callback runs on 1
      [Write(Message(2))],   // awaiting: 2 is sent
      [Write(Terminate)] ]   // holdoff sleep: terminate overwrites 2
  }

  /** The no-holdoff test's producer: the same sends, each taken and handed
      to the callback before the next arrives. */
  function NoHoldoffScript(): seq<seq<Event<int>>>
  {
    [ [Write(Message(0))],   // awaiting: 0 is sent
      [],                    // the callback runs on 0
      [Write(Message(1))],   // awaiting: 1 is sent
      [],                    // the callback runs on 1
      [Write(Message(2))],   // awaiting: 2 is sent
      [],                    // the callback runs on 2
      [Write(Terminate)] ]   // awaiting: terminate
  }

  /** Three sends land before the receiver takes. */
  function BurstScript(): seq<seq<Event<int>>>
  {
    [ [Write(Message(1)), Write(Message(2)), Write(Message(3))],
      [],
      [Write(Terminate)] ]
  }

  lemma ScriptsPerformable()
    ensures Performable(false, Flatten(HoldoffScript()))
    ensures Performable(false, Flatten(NoHoldoffScript()))
    ensures Performable(false, Flatten(BurstScript()))
  {
  }

  lemma HoldoffScriptSettles()
    ensures Settled(Observations(None, HoldoffScript())) == [1]
    ensures Terminates(Observations(None, HoldoffScript()))
  {
    var obs: seq<Option<Message<int>>> := [None, Some(Message(0)), Some(Message(1)), None, None, Some(Message(2)), Some(Terminate)];
    assert Observations(None, HoldoffScript()) == obs;
    assert obs[6] == Some(Terminate);
    assert Settled(obs[5..]) == [];
    assert Settled(obs[3..]) == [];
    assert Settled(obs[1..]) == [1];
  }

  lemma NoHoldoffScriptObservations()
    ensures Observations(None, NoHoldoffScript())
         == [None, Some(Message(0)), None, Some(Message(1)), None, Some(Message(2)), None, Some(Terminate)]
  {
  }

  /** What the no-holdoff receiver takes from its script, and the values among
      those takes that precede the `Terminate`. */
  lemma NoHoldoffTakes(obs: seq<Option<Message<int>>>)
    requires obs == [None, Some(Message(0)), None, Some(Message(1)), None, Some(Message(2)), None, Some(Terminate)]
    ensures Taken(BeforeTerminate(obs)) == [0, 1, 2]
    ensures Terminates(obs)
  {
    assert obs[7] == Some(Terminate);
    var before := obs[..7];
    assert |BeforeTerminate(obs)| == 7;
    assert BeforeTerminate(obs) == before;
    // `before`, built back to front, one take at a time
    var t6: seq<Option<Message<int>>> := [None];
    var t5 := [Some(Message(2))] + t6;
    var t4 := [None] + t5;
    var t3 := [Some(Message(1))] + t4;
    var t2 := [None] + t3;
    var t1 := [Some(Message(0))] + t2;
    assert before == [None] + t1;
    assert t5[1..] == t6 && Taken(t5) == [2];
    assert t4[1..] == t5 && t3[1..] == t4 && Taken(t3) == [1, 2];
    assert t2[1..] == t3 && t1[1..] == t2 && Taken(t1) == [0, 1, 2];
    assert ([None] + t1)[1..] == t1;
  }

  lemma NoHoldoffScriptPasses()
    ensures Taken(BeforeTerminate(Observations(None, NoHoldoffScript()))) == [0, 1, 2]
    ensures Terminates(Observations(None, NoHoldoffScript()))
  {
    NoHoldoffScriptObservations();
    NoHoldoffTakes(Observations(None, NoHoldoffScript()));
  }

  lemma BurstScriptObservations()
    ensures Observations(None, BurstScript()) == [None, Some(Message(3)), None, Some(Terminate)]
  {
  }

  /** The burst receiver takes only the last of the three values. */
  lemma BurstTakes(obs: seq<Option<Message<int>>>)
    requires obs == [None, Some(Message(3)), None, Some(Terminate)]
    ensures Taken(BeforeTerminate(obs)) == [3]
    ensures Terminates(obs)
  {
    assert obs[3] == Some(Terminate);
    assert BeforeTerminate(obs) == obs[..3] == [None] + [Some(Message(3)), None];
    assert [Some(Message(3)), None][1..] == [None];
  }

  lemma BurstScriptCoalesces()
    ensures Taken(BeforeTerminate(Observations(None, BurstScript()))) == [3]
    ensures Terminates(Observations(None, BurstScript()))
  {
    BurstScriptObservations();
    BurstTakes(Observations(None, BurstScript()));
  }

  /** Holdoff: 0 and 1 arrive within one holdoff window and collapse to 1;
      2 is superseded by `Terminate` during its window and never delivered. */
  method HoldoffTrace() returns (delivered: seq<int>, terminated: bool)
    ensures delivered == [1]
    ensures terminated
  {
    ScriptsPerformable();
    HoldoffScriptSettles();
    var tx, rx := Channel<int>();
    delivered, terminated := rx.Run(tx, Single, true, HoldoffScript());
  }

  /** No holdoff: spaced-out sends are each delivered, in order. */
  method NoHoldoffTrace() returns (delivered: seq<int>, terminated: bool)
    ensures delivered == [0, 1, 2]
    ensures terminated
  {
    ScriptsPerformable();
    NoHoldoffScriptPasses();
    var tx, rx := Channel<int>();
    delivered, terminated := rx.Run(tx, Single, false, NoHoldoffScript());
  }

  /** Three sends before the receiver wakes coalesce: only the last reaches
      the callback. */
  method CoalescingTrace() returns (delivered: seq<int>, terminated: bool)
    ensures delivered == [3]
    ensures terminated
  {
    ScriptsPerformable();
    BurstScriptCoalesces();
    var tx, rx := Channel<int>();
    delivered, terminated := rx.Run(tx, Multi, false, BurstScript());
  }

  /** An `Interrupter` answers false on an empty slot, true once a message
      is pending, and stays true after the slot has been emptied again. */
  method InterrupterLatches() returns (idle: bool, hit: bool, later: bool)
    ensures !idle && hit && later
  {
    var slot := new Slot<int>();
    var checker := new Interrupter(slot);
    idle := checker.Interrupted();
    slot.Put(Message(7));
    hit := checker.Interrupted();
    var _ := slot.Take();
    later := checker.Interrupted();
  }

  /** Clones of a `MultiInterrupter` share one latch: once one clone has
      answered true, another answers true even though the slot is empty by
      then, and its first answer before any message was false. */
  method MultiInterrupterSharesLatch() returns (idle: bool, hit: bool, other: bool)
    ensures !idle && hit && other
  {
    var slot := new Slot<int>();
    var first := new MultiInterrupter.New(slot);
    var second := new MultiInterrupter.Clone(first);
    idle := second.Interrupted();
    slot.Put(Message.Terminate);
    hit := first.Interrupted();
    var _ := slot.Take();
    other := second.Interrupted();
  }
}
