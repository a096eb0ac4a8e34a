/** The two pools when signals interrupt semaphore waits. The handlers of server.cpp are installed
    without SA_RESTART, so sem_wait may return before it has taken a token; run() and
    getConnection() do not look at the result and go on. */
module PoolSignals {
  import opened Wrappers
  import opened Locker
  import opened Counting
  import opened PoolMachine
  import opened PoolRequests
  import opened PoolSafety
  import opened PoolTheorems
  import opened PoolSizing

  datatype Event =
    | Plain(action: Action)
    | Interrupt(worker: nat)  // sem_wait fails with EINTR in this worker

  /** On to the statement behind the wait, without a token. */
  function Interrupted(w: Worker): Worker
    requires w.pc.Wait? || w.pc.WaitReserve?
  {
    w.(pc := if w.pc.Wait? then LockQueue else LockGet)
  }

  function StepWithSignals(s: State, e: Event): Outcome
  {
    match e
    case Plain(a) => Step(s, a)
    case Interrupt(i) =>
      if i < |s.workers| && (s.workers[i].pc.Wait? || s.workers[i].pc.WaitReserve?)
      then Ran(s.(workers := s.workers[i := Interrupted(s.workers[i])]))
      else Blocked
  }

  function RunWithSignals(s: State, events: seq<Event>): Outcome
  {
    if events == [] then Ran(s)
    else
      var before := RunWithSignals(s, events[..|events| - 1]);
      if before.Ran? then StepWithSignals(before.state, events[|events| - 1]) else before
  }

  ghost predicate ReachableWithSignals(s: State, workers: nat, connections: nat, producers: nat, maxRequests: nat)
  {
    exists events :: RunWithSignals(Init(workers, connections, producers, maxRequests), events) == Ran(s)
  }

  // ----- What survives -----

  lemma InterruptKept(s: State, i: nat)
    requires Kept(s) && StepWithSignals(s, Interrupt(i)).Ran?
    ensures Kept(StepWithSignals(s, Interrupt(i)).state)
  {
    hide LocksOk, JobsKept, ConnsKept, Partitioned, RequestsOk;
    var t := StepWithSignals(s, Interrupt(i)).state;
    InterruptKeepsLocks(s, i, t);
    InterruptKeepsJobs(s, i, t);
    InterruptKeepsConns(s, i, t);
    InterruptKeepsPartition(s, i, t);
    InterruptKeepsRequests(s, i, t);
  }

  lemma InterruptKeepsLocks(s: State, i: nat, t: State)
    requires LocksOk(s) && StepWithSignals(s, Interrupt(i)) == Ran(t)
    ensures LocksOk(t)
  {
  }

  lemma InterruptKeepsJobs(s: State, i: nat, t: State)
    requires JobsKept(s) && StepWithSignals(s, Interrupt(i)) == Ran(t)
    ensures JobsKept(t)
  {
    SumUpdate(s.workers, i, t.workers[i], PastWait);
  }

  lemma InterruptKeepsConns(s: State, i: nat, t: State)
    requires ConnsKept(s) && StepWithSignals(s, Interrupt(i)) == Ran(t)
    ensures ConnsKept(t)
  {
    hide Sum;
    var w := t.workers[i];
    SumUpdate(s.workers, i, w, Holds);
    SumUpdate(s.workers, i, w, Transit);
    SumUpdate(s.workers, i, w, Uncounted);
    assert WorkerOk(s.workers[i], s.maxConn);
  }

  lemma InterruptKeepsPartition(s: State, i: nat, t: State)
    requires Partitioned(s) && StepWithSignals(s, Interrupt(i)) == Ran(t)
    ensures Partitioned(t)
  {
    hide Sum;
    forall c: nat
      ensures Copies(t.pool.connList, t.workers, c) == if c < s.maxConn then 1 else 0
    {
      assert Copies(s.pool.connList, s.workers, c) == if c < s.maxConn then 1 else 0;
      SumUpdate(s.workers, i, t.workers[i], HasConn(c));
    }
  }

  lemma InterruptKeepsRequests(s: State, i: nat, t: State)
    requires RequestsOk(s) && StepWithSignals(s, Interrupt(i)) == Ran(t)
    ensures RequestsOk(t)
  {
    hide Sum, OffersOk, OrderOk;
    forall r: Request | r != NullRequest
      ensures Count(t.queue.dispatched, r) == Count(t.calls.processed, r) + Sum(t.workers, WorkerHas(r))
    {
      SumUpdate(s.workers, i, t.workers[i], WorkerHas(r));
    }
    assert OffersOk(t) && OrderOk(t) by { InterruptKeepsOffers(s, i, t); }
  }

  lemma InterruptKeepsOffers(s: State, i: nat, t: State)
    requires OffersOk(s) && OrderOk(s) && StepWithSignals(s, Interrupt(i)) == Ran(t)
    ensures OffersOk(t) && OrderOk(t)
  {
  }

  lemma {:induction false} RunKept(events: seq<Event>, workers: nat, connections: nat, producers: nat, maxRequests: nat)
    requires RunWithSignals(Init(workers, connections, producers, maxRequests), events).Ran?
    ensures var s := RunWithSignals(Init(workers, connections, producers, maxRequests), events).state;
            && Kept(s) && |s.workers| == workers && |s.producers| == producers
            && s.maxConn == connections && s.maxRequests == maxRequests
  {
    hide Kept, Inv, Step, Init;
    var init := Init(workers, connections, producers, maxRequests);
    if events == [] {
      InitKept(workers, connections, producers, maxRequests);
    } else {
      var last := |events| - 1;
      RunKept(events[..last], workers, connections, producers, maxRequests);
      var s := RunWithSignals(init, events[..last]).state;
      match events[last]
      case Plain(a) =>
        StepKept(s, a);
        StepKeepsSizes(s, a);
      case Interrupt(i) => InterruptKept(s, i);
    }
  }

  lemma InitKept(workers: nat, connections: nat, producers: nat, maxRequests: nat)
    ensures var s := Init(workers, connections, producers, maxRequests);
            && Kept(s) && |s.workers| == workers && |s.producers| == producers
            && s.maxConn == connections && s.maxRequests == maxRequests
  {
    InitInv(workers, connections, producers, maxRequests);
  }

  lemma StepKeepsSizes(s: State, a: Action)
    requires Step(s, a).Ran?
    ensures var t := Step(s, a).state;
            && |t.workers| == |s.workers| && |t.producers| == |s.producers|
            && t.maxConn == s.maxConn && t.maxRequests == s.maxRequests
  {
  }

  lemma ReachableKept(s: State, workers: nat, connections: nat, producers: nat, maxRequests: nat)
    requires ReachableWithSignals(s, workers, connections, producers, maxRequests)
    ensures Kept(s) && |s.workers| == workers && |s.producers| == producers
    ensures s.maxConn == connections && s.maxRequests == maxRequests
  {
    var events :| RunWithSignals(Init(workers, connections, producers, maxRequests), events) == Ran(s);
    RunKept(events, workers, connections, producers, maxRequests);
  }

  /** The empty-queue test of run() earns its keep: dispatch stays FIFO and exactly once, every request
      is accounted for as without signals, no job is
      left without a token, no worker pops an empty queue. Where a step can fault it is a worker
      that takes the front of an empty connection list. */
  lemma DispatchSurvives(s: State, workers: nat, connections: nat, producers: nat, maxRequests: nat)
    requires ReachableWithSignals(s, workers, connections, producers, maxRequests)
    ensures s.queue.accepted == s.queue.dispatched + s.queue.jobs
    ensures |s.queue.jobs| <= maxRequests + 1 && RequestsOk(s)
    ensures |s.queue.jobs| <= s.queue.stat + Sum(s.workers, PastWait) + Sum(s.producers, Unposted)
    ensures forall c: nat :: c < connections ==> (c in s.pool.connList <==> !HeldBySomeWorker(s, c))
    ensures forall e :: StepWithSignals(s, e) == Fault <==>
              && e.Plain? && e.action.Work? && e.action.worker < |s.workers|
              && s.workers[e.action.worker].pc.PopConn? && s.pool.connList == []
  {
    ReachableKept(s, workers, connections, producers, maxRequests);
    forall c: nat | c < connections ensures c in s.pool.connList <==> !HeldBySomeWorker(s, c) {
      PlacesOf(s, c);
    }
    forall e ensures StepWithSignals(s, e) == Fault <==>
                       && e.Plain? && e.action.Work? && e.action.worker < |s.workers|
                       && s.workers[e.action.worker].pc.PopConn? && s.pool.connList == []
    {
      if e.Plain? && e.action.Work? && e.action.worker < |s.workers| {
        assert WorkerOk(s.workers[e.action.worker], s.maxConn);
        FaultsAt(s, e.action.worker);
      }
    }
  }

  lemma FaultsAt(s: State, i: nat)
    requires i < |s.workers| && JobsKept(s) && WorkerOk(s.workers[i], s.maxConn)
    ensures WorkerStep(s, i) == Fault <==> s.workers[i].pc.PopConn? && s.pool.connList == []
  {
  }

  /** Neither deadlock: with interrupted waits too, everything stops only when all is done. */
  lemma StuckStillMeansDone(s: State, workers: nat, connections: nat, producers: nat, maxRequests: nat)
    requires workers > 0
    requires ReachableWithSignals(s, workers, connections, producers, maxRequests)
    ensures Stuck(s) <==> AllParked(s)
    ensures Stuck(s) ==>
              && s.queue.jobs == [] && s.queue.dispatched == s.queue.accepted && AllServed(s)
              && |s.pool.connList| == connections
              && forall c: nat :: c < connections ==> c in s.pool.connList
  {
    ReachableKept(s, workers, connections, producers, maxRequests);
    StuckIsDone(s);
  }

  function PlainSubmits(events: seq<Event>): nat
  {
    if events == [] then 0
    else
      var e := events[|events| - 1];
      PlainSubmits(events[..|events| - 1]) + if e.Plain? && e.action.Submit? then 1 else 0
  }

  function Interrupts(events: seq<Event>): nat
  {
    if events == [] then 0
    else Interrupts(events[..|events| - 1]) + if events[|events| - 1].Interrupt? then 1 else 0
  }

  lemma {:induction false} RunWithSignalsUsesUp(s: State, events: seq<Event>)
    requires RunWithSignals(s, events).Ran?
    ensures StepsLeft(RunWithSignals(s, events).state) + |events|
            <= StepsLeft(s) + 25 * PlainSubmits(events) + 19 * Interrupts(events)
  {
    hide Step, StepsLeft;
    if events != [] {
      var last := |events| - 1;
      RunWithSignalsUsesUp(s, events[..last]);
      var before := RunWithSignals(s, events[..last]).state;
      match events[last]
      case Plain(a) => StepUsesUp(before, a);
      case Interrupt(i) => InterruptCosts(before, i);
    }
  }

  lemma InterruptCosts(s: State, i: nat)
    requires StepWithSignals(s, Interrupt(i)).Ran?
    ensures StepsLeft(StepWithSignals(s, Interrupt(i)).state) <= StepsLeft(s) + 18
  {
    SumUpdate(s.workers, i, Interrupted(s.workers[i]), WorkerRank);
  }

  /** Nor livelock: an interrupted wait costs at most one more pass of a worker. */
  lemma EveryRunStaysShort(events: seq<Event>, workers: nat, connections: nat, producers: nat, maxRequests: nat)
    requires RunWithSignals(Init(workers, connections, producers, maxRequests), events).Ran?
    ensures |events| <= 25 * PlainSubmits(events) + 19 * Interrupts(events)
  {
    var s := Init(workers, connections, producers, maxRequests);
    NothingLeftInit(workers, connections, producers, maxRequests);
    RunWithSignalsUsesUp(s, events);
    StepsLeftNonNegative(RunWithSignals(s, events).state);
  }

  // ----- What does not -----

  /** With enough connections the list is never empty where a worker takes its front, token or not. */
  lemma EnoughForAll(s: State, i: nat)
    requires Kept(s) && i < |s.workers| <= s.maxConn && s.workers[i].pc.PopConn?
    ensures s.pool.connList != []
  {
    SumWithin(s.workers, Holds, i);
  }

  /** Without signals a run is what it was. */
  lemma {:induction false} Lift(s: State, actions: seq<Action>) returns (events: seq<Event>)
    ensures RunWithSignals(s, events) == Run(s, actions)
  {
    hide Step;
    events := [];
    if actions != [] {
      var last := |actions| - 1;
      var before := Lift(s, actions[..last]);
      events := before + [Plain(actions[last])];
      assert events[..|before|] == before;
    }
  }

  /** A worker blocked in reserve.wait() is interrupted and pops the empty list. */
  lemma FaultHappens(workers: nat, connections: nat, producers: nat, maxRequests: nat) returns (s: State, i: nat)
    requires 0 < connections < workers && producers > 0
    ensures ReachableWithSignals(s, workers, connections, producers, maxRequests)
    ensures StepWithSignals(s, Plain(Work(i))) == Fault
  {
    hide Run, Init;
    var init := Init(workers, connections, producers, maxRequests);
    var blocked;
    blocked, i := BlockingHappens(workers, connections, producers, maxRequests);
    var actions :| Run(init, actions) == Ran(blocked);
    var events := Lift(init, actions);
    var t;
    events, t := ThenEvent(init, events, blocked, Interrupt(i));
    events, s := ThenEvent(init, events, t, Plain(Work(i)));
  }

  lemma ThenEvent(init: State, before: seq<Event>, s: State, e: Event) returns (events: seq<Event>, t: State)
    requires RunWithSignals(init, before) == Ran(s) && StepWithSignals(s, e).Ran?
    ensures RunWithSignals(init, events) == Ran(t) && t == StepWithSignals(s, e).state
  {
    events, t := before + [e], StepWithSignals(s, e).state;
    assert events[..|before|] == before;
  }

  /** Interrupted waits are harmless in every run if and only if there are at least as many
      connections as workers, or none at all. */
  lemma SignalsHarmlessIff(workers: nat, connections: nat, producers: nat, maxRequests: nat)
    requires producers > 0
    ensures (forall s, e :: ReachableWithSignals(s, workers, connections, producers, maxRequests) ==>
               StepWithSignals(s, e) != Fault)
            <==> workers <= connections || connections == 0
  {
    hide StepWithSignals, ReachableWithSignals;
    if workers <= connections || connections == 0 {
      forall s, e | ReachableWithSignals(s, workers, connections, producers, maxRequests)
        ensures StepWithSignals(s, e) != Fault
      {
        NoFault(s, e, workers, connections, producers, maxRequests);
      }
    } else {
      var s, i := FaultHappens(workers, connections, producers, maxRequests);
    }
  }

  lemma NoFault(s: State, e: Event, workers: nat, connections: nat, producers: nat, maxRequests: nat)
    requires workers <= connections || connections == 0
    requires ReachableWithSignals(s, workers, connections, producers, maxRequests)
    ensures StepWithSignals(s, e) != Fault
  {
    hide StepWithSignals, ReachableWithSignals;
    DispatchSurvives(s, workers, connections, producers, maxRequests);
    ReachableKept(s, workers, connections, producers, maxRequests);
    if StepWithSignals(s, e) == Fault {
      assert WorkerOk(s.workers[e.action.worker], s.maxConn);
      EnoughForAll(s, e.action.worker);
      assert false;
    }
  }
}
