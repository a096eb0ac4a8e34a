/** How many connections the workers need: getConnection never fails and never blocks
    exactly when there are at least as many connections as workers. */
module PoolSizing {
  import opened Locker
  import opened Wrappers
  import opened Counting
  import opened PoolMachine
  import opened PoolSafety
  import opened PoolTheorems

  /** No worker at the size test sees an empty list, and none at reserve.wait() has to wait. */
  ghost predicate Served(s: State)
  {
    forall i :: 0 <= i < |s.workers| ==>
      && (s.workers[i].pc.ReadSize? ==> |s.pool.connList| > 0)
      && (s.workers[i].pc.WaitReserve? ==> s.pool.reserve > 0)
  }

  /** A worker running a request without a connection: getConnection gave it nullptr. */
  ghost predicate RunsWithoutConn(s: State)
  {
    exists i :: 0 <= i < |s.workers| && s.workers[i].pc.Process? && s.workers[i].conn == None
  }

  lemma EnoughConnections(s: State, workers: nat, connections: nat, producers: nat, maxRequests: nat)
    requires workers <= connections
    requires Reachable(s, workers, connections, producers, maxRequests)
    ensures Served(s)
  {
    ReachableInv(s, workers, connections, producers, maxRequests);
    forall i | 0 <= i < |s.workers| && (s.workers[i].pc.ReadSize? || s.workers[i].pc.WaitReserve?)
      ensures |s.pool.connList| > 0 && s.pool.reserve > 0
    {
      SumWithin(s.workers, Holds, i);
      SumWithin(s.workers, Engaged, i);
      EngagedSplits(s.workers);
      SumBounds(s.workers, Transit);
    }
  }

  /** Holding or in transit: no worker is both. */
  function Engaged(w: Worker): int { Holds(w) + Transit(w) }

  lemma {:induction false} EngagedSplits(ws: seq<Worker>)
    ensures Sum(ws, Engaged) == Sum(ws, Holds) + Sum(ws, Transit)
  {
    if ws != [] {
      EngagedSplits(ws[..|ws| - 1]);
    }
  }

  /** Every request being processed has its connection. */
  ghost predicate ProcessHasConn(s: State)
  {
    forall i :: 0 <= i < |s.workers| ==> HasItsConn(s.workers[i])
  }

  predicate HasItsConn(w: Worker) { w.pc.Process? || w.pc.TestRelease? ==> w.conn.Some? }

  lemma WorkerKeepsItsConn(w: Worker, me: Thread, q: WorkQueue, p: ConnPool, maxConn: nat)
    requires HasItsConn(w) && WorkerOk(w, maxConn) && (w.pc.ReadSize? ==> |p.connList| > 0)
    ensures AtQueue(w.pc) && RunStep(w, me, q).Go? ==> HasItsConn(RunStep(w, me, q).thread)
    ensures !AtQueue(w.pc) && ConnStep(w, me, p).Go? ==> HasItsConn(ConnStep(w, me, p).thread)
  {
  }

  lemma StepKeepsConns(s: State, a: Action)
    requires Inv(s) && Served(s) && ProcessHasConn(s) && Step(s, a).Ran?
    ensures ProcessHasConn(Step(s, a).state)
  {
    hide RunStep, ConnStep, AppendStep;
    match a
    case Work(i) =>
      assert WorkerOk(s.workers[i], s.maxConn) && HasItsConn(s.workers[i]);
      WorkerKeepsItsConn(s.workers[i], WorkerThread(i), s.queue, s.pool, s.maxConn);
    case _ =>
  }

  lemma {:induction false} NeverNull(actions: seq<Action>,
                                     workers: nat, connections: nat, producers: nat, maxRequests: nat)
    requires workers <= connections
    requires Run(Init(workers, connections, producers, maxRequests), actions).Ran?
    ensures ProcessHasConn(Run(Init(workers, connections, producers, maxRequests), actions).state)
  {
    hide Step;
    var init := Init(workers, connections, producers, maxRequests);
    if actions != [] {
      var last := |actions| - 1;
      NeverNull(actions[..last], workers, connections, producers, maxRequests);
      var s := Run(init, actions[..last]).state;
      assert Reachable(s, workers, connections, producers, maxRequests);
      EnoughConnections(s, workers, connections, producers, maxRequests);
      ReachableInv(s, workers, connections, producers, maxRequests);
      StepKeepsConns(s, actions[last]);
    }
  }

  // ----- With too few connections it does go wrong -----

  lemma Then(s: State, actions: seq<Action>, a: Action) returns (t: State)
    requires Run(s, actions).Ran? && Step(Run(s, actions).state, a).Ran?
    ensures Run(s, actions + [a]) == Step(Run(s, actions).state, a) == Ran(t)
  {
    assert (actions + [a])[..|actions|] == actions;
    t := Step(Run(s, actions).state, a).state;
  }

  /** Workers below k run a request with a connection each, the others wait, all else is at rest. */
  ghost predicate Busy(s: State, k: nat)
  {
    && k <= |s.workers| && 0 < |s.producers|
    && s.queue.locker == Free && s.queue.stat == 0 && s.queue.jobs == []
    && s.pool.locker == Free && |s.pool.connList| == s.pool.reserve == s.maxConn - k
    && s.producers[0].pc.Idle?
    && (forall i :: k <= i < |s.workers| ==> s.workers[i].pc.Wait?)
  }

  /** Producer 0 takes one step. */
  lemma ProducerTakesStep(init: State, before: seq<Action>, s: State) returns (actions: seq<Action>, t: State)
    requires Run(init, before) == Ran(s) && |s.producers| > 0
    requires AppendStep(s.producers[0], ProducerThread(0), s.queue, s.maxRequests).Go?
    ensures Run(init, actions) == Ran(t)
    ensures var r := AppendStep(s.producers[0], ProducerThread(0), s.queue, s.maxRequests);
            t == s.(queue := r.shared, producers := s.producers[0 := r.thread], calls := t.calls)
  {
    t := Then(init, before, Append(0));
    actions := before + [Append(0)];
  }

  lemma AppendJob(init: State, before: seq<Action>, s: State) returns (actions: seq<Action>, t: State)
    requires Run(init, before) == Ran(s)
    requires |s.producers| > 0 && s.producers[0] == Producer(LockAppend, Request(0))
    requires s.queue.locker == Free && s.queue.jobs == []
    ensures Run(init, actions) == Ran(t)
    ensures t.workers == s.workers && t.pool == s.pool && t.maxConn == s.maxConn
    ensures |t.producers| > 0 && t.producers[0].pc.Idle?
    ensures t.queue.locker == Free && t.queue.stat == s.queue.stat + 1 && t.queue.jobs == [Request(0)]
  {
    hide Run, RunStep, ConnStep;
    actions, t := ProducerTakesStep(init, before, s);
    actions, t := ProducerTakesStep(init, actions, t);
    actions, t := ProducerTakesStep(init, actions, t);
    actions, t := ProducerTakesStep(init, actions, t);
    actions, t := ProducerTakesStep(init, actions, t);
  }

  /** Worker k takes one step at the queue. */
  lemma AtQueueStep(init: State, before: seq<Action>, s: State, k: nat) returns (actions: seq<Action>, t: State)
    requires Run(init, before) == Ran(s)
    requires k < |s.workers| && AtQueue(s.workers[k].pc)
    requires RunStep(s.workers[k], WorkerThread(k), s.queue).Go?
    ensures Run(init, actions) == Ran(t)
    ensures var r := RunStep(s.workers[k], WorkerThread(k), s.queue);
            t == s.(queue := r.shared, workers := s.workers[k := r.thread])
  {
    t := Then(init, before, Work(k));
    actions := before + [Work(k)];
  }

  /** Worker k takes one step at the connections. */
  lemma AtPoolStep(init: State, before: seq<Action>, s: State, k: nat) returns (actions: seq<Action>, t: State)
    requires Run(init, before) == Ran(s)
    requires k < |s.workers| && !AtQueue(s.workers[k].pc)
    requires ConnStep(s.workers[k], WorkerThread(k), s.pool).Go?
    ensures Run(init, actions) == Ran(t)
    ensures var r := ConnStep(s.workers[k], WorkerThread(k), s.pool);
            t == s.(pool := r.shared, workers := s.workers[k := r.thread], calls := t.calls)
  {
    t := Then(init, before, Work(k));
    actions := before + [Work(k)];
  }

  lemma PopIt(init: State, before: seq<Action>, s: State, k: nat) returns (actions: seq<Action>, t: State)
    requires Run(init, before) == Ran(s)
    requires k < |s.workers| && s.workers[k].pc.Wait?
    requires s.queue.locker == Free && s.queue.stat == 1 && s.queue.jobs == [Request(0)]
    ensures Run(init, actions) == Ran(t)
    ensures t.workers == s.workers[k := Worker(ReadSize, Request(0), s.workers[k].conn)]
    ensures t.pool == s.pool && t.producers == s.producers && t.maxConn == s.maxConn
    ensures t.queue.locker == Free && t.queue.stat == 0 && t.queue.jobs == []
  {
    actions, t := AtQueueStep(init, before, s, k);
    actions, t := AtQueueStep(init, actions, t, k);
    actions, t := AtQueueStep(init, actions, t, k);
    actions, t := AtQueueStep(init, actions, t, k);
    actions, t := AtQueueStep(init, actions, t, k);
    actions, t := AtQueueStep(init, actions, t, k);
  }

  /** From reserve.wait() with a connection to spare, worker k gets one. */
  lemma GetIt(init: State, before: seq<Action>, s: State, k: nat) returns (actions: seq<Action>, t: State)
    requires Run(init, before) == Ran(s)
    requires k < |s.workers| && s.workers[k].pc.WaitReserve?
    requires s.pool.locker == Free && s.pool.reserve > 0 && s.pool.connList != []
    ensures Run(init, actions) == Ran(t)
    ensures t.queue == s.queue && t.producers == s.producers && t.maxConn == s.maxConn
    ensures |t.workers| == |s.workers| && forall i :: 0 <= i < |s.workers| && i != k ==> t.workers[i] == s.workers[i]
    ensures t.workers[k].pc.Process? && t.pool.locker == Free
    ensures t.pool.reserve == s.pool.reserve - 1 && |t.pool.connList| == |s.pool.connList| - 1
  {
    actions, t := AtPoolStep(init, before, s, k);
    actions, t := AtPoolStep(init, actions, t, k);
    actions, t := AtPoolStep(init, actions, t, k);
    actions, t := AtPoolStep(init, actions, t, k);
    actions, t := AtPoolStep(init, actions, t, k);
  }

  /** Worker k finds the list not empty. */
  lemma PassTest(init: State, before: seq<Action>, s: State, k: nat) returns (actions: seq<Action>, t: State)
    requires Run(init, before) == Ran(s)
    requires k < |s.workers| && s.workers[k].pc.ReadSize? && s.pool.connList != []
    ensures Run(init, actions) == Ran(t)
    ensures t == s.(workers := s.workers[k := s.workers[k].(pc := WaitReserve)], calls := t.calls)
  {
    hide RunStep, AppendStep, Run;
    actions, t := AtPoolStep(init, before, s, k);
  }

  /** Producer 0 calls append_job and a worker takes the job as far as the size test. */
  lemma TakeJob(init: State, before: seq<Action>, s: State, k: nat) returns (actions: seq<Action>, t: State)
    requires Run(init, before) == Ran(s)
    requires k < |s.workers| && s.workers[k].pc.Wait? && |s.producers| > 0 && s.producers[0].pc.Idle?
    requires s.queue.locker == Free && s.queue.stat == 0 && s.queue.jobs == []
    ensures Run(init, actions) == Ran(t)
    ensures t.workers == s.workers[k := Worker(ReadSize, Request(0), s.workers[k].conn)]
    ensures t.pool == s.pool && t.maxConn == s.maxConn
    ensures t.queue.locker == Free && t.queue.stat == 0 && t.queue.jobs == []
    ensures |t.producers| > 0 && t.producers[0].pc.Idle?
  {
    hide RunStep, ConnStep, AppendStep;
    t := Then(init, before, Submit(0, Request(0)));
    actions := before + [Submit(0, Request(0))];
    actions, t := AppendJob(init, actions, t);
    actions, t := PopIt(init, actions, t, k);
  }

  lemma {:induction false} MakeBusy(workers: nat, connections: nat, producers: nat, maxRequests: nat, k: nat)
      returns (actions: seq<Action>, s: State)
    requires k <= workers && k <= connections && producers > 0
    ensures Run(Init(workers, connections, producers, maxRequests), actions) == Ran(s)
    ensures Busy(s, k) && |s.workers| == workers && s.maxConn == connections
  {
    var init := Init(workers, connections, producers, maxRequests);
    if k == 0 {
      actions, s := [], init;
    } else {
      actions, s := MakeBusy(workers, connections, producers, maxRequests, k - 1);
      actions, s := TakeJob(init, actions, s, k - 1);
      actions, s := PassTest(init, actions, s, k - 1);
      actions, s := GetIt(init, actions, s, k - 1);
    }
  }

  /** With fewer connections than workers some run gives a request no connection. */
  lemma NullHappens(workers: nat, connections: nat, producers: nat, maxRequests: nat) returns (s: State)
    requires connections < workers && producers > 0
    ensures Reachable(s, workers, connections, producers, maxRequests) && RunsWithoutConn(s)
  {
    var init := Init(workers, connections, producers, maxRequests);
    var actions, t := MakeBusy(workers, connections, producers, maxRequests, connections);
    actions, t := TakeJob(init, actions, t, connections);
    s := Then(init, actions, Work(connections));
    assert s.workers[connections].pc.Process?;
  }

  lemma BlocksAtReserve(s: State, i: nat)
    requires i < |s.workers| && s.workers[i].pc.WaitReserve? && s.pool.reserve == 0
    ensures WorkerStep(s, i) == Blocked
  {
  }

  /** ... and, unless there are no connections at all, some run leaves a worker blocked in
      reserve.wait(): the size test is made without the lock. */
  lemma BlockingHappens(workers: nat, connections: nat, producers: nat, maxRequests: nat) returns (s: State, i: nat)
    requires 0 < connections < workers && producers > 0
    ensures Reachable(s, workers, connections, producers, maxRequests)
    ensures i < |s.workers| && s.workers[i].pc.WaitReserve? && WorkerStep(s, i) == Blocked
    ensures s.pool.locker == Free && s.pool.connList == []
  {
    hide Run, Step, WorkerStep, Init;
    var init := Init(workers, connections, producers, maxRequests);
    var k := connections - 1;
    i := connections;
    var actions, t := MakeBusy(workers, connections, producers, maxRequests, k);
    actions, t := TakeJob(init, actions, t, k);
    actions, t := PassTest(init, actions, t, k);
    actions, t := TakeJob(init, actions, t, i);
    actions, t := PassTest(init, actions, t, i);
    actions, s := GetIt(init, actions, t, k);
    BlocksAtReserve(s, i);
  }

  /** The sizing rule, both ways. server.cpp runs 8 workers on 8 connections. */
  lemma ServedIffEnough(workers: nat, connections: nat, producers: nat, maxRequests: nat)
    requires producers > 0
    ensures (forall s :: Reachable(s, workers, connections, producers, maxRequests) ==>
               Served(s) && !RunsWithoutConn(s))
            <==> workers <= connections
  {
    if workers <= connections {
      forall s | Reachable(s, workers, connections, producers, maxRequests)
        ensures Served(s) && !RunsWithoutConn(s)
      {
        EnoughConnections(s, workers, connections, producers, maxRequests);
        var actions :| Run(Init(workers, connections, producers, maxRequests), actions) == Ran(s);
        NeverNull(actions, workers, connections, producers, maxRequests);
      }
    } else {
      var s := NullHappens(workers, connections, producers, maxRequests);
    }
  }
}
