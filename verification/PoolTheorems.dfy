/** What the invariant of the two pools means for every run of the server. */
module PoolTheorems {
  import opened Locker
  import opened Counting
  import opened PoolMachine
  import opened PoolRequests
  import opened PoolSafety

  lemma ReachableInv(s: State, workers: nat, connections: nat, producers: nat, maxRequests: nat)
    requires Reachable(s, workers, connections, producers, maxRequests)
    ensures Inv(s)
    ensures |s.workers| == workers && |s.producers| == producers
    ensures s.maxConn == connections && s.maxRequests == maxRequests
  {
    var actions :| Run(Init(workers, connections, producers, maxRequests), actions) == Ran(s);
    InitInv(workers, connections, producers, maxRequests);
    RunInv(Init(workers, connections, producers, maxRequests), actions);
    RunKeepsSizes(Init(workers, connections, producers, maxRequests), actions);
  }

  lemma {:induction false} RunKeepsSizes(s: State, actions: seq<Action>)
    requires Run(s, actions).Ran?
    ensures var t := Run(s, actions).state;
            && |t.workers| == |s.workers| && |t.producers| == |s.producers|
            && t.maxConn == s.maxConn && t.maxRequests == s.maxRequests
  {
    if actions != [] {
      RunKeepsSizes(s, actions[..|actions| - 1]);
    }
  }

  // ----- The work queue -----

  /** Every accepted request is dispatched exactly once and in order, the queue overshoots its
      limit by at most one, its length is what the tokens say, and a worker holding a token
      never finds it empty. */
  lemma DispatchIsFifo(s: State, workers: nat, connections: nat, producers: nat, maxRequests: nat)
    requires Reachable(s, workers, connections, producers, maxRequests)
    ensures s.queue.accepted == s.queue.dispatched + s.queue.jobs
    ensures |s.queue.jobs| <= maxRequests + 1
    ensures |s.queue.jobs| == s.queue.stat + Sum(s.workers, PastWait) + Sum(s.producers, Unposted)
    ensures forall i :: 0 <= i < |s.workers| && s.workers[i].pc.TestEmpty? ==> s.queue.jobs != []
    ensures forall i :: 0 <= i < |s.workers| ==> !s.workers[i].pc.UnlockEmpty?
    ensures forall a :: Step(s, a) != Fault
  {
    ReachableInv(s, workers, connections, producers, maxRequests);
    forall i | 0 <= i < |s.workers| && s.workers[i].pc.TestEmpty?
      ensures s.queue.jobs != []
    {
      PopsAreSafe(s, i);
    }
    forall a ensures Step(s, a) != Fault {
      StepInv(s, a);
    }
  }

  /** Every request is accounted for: what append_job was called with is accepted, turned away or
      still offered, with one producer in that order; what was dispatched is processed as often, but
      for null requests, or is on its way to process(). A request is turned away exactly when the
      queue is over its limit. */
  lemma RequestsAreConserved(s: State, workers: nat, connections: nat, producers: nat, maxRequests: nat)
    requires Reachable(s, workers, connections, producers, maxRequests)
    ensures forall r :: Count(s.calls.submitted, r)
              == Count(s.queue.accepted, r) + Count(s.calls.rejected, r) + Sum(s.producers, ProducerHas(r))
    ensures forall r: Request :: r != NullRequest ==>
              Count(s.queue.dispatched, r) == Count(s.calls.processed, r) + Sum(s.workers, WorkerHas(r))
    ensures NullRequest !in s.calls.processed
    ensures OrderOk(s)
    ensures forall j :: 0 <= j < |s.producers| ==>
              && (s.producers[j].pc.PushJob? ==> |s.queue.jobs| <= maxRequests)
              && (s.producers[j].pc.UnlockReject? ==> |s.queue.jobs| > maxRequests)
  {
    hide Sum, OrderOk;
    ReachableInv(s, workers, connections, producers, maxRequests);
  }

  // ----- The connections -----

  ghost predicate HeldBySomeWorker(s: State, c: nat)
  {
    exists i :: 0 <= i < |s.workers| && HoldsConn(s.workers[i]) && s.workers[i].conn.value == c
  }

  /** The connections are shared out between the list and the workers: none is lost, none is
      in two places, and with the lock free the counters tell where they are. */
  lemma ConnectionsAreConserved(s: State, workers: nat, connections: nat, producers: nat, maxRequests: nat)
    requires Reachable(s, workers, connections, producers, maxRequests)
    ensures forall k, l :: 0 <= k < l < |s.pool.connList| ==> s.pool.connList[k] != s.pool.connList[l]
    ensures forall i, j :: 0 <= i < j < |s.workers| && HoldsConn(s.workers[i]) && HoldsConn(s.workers[j]) ==>
              s.workers[i].conn != s.workers[j].conn
    ensures forall c: nat :: c in s.pool.connList ==> c < connections
    ensures forall c: nat :: c < connections ==> (c in s.pool.connList <==> !HeldBySomeWorker(s, c))
    ensures s.pool.freeConn + s.pool.curConn == connections
    ensures 0 <= s.pool.freeConn <= connections
    ensures s.pool.locker == Free ==> s.pool.freeConn == |s.pool.connList|
  {
    ReachableInv(s, workers, connections, producers, maxRequests);
    forall k, l | 0 <= k < l < |s.pool.connList|
      ensures s.pool.connList[k] != s.pool.connList[l]
    {
      var c := s.pool.connList[k];
      if s.pool.connList[l] == c {
        assert Copies(s.pool.connList, s.workers, c) <= 1;
        SumBounds(s.workers, HasConn(c));
        SumTwo(s.pool.connList, IsConn(c), k, l);
      }
    }
    forall i, j | 0 <= i < j < |s.workers| && HoldsConn(s.workers[i]) && HoldsConn(s.workers[j])
      ensures s.workers[i].conn != s.workers[j].conn
    {
      var c := s.workers[i].conn.value;
      if s.workers[j].conn.value == c {
        assert Copies(s.pool.connList, s.workers, c) <= 1;
        SumBounds(s.pool.connList, IsConn(c));
        SumTwo(s.workers, HasConn(c), i, j);
      }
    }
    forall c: nat
      ensures c in s.pool.connList ==> c < connections
      ensures c < connections ==> (c in s.pool.connList <==> !HeldBySomeWorker(s, c))
    {
      PlacesOf(s, c);
    }
    CountersInRange(s);
  }

  lemma PlacesOf(s: State, c: nat)
    requires Partitioned(s)
    ensures c in s.pool.connList ==> c < s.maxConn
    ensures c < s.maxConn ==> (c in s.pool.connList <==> !HeldBySomeWorker(s, c))
  {
    assert Copies(s.pool.connList, s.workers, c) == if c < s.maxConn then 1 else 0;
    SumBounds(s.pool.connList, IsConn(c));
    SumBounds(s.workers, HasConn(c));
    if c in s.pool.connList {
      var k :| 0 <= k < |s.pool.connList| && s.pool.connList[k] == c;
      SumWithin(s.pool.connList, IsConn(c), k);
    } else {
      SumZero(s.pool.connList, IsConn(c));
    }
    if HeldBySomeWorker(s, c) {
      var i :| 0 <= i < |s.workers| && HoldsConn(s.workers[i]) && s.workers[i].conn.value == c;
      SumWithin(s.workers, HasConn(c), i);
    } else {
      SumZero(s.workers, HasConn(c));
    }
  }

  /** At most one worker is between the list and its count, because it holds the lock. */
  lemma CountersInRange(s: State)
    requires Inv(s)
    ensures 0 <= s.pool.freeConn <= s.maxConn
    ensures s.pool.locker == Free ==> s.pool.freeConn == |s.pool.connList|
  {
    SumBounds(s.workers, Holds);
    if s.pool.locker == Free {
      SumZero(s.workers, Uncounted);
    } else {
      var i := s.pool.locker.owner.worker;
      SumSplit(s.workers, i, Uncounted);
      SumZero(s.workers[..i], Uncounted);
      SumZero(s.workers[i + 1..], Uncounted);
      SumWithin(s.workers, Holds, i);
      SumWithin(s.workers, Transit, i);
    }
  }

  // ----- No deadlock, no livelock -----

  /** Nobody can take a step, except that somebody might call append_job again. */
  ghost predicate Stuck(s: State)
  {
    && (forall i :: 0 <= i < |s.workers| ==> WorkerStep(s, i) == Blocked)
    && (forall j :: 0 <= j < |s.producers| ==> ProducerStep(s, j) == Blocked)
  }

  ghost predicate AllParked(s: State)
  {
    && (forall i :: 0 <= i < |s.workers| ==> s.workers[i].pc.Wait?)
    && (forall j :: 0 <= j < |s.producers| ==> s.producers[j].pc.Idle?)
    && s.queue.stat == 0
  }

  lemma StuckLocksFree(s: State)
    requires LocksOk(s) && Stuck(s)
    ensures s.queue.locker == Free && s.pool.locker == Free
  {
    if s.queue.locker.HeldBy? {
      match s.queue.locker.owner
      case WorkerThread(i) => OwnerCanStep(s, i);
      case ProducerThread(j) => AppenderCanStep(s, j);
    }
    if s.pool.locker.HeldBy? {
      OwnerCanStep(s, s.pool.locker.owner.worker);
    }
  }

  /** Nothing between lock and unlock ever waits. */
  lemma OwnerCanStep(s: State, i: nat)
    requires i < |s.workers| && (InQueueSection(s.workers[i]) || InConnSection(s.workers[i]))
    ensures WorkerStep(s, i) != Blocked
  {
  }

  lemma AppenderCanStep(s: State, j: nat)
    requires j < |s.producers| && InAppendSection(s.producers[j])
    ensures ProducerStep(s, j) != Blocked
  {
  }

  /** Every request was accepted or turned away, and every accepted one that is not null was
      processed, as often as it was accepted. */
  ghost predicate AllServed(s: State)
  {
    && (forall r :: Count(s.calls.submitted, r) == Count(s.queue.accepted, r) + Count(s.calls.rejected, r))
    && (forall r: Request :: r != NullRequest ==> Count(s.calls.processed, r) == Count(s.queue.accepted, r))
  }

  lemma ParkedIsServed(s: State)
    requires RequestsOk(s) && AllParked(s) && s.queue.dispatched == s.queue.accepted
    ensures AllServed(s)
  {
    hide Sum;
    forall r
      ensures Count(s.calls.submitted, r) == Count(s.queue.accepted, r) + Count(s.calls.rejected, r)
      ensures r != NullRequest ==> Count(s.calls.processed, r) == Count(s.queue.accepted, r)
    {
      SumZero(s.producers, ProducerHas(r));
      SumZero(s.workers, WorkerHas(r));
    }
  }

  /** A stuck state is one where every worker waits for a job and every append_job has returned,
      with or without interrupted waits before it. */
  lemma StuckIsDone(s: State)
    requires Kept(s) && |s.workers| > 0
    ensures Stuck(s) <==> AllParked(s)
    ensures Stuck(s) ==>
              && s.queue.jobs == [] && s.queue.dispatched == s.queue.accepted
              && |s.pool.connList| == s.pool.freeConn == s.maxConn <= s.pool.reserve
              && Sum(s.workers, Transit) == 0 && AllServed(s)
              && forall c: nat :: c < s.maxConn ==> c in s.pool.connList
  {
    hide RequestsOk, AllServed;
    if Stuck(s) {
      StuckLocksFree(s);
      forall i | 0 <= i < |s.workers| ensures s.workers[i].pc.Wait? || s.workers[i].pc.WaitReserve? {
        assert WorkerStep(s, i) == Blocked;
      }
      SumZero(s.workers, Holds);
      SumZero(s.workers, Transit);
      SumZero(s.workers, Uncounted);
      SumZero(s.workers, PastWait);
      forall j | 0 <= j < |s.producers| ensures s.producers[j].pc.Idle? {
        assert ProducerStep(s, j) == Blocked;
      }
      SumZero(s.producers, Unposted);
      assert forall i :: 0 <= i < |s.workers| ==> WorkerOk(s.workers[i], s.maxConn);
      forall i | 0 <= i < |s.workers| ensures s.workers[i].pc.Wait? {
        assert WorkerStep(s, i) == Blocked;
      }
      assert WorkerStep(s, 0) == Blocked;
      forall c: nat | c < s.maxConn ensures c in s.pool.connList {
        PlacesOf(s, c);
      }
      ParkedIsServed(s);
    }
  }

  /** The only states in which nobody can step are those where every worker waits for a job
      and every append_job has returned; then everything accepted has been dispatched and
      processed, and every connection is back. */
  lemma StuckOnlyWhenDone(s: State, workers: nat, connections: nat, producers: nat, maxRequests: nat)
    requires workers > 0
    requires Reachable(s, workers, connections, producers, maxRequests)
    ensures Stuck(s) <==> AllParked(s)
    ensures Stuck(s) ==>
              && s.queue.jobs == [] && s.queue.dispatched == s.queue.accepted && AllServed(s)
              && |s.pool.connList| == s.pool.reserve == s.pool.freeConn == connections
              && forall c: nat :: c < connections ==> c in s.pool.connList
  {
    ReachableInv(s, workers, connections, producers, maxRequests);
    StuckIsDone(s);
  }

  /** Steps a worker still needs before it is back at m_queuestat.wait(). */
  function WorkerRank(w: Worker): int
  {
    match w.pc
    case Wait => 0
    case UnlockEmpty => 1
    case PostReserve => 1
    case UnlockPut => 2
    case CountPut => 3
    case PushConn => 4
    case LockPut => 5
    case TestRelease => 6
    case Process => 7
    case UnlockGet => 8
    case CountGet => 9
    case PopConn => 10
    case LockGet => 11
    case WaitReserve => 12
    case ReadSize => 13
    case TestRequest => 14
    case UnlockPopped => 15
    case PopJob => 16
    case TestEmpty => 17
    case LockQueue => 18
  }

  /** A posted token is worth one pass of a worker: 19 steps. */
  function ProducerRank(p: Producer): int
  {
    match p.pc
    case Idle => 0
    case UnlockReject => 1
    case Post => 20
    case UnlockPushed => 21
    case PushJob => 22
    case TestSize => 23
    case LockAppend => 24
  }

  /** Steps left in the whole server if nobody calls append_job again. */
  function StepsLeft(s: State): int
  {
    Sum(s.workers, WorkerRank) + Sum(s.producers, ProducerRank) + 19 * s.queue.stat
  }

  lemma StepUsesUp(s: State, a: Action)
    requires Step(s, a).Ran?
    ensures a.Submit? ==> StepsLeft(Step(s, a).state) == StepsLeft(s) + 24
    ensures !a.Submit? ==> StepsLeft(Step(s, a).state) <= StepsLeft(s) - 1
  {
    hide RunStep, ConnStep, AppendStep, WorkerRank, ProducerRank;
    var t := Step(s, a).state;
    match a
    case Work(i) =>
      SumUpdate(s.workers, i, t.workers[i], WorkerRank);
      WorkerUsesUp(s.workers[i], WorkerThread(i), s.queue, s.pool);
    case Append(j) =>
      SumUpdate(s.producers, j, t.producers[j], ProducerRank);
      ProducerUsesUp(s.producers[j], ProducerThread(j), s.queue, s.maxRequests);
    case Submit(j, r) =>
      SumUpdate(s.producers, j, t.producers[j], ProducerRank);
      SubmitRanks(s.producers[j], r);
  }

  lemma WorkerUsesUp(w: Worker, me: Thread, q: WorkQueue, p: ConnPool)
    ensures AtQueue(w.pc) && RunStep(w, me, q).Go? ==>
              var r := RunStep(w, me, q);
              WorkerRank(r.thread) + 19 * r.shared.stat <= WorkerRank(w) + 19 * q.stat - 1
    ensures !AtQueue(w.pc) && ConnStep(w, me, p).Go? ==> WorkerRank(ConnStep(w, me, p).thread) <= WorkerRank(w) - 1
  {
  }

  lemma ProducerUsesUp(p: Producer, me: Thread, q: WorkQueue, maxRequests: nat)
    requires AppendStep(p, me, q, maxRequests).Go?
    ensures var r := AppendStep(p, me, q, maxRequests);
            ProducerRank(r.thread) + 19 * r.shared.stat <= ProducerRank(p) + 19 * q.stat - 1
  {
  }

  lemma SubmitRanks(p: Producer, r: Request)
    ensures p.pc.Idle? ==> ProducerRank(p) == 0
    ensures ProducerRank(Producer(LockAppend, r)) == 24
  {
  }

  function Submits(actions: seq<Action>): nat
  {
    if actions == [] then 0
    else Submits(actions[..|actions| - 1]) + if actions[|actions| - 1].Submit? then 1 else 0
  }

  lemma {:induction false} RunUsesUp(s: State, actions: seq<Action>)
    requires Run(s, actions).Ran?
    ensures StepsLeft(Run(s, actions).state) + |actions| <= StepsLeft(s) + 25 * Submits(actions)
  {
    if actions != [] {
      var last := |actions| - 1;
      RunUsesUp(s, actions[..last]);
      StepUsesUp(Run(s, actions[..last]).state, actions[last]);
    }
  }

  lemma NothingLeftInit(workers: nat, connections: nat, producers: nat, maxRequests: nat)
    ensures StepsLeft(Init(workers, connections, producers, maxRequests)) == 0
  {
    var s := Init(workers, connections, producers, maxRequests);
    SumZero(s.workers, WorkerRank);
    SumZero(s.producers, ProducerRank);
  }

  lemma StepsLeftNonNegative(s: State)
    ensures StepsLeft(s) >= 0
  {
    SumNonNegative(s.workers, WorkerRank);
    SumNonNegative(s.producers, ProducerRank);
  }

  /** No livelock: a run with k calls of append_job has at most 25 k steps in all, whatever the
      schedule. A server nobody submits to any more therefore stops, and it stops done. */
  lemma EveryRunIsShort(actions: seq<Action>, workers: nat, connections: nat, producers: nat, maxRequests: nat)
    requires Run(Init(workers, connections, producers, maxRequests), actions).Ran?
    ensures |actions| <= 25 * Submits(actions)
  {
    var s := Init(workers, connections, producers, maxRequests);
    NothingLeftInit(workers, connections, producers, maxRequests);
    RunUsesUp(s, actions);
    StepsLeftNonNegative(Run(s, actions).state);
  }
}
