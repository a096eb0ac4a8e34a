/** What every step of the two pools keeps, whatever the schedule. */
module PoolSafety {
  import opened Locker
  import opened Counting
  import opened PoolMachine
  import opened PoolRequests

  // ----- Who is where -----

  predicate InQueueSection(w: Worker) { w.pc.TestEmpty? || w.pc.UnlockEmpty? || w.pc.PopJob? || w.pc.UnlockPopped? }

  predicate InAppendSection(p: Producer) { p.pc.TestSize? || p.pc.UnlockReject? || p.pc.PushJob? || p.pc.UnlockPushed? }

  predicate InGetSection(w: Worker) { w.pc.PopConn? || w.pc.CountGet? || w.pc.UnlockGet? }

  predicate InPutSection(w: Worker) { w.pc.PushConn? || w.pc.CountPut? || w.pc.UnlockPut? }

  predicate InConnSection(w: Worker) { InGetSection(w) || InPutSection(w) }

  /** Took a queue token and has not popped yet. */
  function PastWait(w: Worker): int { if w.pc.LockQueue? || w.pc.TestEmpty? || w.pc.PopJob? then 1 else 0 }

  /** Pushed a job whose token is not posted yet. */
  function Unposted(p: Producer): int { if p.pc.UnlockPushed? || p.pc.Post? then 1 else 0 }

  predicate HoldsConn(w: Worker)
  {
    && w.conn.Some?
    && (w.pc.CountGet? || w.pc.UnlockGet? || w.pc.Process? || w.pc.TestRelease? || w.pc.LockPut? || w.pc.PushConn?)
  }

  function Holds(w: Worker): int { if HoldsConn(w) then 1 else 0 }

  /** Took a reserve token and has not popped, or pushed and has not posted. */
  predicate InTransit(w: Worker)
  {
    w.pc.LockGet? || w.pc.PopConn? || w.pc.CountPut? || w.pc.UnlockPut? || w.pc.PostReserve?
  }

  function Transit(w: Worker): int { if InTransit(w) then 1 else 0 }

  /** How far m_freeConn is behind the list: popped but not counted, or pushed but not counted. */
  function Uncounted(w: Worker): int
  {
    if w.pc.CountGet? then 1 else if w.pc.CountPut? then -1 else 0
  }

  function IsConn(c: nat): nat -> int
  {
    (x: nat) => if x == c then 1 else 0
  }

  function HasConn(c: nat): Worker -> int
  {
    (w: Worker) => if HoldsConn(w) && w.conn.value == c then 1 else 0
  }

  /** How many times connection c exists: in the list, or in a worker's hands. */
  function Copies(connList: seq<nat>, ws: seq<Worker>, c: nat): int
  {
    Sum(connList, IsConn(c)) + Sum(ws, HasConn(c))
  }

  // ----- The invariant -----

  /** The mutex names exactly the thread between lock and unlock. */
  ghost predicate QueueLockOk(locker: Mutex<Thread>, ws: seq<Worker>, ps: seq<Producer>)
  {
    && (forall i :: 0 <= i < |ws| ==> (InQueueSection(ws[i]) <==> locker == HeldBy(WorkerThread(i))))
    && (forall j :: 0 <= j < |ps| ==> (InAppendSection(ps[j]) <==> locker == HeldBy(ProducerThread(j))))
    && (locker.HeldBy? ==>
          match locker.owner
          case WorkerThread(i) => i < |ws|
          case ProducerThread(j) => j < |ps|)
  }

  ghost predicate ConnLockOk(locker: Mutex<Thread>, ws: seq<Worker>)
  {
    && (forall i :: 0 <= i < |ws| ==> (InConnSection(ws[i]) <==> locker == HeldBy(WorkerThread(i))))
    && (locker.HeldBy? ==> locker.owner.WorkerThread? && locker.owner.worker < |ws|)
  }

  /** What the work queue keeps even when a worker goes on without a token: the FIFO history, no job
      without a token that will lead a worker to it, and no pop or push that should not be. */
  ghost predicate JobsKept(s: State)
  {
    && |s.queue.jobs| <= s.queue.stat + Sum(s.workers, PastWait) + Sum(s.producers, Unposted)
    && s.queue.accepted == s.queue.dispatched + s.queue.jobs
    && |s.queue.jobs| <= s.maxRequests + 1
    && (forall i :: 0 <= i < |s.workers| ==> s.workers[i].pc.PopJob? ==> s.queue.jobs != [])
    && (forall j :: 0 <= j < |s.producers| ==> s.producers[j].pc.PushJob? ==> |s.queue.jobs| <= s.maxRequests)
    && (forall j :: 0 <= j < |s.producers| ==> s.producers[j].pc.UnlockReject? ==> |s.queue.jobs| > s.maxRequests)
  }

  /** Exact token accounting: nobody goes on without a token, so nobody finds the queue empty. */
  ghost predicate JobsOk(s: State)
  {
    && JobsKept(s)
    && |s.queue.jobs| == s.queue.stat + Sum(s.workers, PastWait) + Sum(s.producers, Unposted)
    && (forall i :: 0 <= i < |s.workers| ==> !s.workers[i].pc.UnlockEmpty?)
  }

  /** Between the pop and the push the worker has a connection, and it reached the
      semaphore only if there was one to wait for. */
  predicate WorkerOk(w: Worker, maxConn: nat)
  {
    && (w.pc.CountGet? || w.pc.UnlockGet? || w.pc.LockPut? || w.pc.PushConn? ==> w.conn.Some?)
    && (w.pc.WaitReserve? || w.pc.LockGet? || w.pc.PopConn? ==> maxConn > 0)
  }

  /** Every connection of the pool is in exactly one place. */
  ghost predicate Partitioned(s: State)
  {
    forall c: nat :: Copies(s.pool.connList, s.workers, c) == if c < s.maxConn then 1 else 0
  }

  /** List and counters of the connection pool, and at least one token for each connection. */
  ghost predicate ConnsKept(s: State)
  {
    && |s.pool.connList| == s.maxConn - Sum(s.workers, Holds)
    && s.pool.reserve >= |s.pool.connList| - Sum(s.workers, Transit)
    && s.pool.freeConn == |s.pool.connList| + Sum(s.workers, Uncounted)
    && s.pool.freeConn + s.pool.curConn == s.maxConn
    && (forall i :: 0 <= i < |s.workers| ==> WorkerOk(s.workers[i], s.maxConn))
  }

  /** Exact token accounting of the connection pool. */
  ghost predicate ConnsOk(s: State)
  {
    ConnsKept(s) && s.pool.reserve == |s.pool.connList| - Sum(s.workers, Transit)
  }

  ghost predicate LocksOk(s: State)
  {
    && QueueLockOk(s.queue.locker, s.workers, s.producers)
    && ConnLockOk(s.pool.locker, s.workers)
  }

  /** What holds whether or not a signal interrupts a semaphore wait. */
  ghost predicate Kept(s: State)
  {
    LocksOk(s) && JobsKept(s) && ConnsKept(s) && Partitioned(s) && RequestsOk(s)
  }

  ghost predicate Inv(s: State)
  {
    Kept(s) && JobsOk(s) && ConnsOk(s)
  }

  // ----- It holds at the start and every step keeps it -----

  lemma InitInv(workers: nat, connections: nat, producers: nat, maxRequests: nat)
    ensures Inv(Init(workers, connections, producers, maxRequests))
  {
    hide RequestsOk;
    InitRequests(workers, connections, producers, maxRequests);
    var s := Init(workers, connections, producers, maxRequests);
    SumZero(s.workers, PastWait);
    SumZero(s.producers, Unposted);
    SumZero(s.workers, Transit);
    SumZero(s.workers, Holds);
    SumZero(s.workers, Uncounted);
    forall c: nat
      ensures Copies(s.pool.connList, s.workers, c) == if c < connections then 1 else 0
    {
      SumZero(s.workers, HasConn(c));
      EachOnce(connections, c);
    }
  }

  lemma {:induction false} EachOnce(n: nat, c: nat)
    ensures Sum(FirstConns(n), IsConn(c)) == if c < n then 1 else 0
  {
    if n > 0 {
      assert FirstConns(n)[..n - 1] == FirstConns(n - 1);
      EachOnce(n - 1, c);
    }
  }

  lemma RunStepLock(w: Worker, me: Thread, q: WorkQueue)
    requires AtQueue(w.pc) && RunStep(w, me, q).Go?
    requires InQueueSection(w) ==> q.locker == HeldBy(me)
    ensures var r := RunStep(w, me, q);
            LockMove(q.locker, r.shared.locker, me, InQueueSection(w), InQueueSection(r.thread))
    ensures !InConnSection(w) && !InConnSection(RunStep(w, me, q).thread)
  {
  }

  lemma ConnStepLock(w: Worker, me: Thread, p: ConnPool)
    requires !AtQueue(w.pc) && ConnStep(w, me, p).Go?
    requires InConnSection(w) ==> p.locker == HeldBy(me)
    ensures var r := ConnStep(w, me, p);
            LockMove(p.locker, r.shared.locker, me, InConnSection(w), InConnSection(r.thread))
    ensures !InQueueSection(w) && !InQueueSection(ConnStep(w, me, p).thread)
  {
  }

  lemma QueueLockMoves(locker: Mutex<Thread>, ws: seq<Worker>, ps: seq<Producer>,
                       i: nat, locker': Mutex<Thread>, w: Worker)
    requires i < |ws| && QueueLockOk(locker, ws, ps)
    requires LockMove(locker, locker', WorkerThread(i), InQueueSection(ws[i]), InQueueSection(w))
    ensures QueueLockOk(locker', ws[i := w], ps)
  {
  }

  lemma ConnLockMoves(locker: Mutex<Thread>, ws: seq<Worker>, i: nat, locker': Mutex<Thread>, w: Worker)
    requires i < |ws| && ConnLockOk(locker, ws)
    requires LockMove(locker, locker', WorkerThread(i), InConnSection(ws[i]), InConnSection(w))
    ensures ConnLockOk(locker', ws[i := w])
  {
  }

  lemma WorkerKeepsLocks(s: State, i: nat)
    requires i < |s.workers| && WorkerStep(s, i).Ran?
    requires LocksOk(s)
    ensures LocksOk(WorkerStep(s, i).state)
  {
    var w, me := s.workers[i], WorkerThread(i);
    var t := WorkerStep(s, i).state;
    if AtQueue(w.pc) {
      RunStepLock(w, me, s.queue);
    } else {
      ConnStepLock(w, me, s.pool);
    }
    QueueLockMoves(s.queue.locker, s.workers, s.producers, i, t.queue.locker, t.workers[i]);
    ConnLockMoves(s.pool.locker, s.workers, i, t.pool.locker, t.workers[i]);
  }

  lemma ProducerKeepsLocks(s: State, j: nat)
    requires j < |s.producers| && ProducerStep(s, j).Ran?
    requires QueueLockOk(s.queue.locker, s.workers, s.producers)
    ensures var t := ProducerStep(s, j).state;
            QueueLockOk(t.queue.locker, t.workers, t.producers)
  {
  }

  /** A worker at the queue has nothing to do with the connections ... */
  lemma RunStepApart(w: Worker, me: Thread, q: WorkQueue, maxConn: nat)
    requires AtQueue(w.pc) && RunStep(w, me, q).Go?
    ensures var t := RunStep(w, me, q).thread;
            && !HoldsConn(w) && !InTransit(w) && Uncounted(w) == 0
            && !HoldsConn(t) && !InTransit(t) && Uncounted(t) == 0 && WorkerOk(t, maxConn)
  {
  }

  /** ... and a worker at the connections nothing with the queue. */
  lemma ConnStepApart(w: Worker, me: Thread, p: ConnPool)
    requires !AtQueue(w.pc) && ConnStep(w, me, p).Go?
    ensures var t := ConnStep(w, me, p).thread;
            PastWait(w) == PastWait(t) == 0 && !t.pc.PopJob? && !t.pc.UnlockEmpty?
  {
  }

  /** While one thread is between lock and unlock, no other worker is about to pop
      and no other producer is about to push. */
  lemma WorkerKeepsJobs(s: State, i: nat)
    requires i < |s.workers| && WorkerStep(s, i).Ran?
    requires QueueLockOk(s.queue.locker, s.workers, s.producers) && JobsKept(s)
    ensures JobsKept(WorkerStep(s, i).state)
    ensures JobsOk(s) ==> JobsOk(WorkerStep(s, i).state)
  {
    hide ConnStep;
    var w := WorkerStep(s, i).state.workers[i];
    SumUpdate(s.workers, i, w, PastWait);
    SumBounds(s.producers, Unposted);
    SumWithin(s.workers, PastWait, i);
    if !AtQueue(s.workers[i].pc) {
      ConnStepApart(s.workers[i], WorkerThread(i), s.pool);
    }
  }

  lemma ProducerKeepsJobs(s: State, j: nat)
    requires j < |s.producers| && ProducerStep(s, j).Ran?
    requires QueueLockOk(s.queue.locker, s.workers, s.producers) && JobsKept(s)
    ensures JobsKept(ProducerStep(s, j).state)
    ensures JobsOk(s) ==> JobsOk(ProducerStep(s, j).state)
  {
    var p := ProducerStep(s, j).state.producers[j];
    SumUpdate(s.producers, j, p, Unposted);
  }

  lemma ConnStepCounts(w: Worker, me: Thread, p: ConnPool, maxConn: nat)
    requires !AtQueue(w.pc) && ConnStep(w, me, p).Go? && WorkerOk(w, maxConn)
    requires |p.connList| <= maxConn
    ensures var r := ConnStep(w, me, p);
            && WorkerOk(r.thread, maxConn)
            && |r.shared.connList| - |p.connList| == Holds(w) - Holds(r.thread)
            && r.shared.reserve - p.reserve == |r.shared.connList| - |p.connList| + Transit(w) - Transit(r.thread)
            && r.shared.freeConn - p.freeConn == |r.shared.connList| - |p.connList| + Uncounted(r.thread) - Uncounted(w)
            && r.shared.freeConn + r.shared.curConn == p.freeConn + p.curConn
  {
  }

  lemma WorkerKeepsConns(s: State, i: nat)
    requires i < |s.workers| && WorkerStep(s, i).Ran? && ConnsKept(s)
    ensures ConnsKept(WorkerStep(s, i).state)
    ensures ConnsOk(s) ==> ConnsOk(WorkerStep(s, i).state)
  {
    hide RunStep;
    var w := WorkerStep(s, i).state.workers[i];
    SumUpdate(s.workers, i, w, Holds);
    SumUpdate(s.workers, i, w, Transit);
    SumUpdate(s.workers, i, w, Uncounted);
    SumBounds(s.workers, Holds);
    if AtQueue(s.workers[i].pc) {
      RunStepApart(s.workers[i], WorkerThread(i), s.queue, s.maxConn);
    } else {
      ConnStepCounts(s.workers[i], WorkerThread(i), s.pool, s.maxConn);
    }
  }

  lemma ConnStepMoves(w: Worker, me: Thread, p: ConnPool, c: nat)
    requires !AtQueue(w.pc) && ConnStep(w, me, p).Go?
    ensures var r := ConnStep(w, me, p);
            Sum(r.shared.connList, IsConn(c)) + HasConn(c)(r.thread) == Sum(p.connList, IsConn(c)) + HasConn(c)(w)
  {
    var r := ConnStep(w, me, p);
    if w.pc.PopConn? {
      SumSplit(p.connList, 0, IsConn(c));
      assert p.connList[0 + 1..] == r.shared.connList;
      assert p.connList[..0] == [];
    } else if w.pc.PushConn? {
      assert r.shared.connList[..|p.connList|] == p.connList;
    }
  }

  lemma WorkerKeepsPartition(s: State, i: nat)
    requires i < |s.workers| && WorkerStep(s, i).Ran? && Partitioned(s)
    ensures Partitioned(WorkerStep(s, i).state)
  {
    hide RunStep;
    var t := WorkerStep(s, i).state;
    forall c: nat
      ensures Copies(t.pool.connList, t.workers, c) == if c < s.maxConn then 1 else 0
    {
      assert Copies(s.pool.connList, s.workers, c) == if c < s.maxConn then 1 else 0;
      SumUpdate(s.workers, i, t.workers[i], HasConn(c));
      if AtQueue(s.workers[i].pc) {
        RunStepApart(s.workers[i], WorkerThread(i), s.queue, s.maxConn);
      } else {
        ConnStepMoves(s.workers[i], WorkerThread(i), s.pool, c);
      }
    }
  }

  /** No step of any thread takes the front of an empty list: the empty-queue branch of
      run() is dead, and a worker past reserve.wait() always finds a connection. */
  lemma PopsAreSafe(s: State, i: nat)
    requires i < |s.workers| && Inv(s)
    ensures WorkerStep(s, i) != Fault
    ensures s.workers[i].pc.TestEmpty? ==> s.queue.jobs != []
    ensures s.workers[i].pc.PopConn? ==> s.pool.connList != []
  {
    SumWithin(s.workers, PastWait, i);
    SumBounds(s.producers, Unposted);
    SumWithin(s.workers, Transit, i);
    assert WorkerOk(s.workers[i], s.maxConn);
  }

  /** A step that does not fault keeps the weak invariant, and the exact one. */
  lemma StepKept(s: State, a: Action)
    requires Kept(s) && Step(s, a).Ran?
    ensures Kept(Step(s, a).state)
    ensures Inv(s) ==> Inv(Step(s, a).state)
  {
    hide WorkerStep, ProducerStep, LocksOk, JobsKept, ConnsKept, Partitioned, RequestsOk, JobsOk, ConnsOk;
    match a
    case Work(i) =>
      LocksHold(s);
      WorkerKeepsLocks(s, i);
      WorkerKeepsJobs(s, i);
      WorkerKeepsConns(s, i);
      WorkerKeepsPartition(s, i);
      WorkerKeepsRequests(s, i);
    case Append(j) => ProducerKeepsAll(s, j);
    case Submit(j, r) => SubmitKeepsAll(s, j, r);
  }

  lemma LocksHold(s: State)
    requires LocksOk(s)
    ensures QueueLockOk(s.queue.locker, s.workers, s.producers)
  {
  }

  lemma ProducerKeepsAll(s: State, j: nat)
    requires Kept(s) && j < |s.producers| && ProducerStep(s, j).Ran?
    ensures Kept(ProducerStep(s, j).state)
    ensures Inv(s) ==> Inv(ProducerStep(s, j).state)
  {
    hide AppendStep, JobsKept, JobsOk, QueueLockOk, RequestsOk;
    ProducerKeepsLocks(s, j);
    ProducerKeepsJobs(s, j);
    ProducerKeepsRequests(s, j);
  }

  lemma SubmitKeepsAll(s: State, j: nat, r: Request)
    requires Kept(s) && Step(s, Submit(j, r)).Ran?
    ensures Kept(Step(s, Submit(j, r)).state)
    ensures Inv(s) ==> Inv(Step(s, Submit(j, r)).state)
  {
    hide RequestsOk;
    SumUpdate(s.producers, j, Producer(LockAppend, r), Unposted);
    SubmitKeepsRequests(s, j, r);
  }

  lemma StepInv(s: State, a: Action)
    requires Inv(s)
    ensures Step(s, a) != Fault
    ensures Step(s, a).Ran? ==> Inv(Step(s, a).state)
  {
    if a.Work? && a.worker < |s.workers| {
      PopsAreSafe(s, a.worker);
    }
    if Step(s, a).Ran? {
      StepKept(s, a);
    }
  }

  lemma {:induction false} RunInv(s: State, actions: seq<Action>)
    requires Inv(s)
    ensures Run(s, actions) != Fault
    ensures Run(s, actions).Ran? ==> Inv(Run(s, actions).state)
  {
    if actions != [] {
      var last := |actions| - 1;
      RunInv(s, actions[..last]);
      var before := Run(s, actions[..last]);
      if before.Ran? {
        StepInv(before.state, actions[last]);
      }
    }
  }
}
