/** The two pools as the classes they are: each method is a call that nobody interrupts, and
    equals the steps of PoolMachine that one thread takes in a row. */
module PoolCalls {
  import opened Locker
  import opened Wrappers
  import opened PoolMachine

  // ----- Calls as functions of the shared fields -----

  /** append_job. */
  function AppendCall(q: WorkQueue, r: Request, maxRequests: nat): (WorkQueue, bool)
  {
    if |q.jobs| > maxRequests then (q, false)
    else (q.(jobs := q.jobs + [r], accepted := q.accepted + [r], stat := q.stat + 1), true)
  }

  /** run() from m_queuestat.wait() to the unlock; None when the queue turned out empty. */
  function TakeCall(q: WorkQueue): (WorkQueue, Option<Request>)
    requires q.stat > 0
  {
    var q1 := q.(stat := q.stat - 1);
    if q.jobs == [] then (q1, None)
    else (q1.(jobs := q.jobs[1..], dispatched := q.dispatched + [q.jobs[0]]), Some(q.jobs[0]))
  }

  /** getConnection. */
  function GetCall(p: ConnPool): (ConnPool, Option<nat>)
    requires |p.connList| > 0 ==> p.reserve > 0
  {
    if |p.connList| == 0 then (p, None)
    else
      (p.(reserve := p.reserve - 1, connList := p.connList[1..], freeConn := p.freeConn - 1, curConn := p.curConn + 1),
       Some(p.connList[0]))
  }

  /** releaseConnection. */
  function PutCall(p: ConnPool, conn: Option<nat>): (ConnPool, bool)
  {
    if conn == None then (p, false)
    else
      (p.(connList := p.connList + [conn.value], freeConn := p.freeConn + 1, curConn := p.curConn - 1,
          reserve := p.reserve + 1),
       true)
  }

  // ----- The same calls as steps -----

  function AppendSteps(p: Producer, me: Thread, q: WorkQueue, maxRequests: nat, n: nat): Local<Producer, WorkQueue>
    decreases n
  {
    if n == 0 then Go(p, q)
    else
      match AppendStep(p, me, q, maxRequests)
      case Go(p', q') => AppendSteps(p', me, q', maxRequests, n - 1)
      case stopped => stopped
  }

  function WorkerQueueSteps(w: Worker, me: Thread, q: WorkQueue, n: nat): Local<Worker, WorkQueue>
    decreases n
  {
    if n == 0 || !AtQueue(w.pc) then Go(w, q)
    else
      match RunStep(w, me, q)
      case Go(w', q') => WorkerQueueSteps(w', me, q', n - 1)
      case stopped => stopped
  }

  function WorkerConnSteps(w: Worker, me: Thread, p: ConnPool, n: nat): Local<Worker, ConnPool>
    decreases n
  {
    if n == 0 || AtQueue(w.pc) then Go(w, p)
    else
      match ConnStep(w, me, p)
      case Go(w', p') => WorkerConnSteps(w', me, p', n - 1)
      case stopped => stopped
  }

  /** Rejecting takes three steps, accepting five. */
  lemma AppendAlone(p: Producer, me: Thread, q: WorkQueue, maxRequests: nat)
    requires p.pc.LockAppend? && q.locker == Free
    ensures var (q', ok) := AppendCall(q, p.request, maxRequests);
            AppendSteps(p, me, q, maxRequests, if ok then 5 else 3) == Go(p.(pc := Idle), q')
  {
    var (q', ok) := AppendCall(q, p.request, maxRequests);
    var s1 := AppendStep(p, me, q, maxRequests);
    var s2 := AppendStep(s1.thread, me, s1.shared, maxRequests);
    var s3 := AppendStep(s2.thread, me, s2.shared, maxRequests);
    assert AppendSteps(s2.thread, me, s2.shared, maxRequests, 1) == s3;
    assert AppendSteps(s1.thread, me, s1.shared, maxRequests, 2) == s3;
    if ok {
      var s4 := AppendStep(s3.thread, me, s3.shared, maxRequests);
      var s5 := AppendStep(s4.thread, me, s4.shared, maxRequests);
      assert AppendSteps(s4.thread, me, s4.shared, maxRequests, 1) == s5;
      assert AppendSteps(s3.thread, me, s3.shared, maxRequests, 2) == s5;
      assert AppendSteps(s2.thread, me, s2.shared, maxRequests, 3) == s5;
      assert AppendSteps(s1.thread, me, s1.shared, maxRequests, 4) == s5;
    }
  }

  /** Five steps with a job there, four through the branch for an empty queue. */
  lemma TakeAlone(w: Worker, me: Thread, q: WorkQueue)
    requires w.pc.Wait? && q.locker == Free && q.stat > 0
    ensures var (q', r) := TakeCall(q);
            match r
            case Some(job) => WorkerQueueSteps(w, me, q, 5) == Go(w.(pc := TestRequest, request := job), q')
            case None => WorkerQueueSteps(w, me, q, 4) == Go(w, q')
  {
    var s1 := RunStep(w, me, q);
    var s2 := RunStep(s1.thread, me, s1.shared);
    var s3 := RunStep(s2.thread, me, s2.shared);
    var s4 := RunStep(s3.thread, me, s3.shared);
    assert WorkerQueueSteps(s3.thread, me, s3.shared, 1) == s4;
    assert WorkerQueueSteps(s2.thread, me, s2.shared, 2) == s4;
    assert WorkerQueueSteps(s1.thread, me, s1.shared, 3) == s4;
    if q.jobs != [] {
      var s5 := RunStep(s4.thread, me, s4.shared);
      assert WorkerQueueSteps(s4.thread, me, s4.shared, 1) == s5;
      assert WorkerQueueSteps(s3.thread, me, s3.shared, 2) == s5;
      assert WorkerQueueSteps(s2.thread, me, s2.shared, 3) == s5;
      assert WorkerQueueSteps(s1.thread, me, s1.shared, 4) == s5;
    }
  }

  lemma GetAlone(w: Worker, me: Thread, p: ConnPool)
    requires w.pc.ReadSize? && p.locker == Free && (|p.connList| > 0 ==> p.reserve > 0)
    ensures var (p', conn) := GetCall(p);
            WorkerConnSteps(w, me, p, if conn == None then 1 else 6) == Go(w.(pc := Process, conn := conn), p')
  {
    if p.connList == [] {
      assert WorkerConnSteps(w, me, p, 1) == ConnStep(w, me, p);
    } else {
      var s1 := ConnStep(w, me, p);
      var s2 := ConnStep(s1.thread, me, s1.shared);
      var s3 := ConnStep(s2.thread, me, s2.shared);
      var s4 := ConnStep(s3.thread, me, s3.shared);
      var s5 := ConnStep(s4.thread, me, s4.shared);
      var s6 := ConnStep(s5.thread, me, s5.shared);
      assert WorkerConnSteps(s5.thread, me, s5.shared, 1) == s6;
      assert WorkerConnSteps(s4.thread, me, s4.shared, 2) == s6;
      assert WorkerConnSteps(s3.thread, me, s3.shared, 3) == s6;
      assert WorkerConnSteps(s2.thread, me, s2.shared, 4) == s6;
      assert WorkerConnSteps(s1.thread, me, s1.shared, 5) == s6;
    }
  }

  lemma PutAlone(w: Worker, me: Thread, p: ConnPool)
    requires w.pc.TestRelease? && p.locker == Free
    ensures var (p', done) := PutCall(p, w.conn);
            WorkerConnSteps(w, me, p, if done then 6 else 1) == Go(w.(pc := Wait, conn := None), p')
  {
    if w.conn == None {
      assert WorkerConnSteps(w, me, p, 1) == ConnStep(w, me, p);
    } else {
      var s1 := ConnStep(w, me, p);
      var s2 := ConnStep(s1.thread, me, s1.shared);
      var s3 := ConnStep(s2.thread, me, s2.shared);
      var s4 := ConnStep(s3.thread, me, s3.shared);
      var s5 := ConnStep(s4.thread, me, s4.shared);
      var s6 := ConnStep(s5.thread, me, s5.shared);
      assert WorkerConnSteps(s5.thread, me, s5.shared, 1) == s6;
      assert WorkerConnSteps(s4.thread, me, s4.shared, 2) == s6;
      assert WorkerConnSteps(s3.thread, me, s3.shared, 3) == s6;
      assert WorkerConnSteps(s2.thread, me, s2.shared, 4) == s6;
      assert WorkerConnSteps(s1.thread, me, s1.shared, 5) == s6;
    }
  }

  // ----- The classes -----

  class ThreadPool {
    const maxRequests: int
    var workQueue: seq<Request>
    var queueStat: nat
    ghost var accepted: seq<Request>
    ghost var dispatched: seq<Request>

    ghost function State(): WorkQueue
      reads this
    {
      WorkQueue(Free, queueStat, workQueue, accepted, dispatched)
    }

    /** One token per job, and every accepted job dispatched once, in order, or queued. */
    ghost predicate Valid()
      reads this
    {
      && maxRequests > 0 && queueStat == |workQueue| && |workQueue| <= maxRequests + 1
      && accepted == dispatched + workQueue
    }

    constructor (maxRequests: int)
      requires maxRequests > 0
      ensures Valid() && workQueue == [] && accepted == [] && this.maxRequests == maxRequests
    {
      this.maxRequests := maxRequests;
      workQueue, queueStat, accepted, dispatched := [], 0, [], [];
    }

    method AppendJob(request: Request) returns (ok: bool)
      requires Valid()
      modifies this
      ensures Valid()
      ensures (State(), ok) == AppendCall(old(State()), request, maxRequests)
      ensures ok <==> |old(workQueue)| <= maxRequests
      ensures workQueue == old(workQueue) + (if ok then [request] else [])
      ensures accepted == old(accepted) + (if ok then [request] else []) && dispatched == old(dispatched)
    {
      if |workQueue| > maxRequests {
        return false;
      }
      workQueue := workQueue + [request];
      accepted := accepted + [request];
      queueStat := queueStat + 1;
      return true;
    }

    /** The part of run() up to the unlock; wait() would block without a token. */
    method TakeJob() returns (request: Option<Request>)
      requires Valid() && queueStat > 0
      modifies this
      ensures Valid()
      ensures (State(), request) == TakeCall(old(State()))
      ensures request == Some(old(workQueue)[0]) && workQueue == old(workQueue)[1..]
      ensures accepted == old(accepted) && dispatched == old(dispatched) + [old(workQueue)[0]]
    {
      queueStat := queueStat - 1;
      if workQueue == [] {
        return None;
      }
      request := Some(workQueue[0]);
      dispatched := dispatched + [workQueue[0]];
      workQueue := workQueue[1..];
    }
  }

  /** The threadpool constructor; None where it throws. startable is how many threads pthread_create
      and pthread_detach would start before one of them fails. */
  method NewThreadPool(threadNumber: int, maxRequests: int, startable: nat) returns (pool: Option<ThreadPool>)
    ensures pool == None <==> threadNumber <= 0 || maxRequests <= 0 || startable < threadNumber
    ensures pool.Some? ==>
              && fresh(pool.value) && pool.value.Valid() && pool.value.maxRequests == maxRequests
              && pool.value.State() == Init(threadNumber, 0, 0, maxRequests).queue
  {
    if threadNumber <= 0 || maxRequests <= 0 {
      return None;
    }
    var i := 0;
    while i < threadNumber
      invariant 0 <= i <= threadNumber && i <= startable
    {
      if i >= startable {
        return None;
      }
      i := i + 1;
    }
    var it := new ThreadPool(maxRequests);
    return Some(it);
  }

  const UINT_MAX := 0xFFFF_FFFF

  class ConnectionPool {
    var maxConn: nat
    var curConn: int
    var freeConn: int
    var connList: seq<nat>
    var reserve: nat

    function State(): ConnPool
      reads this
    {
      ConnPool(Free, reserve, connList, freeConn, curConn)
    }

    ghost predicate Valid()
      reads this
    {
      reserve == freeConn == |connList| && freeConn + curConn == maxConn && 0 <= curConn
    }

    /** The constructor and init() with connections that all open. */
    constructor (maxConn: nat)
      ensures Valid() && this.maxConn == maxConn && State() == Init(0, maxConn, 0, 0).pool
    {
      this.maxConn := maxConn;
      curConn, freeConn, connList, reserve := 0, 0, [], 0;
      new;
      var i := 0;
      while i < maxConn
        invariant 0 <= i <= maxConn == this.maxConn && connList == FirstConns(i) && freeConn == i && curConn == 0
      {
        connList := connList + [i];
        freeConn := freeConn + 1;
        i := i + 1;
      }
      reserve := freeConn;
      this.maxConn := freeConn;
    }

    method GetConnection() returns (con: Option<nat>)
      requires Valid()
      modifies this
      ensures Valid() && maxConn == old(maxConn)
      ensures (State(), con) == GetCall(old(State()))
      ensures con == None <==> old(curConn) == maxConn
      ensures con == None ==> State() == old(State())
      ensures con != None ==> old(connList) == [con.value] + connList && curConn == old(curConn) + 1
    {
      con := None;
      if |connList| == 0 {
        return None;
      }
      reserve := reserve - 1;
      con := Some(connList[0]);
      connList := connList[1..];
      freeConn := freeConn - 1;
      curConn := curConn + 1;
    }

    /** nullptr changes nothing. A connection that was never taken is accepted too: it ends up in
        the list, and the unsigned m_curConn wraps. */
    method ReleaseConnection(conn: Option<nat>) returns (ok: bool)
      requires Valid()
      modifies this
      ensures maxConn == old(maxConn) && (ok <==> conn != None)
      ensures conn == None ==> State() == old(State())
      ensures conn == None || old(curConn) > 0 ==> Valid() && (State(), ok) == PutCall(old(State()), conn)
      ensures conn != None ==> connList == old(connList) + [conn.value] && reserve == freeConn == |connList|
      ensures conn != None && old(curConn) == 0 ==> curConn == UINT_MAX && !Valid()
    {
      if conn == None {
        return false;
      }
      connList := connList + [conn.value];
      freeConn := freeConn + 1;
      curConn := if curConn == 0 then UINT_MAX else curConn - 1;
      reserve := reserve + 1;
      return true;
    }

    /** The scope of a connectionRAII around process(): what the destructor gives back is what the
        constructor took, so the pool is as before but for the order of the list. */
    method WithConnection() returns (con: Option<nat>)
      requires Valid()
      modifies this
      ensures Valid() && maxConn == old(maxConn) && reserve == old(reserve) && curConn == old(curConn)
      ensures con == None <==> old(connList) == []
      ensures con != None ==> connList == old(connList)[1..] + [con.value] && con.value == old(connList)[0]
      ensures con == None ==> State() == old(State())
    {
      con := GetConnection();
      var _ := ReleaseConnection(con);
    }
  }
}
