/** The worker pool of threadpool.h on top of the connection pool of sql_connection_pool.cpp,
    one atomic step per lock, wait, post, push and pop. */
module PoolMachine {
  import opened Locker
  import opened Wrappers

  /** What append_job is given: a pointer that may be null. */
  datatype Request = NullRequest | Request(id: nat)

  datatype Thread = WorkerThread(worker: nat) | ProducerThread(producer: nat)

  /** Program counter of a worker: the statement of run(), getConnection() or
      releaseConnection() it executes next. */
  datatype WorkerPc =
    | Wait           // m_queuestat.wait()
    | LockQueue      // m_queuelocker.lock()
    | TestEmpty      // if(m_workqueue.empty())
    | UnlockEmpty    // unlock, continue
    | PopJob         // front, pop_front
    | UnlockPopped   // m_queuelocker.unlock()
    | TestRequest    // if(!request)
    | ReadSize       // if(connList.size() == 0), read without the lock
    | WaitReserve    // reserve.wait()
    | LockGet        // lock.lock()
    | PopConn        // front, pop_front
    | CountGet       // --m_freeConn, ++m_curConn
    | UnlockGet      // lock.unlock()
    | Process        // request->process()
    | TestRelease    // if(conn == nullptr)
    | LockPut        // lock.lock()
    | PushConn       // connList.push_back(conn)
    | CountPut       // ++m_freeConn, --m_curConn
    | UnlockPut      // lock.unlock()
    | PostReserve    // reserve.post()

  /** conn is conRAII, the connection the worker's current scope will release. */
  datatype Worker = Worker(pc: WorkerPc, request: Request, conn: Option<nat>)

  /** Program counter of a thread calling append_job. */
  datatype ProducerPc =
    | Idle
    | LockAppend     // m_queuelocker.lock()
    | TestSize       // if(m_workqueue.size() > m_max_requests)
    | UnlockReject   // unlock, return false
    | PushJob        // push_back
    | UnlockPushed   // unlock
    | Post           // m_queuestat.post(), return true

  datatype Producer = Producer(pc: ProducerPc, request: Request)

  /** Fields of threadpool, and two histories: the requests pushed and popped, in order. */
  datatype WorkQueue = WorkQueue(
    locker: Mutex<Thread>, stat: nat, jobs: seq<Request>,
    accepted: seq<Request>, dispatched: seq<Request>)

  /** Fields of connection_pool. */
  datatype ConnPool = ConnPool(
    locker: Mutex<Thread>, reserve: nat, connList: seq<nat>, freeConn: int, curConn: int)

  /** Three more histories: the requests append_job was called with, those it turned away, and those
      process() was called on. */
  datatype Calls = Calls(submitted: seq<Request>, rejected: seq<Request>, processed: seq<Request>)

  datatype State = State(
    maxRequests: nat, maxConn: nat, calls: Calls,
    queue: WorkQueue, pool: ConnPool,
    workers: seq<Worker>, producers: seq<Producer>)

  /** One step of one thread on one shared object. */
  datatype Local<+L, +S> =
    | Go(thread: L, shared: S)
    | Stop       // has to wait
    | Undefined  // front() of an empty list

  datatype Outcome = Ran(state: State) | Blocked | Fault

  datatype Action =
    | Work(worker: nat)                            // one step of a worker
    | Append(producer: nat)                        // one step inside append_job
    | Submit(producer: nat, request: Request)      // a producer calls append_job

  /** The connections that connection_pool::init opens, by number. */
  function FirstConns(n: nat): seq<nat>
  {
    seq(n, c => c)
  }

  /** After connection_pool::init and the threadpool constructor: all connections are free,
      all workers are about to wait. */
  function Init(workers: nat, connections: nat, producers: nat, maxRequests: nat): State
  {
    State(maxRequests, connections, Calls([], [], []),
          WorkQueue(Free, 0, [], [], []),
          ConnPool(Free, connections, FirstConns(connections), connections, 0),
          seq(workers, _ => Worker(Wait, NullRequest, None)),
          seq(producers, _ => Producer(Idle, NullRequest)))
  }

  /** Statements of run() that touch the work queue. */
  predicate AtQueue(pc: WorkerPc)
  {
    pc.Wait? || pc.LockQueue? || pc.TestEmpty? || pc.UnlockEmpty? || pc.PopJob? || pc.UnlockPopped? || pc.TestRequest?
  }

  function RunStep(w: Worker, me: Thread, q: WorkQueue): Local<Worker, WorkQueue>
    requires AtQueue(w.pc)
  {
    match w.pc
    case Wait =>
      if q.stat == 0 then Stop else Go(w.(pc := LockQueue), q.(stat := q.stat - 1))
    case LockQueue =>
      if q.locker != Free then Stop else Go(w.(pc := TestEmpty), q.(locker := HeldBy(me)))
    case TestEmpty =>
      Go(w.(pc := if q.jobs == [] then UnlockEmpty else PopJob), q)
    case UnlockEmpty =>
      Go(w.(pc := Wait), q.(locker := Free))
    case PopJob =>
      if q.jobs == [] then Undefined
      else Go(w.(pc := UnlockPopped, request := q.jobs[0]),
              q.(jobs := q.jobs[1..], dispatched := q.dispatched + [q.jobs[0]]))
    case UnlockPopped =>
      Go(w.(pc := TestRequest), q.(locker := Free))
    case TestRequest =>
      Go(w.(pc := if w.request == NullRequest then Wait else ReadSize), q)
  }

  /** Statements of getConnection, process and releaseConnection. */
  function ConnStep(w: Worker, me: Thread, p: ConnPool): Local<Worker, ConnPool>
    requires !AtQueue(w.pc)
  {
    match w.pc
    case ReadSize =>
      Go(if |p.connList| == 0 then w.(pc := Process, conn := None) else w.(pc := WaitReserve), p)
    case WaitReserve =>
      if p.reserve == 0 then Stop else Go(w.(pc := LockGet), p.(reserve := p.reserve - 1))
    case LockGet =>
      if p.locker != Free then Stop else Go(w.(pc := PopConn), p.(locker := HeldBy(me)))
    case PopConn =>
      if p.connList == [] then Undefined
      else Go(w.(pc := CountGet, conn := Some(p.connList[0])), p.(connList := p.connList[1..]))
    case CountGet =>
      Go(w.(pc := UnlockGet), p.(freeConn := p.freeConn - 1, curConn := p.curConn + 1))
    case UnlockGet =>
      Go(w.(pc := Process), p.(locker := Free))
    case Process =>
      Go(w.(pc := TestRelease), p)
    case TestRelease =>
      Go(w.(pc := if w.conn == None then Wait else LockPut), p)
    case LockPut =>
      if p.locker != Free then Stop else Go(w.(pc := PushConn), p.(locker := HeldBy(me)))
    case PushConn =>
      if w.conn == None then Undefined
      else Go(w.(pc := CountPut), p.(connList := p.connList + [w.conn.value]))
    case CountPut =>
      Go(w.(pc := UnlockPut), p.(freeConn := p.freeConn + 1, curConn := p.curConn - 1))
    case UnlockPut =>
      Go(w.(pc := PostReserve), p.(locker := Free))
    case PostReserve =>
      Go(w.(pc := Wait, conn := None), p.(reserve := p.reserve + 1))
  }

  /** Statements of append_job. */
  function AppendStep(p: Producer, me: Thread, q: WorkQueue, maxRequests: nat): Local<Producer, WorkQueue>
  {
    match p.pc
    case Idle => Stop
    case LockAppend =>
      if q.locker != Free then Stop else Go(p.(pc := TestSize), q.(locker := HeldBy(me)))
    case TestSize =>
      Go(p.(pc := if |q.jobs| > maxRequests then UnlockReject else PushJob), q)
    case UnlockReject =>
      Go(p.(pc := Idle), q.(locker := Free))
    case PushJob =>
      Go(p.(pc := UnlockPushed), q.(jobs := q.jobs + [p.request], accepted := q.accepted + [p.request]))
    case UnlockPushed =>
      Go(p.(pc := Post), q.(locker := Free))
    case Post =>
      Go(p.(pc := Idle), q.(stat := q.stat + 1))
  }

  function WorkerStep(s: State, i: nat): Outcome
    requires i < |s.workers|
  {
    if AtQueue(s.workers[i].pc) then
      match RunStep(s.workers[i], WorkerThread(i), s.queue)
      case Go(w, q) => Ran(s.(queue := q, workers := s.workers[i := w]))
      case Stop => Blocked
      case Undefined => Fault
    else
      match ConnStep(s.workers[i], WorkerThread(i), s.pool)
      case Go(w, p) =>
        var calls := if s.workers[i].pc.Process? then
                       s.calls.(processed := s.calls.processed + [s.workers[i].request])
                     else s.calls;
        Ran(s.(pool := p, workers := s.workers[i := w], calls := calls))
      case Stop => Blocked
      case Undefined => Fault
  }

  function ProducerStep(s: State, j: nat): Outcome
    requires j < |s.producers|
  {
    match AppendStep(s.producers[j], ProducerThread(j), s.queue, s.maxRequests)
    case Go(p, q) =>
      var calls := if s.producers[j].pc.UnlockReject? then
                     s.calls.(rejected := s.calls.rejected + [s.producers[j].request])
                   else s.calls;
      Ran(s.(queue := q, producers := s.producers[j := p], calls := calls))
    case Stop => Blocked
    case Undefined => Fault
  }

  function Step(s: State, a: Action): Outcome
  {
    match a
    case Work(i) => if i < |s.workers| then WorkerStep(s, i) else Blocked
    case Append(j) => if j < |s.producers| then ProducerStep(s, j) else Blocked
    case Submit(j, r) =>
      if j < |s.producers| && s.producers[j].pc == Idle
      then Ran(s.(producers := s.producers[j := Producer(LockAppend, r)],
                  calls := s.calls.(submitted := s.calls.submitted + [r])))
      else Blocked
  }

  /** The run that takes the given actions in order; Blocked if one of them cannot be taken. */
  function Run(s: State, actions: seq<Action>): Outcome
  {
    if actions == [] then Ran(s)
    else
      var before := Run(s, actions[..|actions| - 1]);
      if before.Ran? then Step(before.state, actions[|actions| - 1]) else before
  }

  ghost predicate Reachable(s: State, workers: nat, connections: nat, producers: nat, maxRequests: nat)
  {
    exists actions :: Run(Init(workers, connections, producers, maxRequests), actions) == Ran(s)
  }
}
