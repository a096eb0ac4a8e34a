/** The asynchronous log: any number of threads in Log::write_log and any number of threads in
    async_write_log share one block_queue, one atomic step per lock, wait, broadcast, push, pop
    and file write. */
module LogMachine {
  import opened Locker

  datatype Thread = Writer(j: nat) | Flusher(i: nat)

  /** Next statement of a thread in write_log. */
  datatype WriterPc =
    | Idle
    | LockBuf        // m_mutex.lock()
    | Format         // snprintf, vsnprintf into m_buf
    | CopyBuf        // log_str = m_buf
    | UnlockBuf      // m_mutex.unlock(), then m_is_async is tested
    | LockFull       // full(): m_mutex.lock()
    | TestFull       // full(): m_size >= m_max_size
    | UnlockFull     // full(): m_mutex.unlock()
    | LockPush       // push(): m_mutex.lock()
    | TestPush       // push(): m_size >= m_max_size
    | BroadcastFull  // push(): m_cond.broadcast() with the queue full
    | UnlockDrop     // push(): m_mutex.unlock(), return false
    | StoreItem      // push(): m_array[m_back] = item, m_size++
    | Broadcast      // push(): m_cond.broadcast()
    | UnlockPush     // push(): m_mutex.unlock(), return true
    | LockFile       // m_mutex.lock()
    | PutLine        // fputs
    | UnlockFile     // m_mutex.unlock()

  /** msg is what the caller logs, line is log_str, full is what full() returned. */
  datatype WriterState = WriterState(pc: WriterPc, msg: nat, line: nat, full: bool)

  /** Next statement of a thread in async_write_log. */
  datatype FlusherPc =
    | LockPop        // pop(): m_mutex.lock()
    | TestEmpty      // pop(): while(m_size <= 0)
    | EnterWait      // pthread_cond_wait: release the mutex and sleep, in one step
    | Asleep         // inside pthread_cond_wait
    | Relock         // woken, pthread_cond_wait takes the mutex again
    | PopItem        // pop(): item = m_array[m_front], m_size--
    | UnlockPop      // pop(): m_mutex.unlock()
    | LockWrite      // m_mutex.lock()
    | PutItem        // fputs
    | UnlockWrite    // m_mutex.unlock()

  datatype FlusherState = FlusherState(pc: FlusherPc, item: nat)

  /** Fields of block_queue, and what went in, came out and was turned away so far. */
  datatype Queue = Queue(mutex: Mutex<Thread>, items: seq<nat>, pushed: seq<nat>, popped: seq<nat>, dropped: seq<nat>)

  /** A line of the file, and whether it came through the queue. */
  datatype Line = Line(msg: nat, queued: bool)

  /** m_mutex of Log, with the buffer and the file it protects. */
  datatype File = File(mutex: Mutex<Thread>, buf: nat, lines: seq<Line>)

  datatype State = State(
    isAsync: bool, capacity: nat,
    queue: Queue, file: File,
    writers: seq<WriterState>, flushers: seq<FlusherState>,
    logged: seq<nat>)

  /** One step of one thread on the queue; wakes says that it broadcast. */
  datatype Local<+L, +S> =
    | Go(thread: L, shared: S, wakes: bool)
    | Stop
    | Undefined  // reads an empty queue, or stores into a full one

  datatype Outcome = Ran(state: State) | Blocked | Fault

  datatype Action =
    | Write(j: nat)             // one step inside write_log
    | Flush(i: nat)             // one step of async_write_log
    | Log(j: nat, msg: nat)     // a thread calls write_log
    | Wakeup(i: nat)            // a spurious return of pthread_cond_wait

  function Init(isAsync: bool, capacity: nat, writers: nat, flushers: nat): State
  {
    State(isAsync, capacity,
          Queue(Free, [], [], [], []),
          File(Free, 0, []),
          seq(writers, _ => WriterState(Idle, 0, 0, false)),
          seq(flushers, _ => FlusherState(LockPop, 0)),
          [])
  }

  /** Statements of write_log outside the queue. */
  predicate WriterAtFile(pc: WriterPc)
  {
    pc.LockBuf? || pc.Format? || pc.CopyBuf? || pc.UnlockBuf? || pc.LockFile? || pc.PutLine? || pc.UnlockFile?
  }

  function WriterFileStep(w: WriterState, me: Thread, f: File, isAsync: bool): Local<WriterState, File>
    requires WriterAtFile(w.pc)
  {
    match w.pc
    case LockBuf =>
      if f.mutex != Free then Stop else Go(w.(pc := Format), f.(mutex := HeldBy(me)), false)
    case Format =>
      Go(w.(pc := CopyBuf), f.(buf := w.msg), false)
    case CopyBuf =>
      Go(w.(pc := UnlockBuf, line := f.buf), f, false)
    case UnlockBuf =>
      Go(w.(pc := if isAsync then LockFull else LockFile), f.(mutex := Free), false)
    case LockFile =>
      if f.mutex != Free then Stop else Go(w.(pc := PutLine), f.(mutex := HeldBy(me)), false)
    case PutLine =>
      Go(w.(pc := UnlockFile), f.(lines := f.lines + [Line(w.line, false)]), false)
    case UnlockFile =>
      Go(w.(pc := Idle), f.(mutex := Free), false)
  }

  function WriterQueueStep(w: WriterState, me: Thread, q: Queue, capacity: nat): Local<WriterState, Queue>
    requires !WriterAtFile(w.pc)
  {
    match w.pc
    case Idle => Stop
    case LockFull =>
      if q.mutex != Free then Stop else Go(w.(pc := TestFull), q.(mutex := HeldBy(me)), false)
    case TestFull =>
      Go(w.(pc := UnlockFull, full := |q.items| >= capacity), q, false)
    case UnlockFull =>
      Go(w.(pc := if w.full then LockFile else LockPush), q.(mutex := Free), false)
    case LockPush =>
      if q.mutex != Free then Stop else Go(w.(pc := TestPush), q.(mutex := HeldBy(me)), false)
    case TestPush =>
      Go(w.(pc := if |q.items| >= capacity then BroadcastFull else StoreItem), q, false)
    case BroadcastFull =>
      Go(w.(pc := UnlockDrop), q, true)
    case UnlockDrop =>
      Go(w.(pc := Idle), q.(mutex := Free, dropped := q.dropped + [w.line]), false)
    case StoreItem =>
      if |q.items| >= capacity then Undefined
      else Go(w.(pc := Broadcast), q.(items := q.items + [w.line], pushed := q.pushed + [w.line]), false)
    case Broadcast =>
      Go(w.(pc := UnlockPush), q, true)
    case UnlockPush =>
      Go(w.(pc := Idle), q.(mutex := Free), false)
  }

  predicate FlusherAtFile(pc: FlusherPc) { pc.LockWrite? || pc.PutItem? || pc.UnlockWrite? }

  function FlusherFileStep(w: FlusherState, me: Thread, f: File): Local<FlusherState, File>
    requires FlusherAtFile(w.pc)
  {
    match w.pc
    case LockWrite =>
      if f.mutex != Free then Stop else Go(w.(pc := PutItem), f.(mutex := HeldBy(me)), false)
    case PutItem =>
      Go(w.(pc := UnlockWrite), f.(lines := f.lines + [Line(w.item, true)]), false)
    case UnlockWrite =>
      Go(w.(pc := LockPop), f.(mutex := Free), false)
  }

  function FlusherQueueStep(w: FlusherState, me: Thread, q: Queue): Local<FlusherState, Queue>
    requires !FlusherAtFile(w.pc)
  {
    match w.pc
    case LockPop =>
      if q.mutex != Free then Stop else Go(w.(pc := TestEmpty), q.(mutex := HeldBy(me)), false)
    case TestEmpty =>
      Go(w.(pc := if q.items == [] then EnterWait else PopItem), q, false)
    case EnterWait =>
      Go(w.(pc := Asleep), q.(mutex := Free), false)
    case Asleep => Stop
    case Relock =>
      if q.mutex != Free then Stop else Go(w.(pc := TestEmpty), q.(mutex := HeldBy(me)), false)
    case PopItem =>
      if q.items == [] then Undefined
      else Go(w.(pc := UnlockPop, item := q.items[0]),
              q.(items := q.items[1..], popped := q.popped + [q.items[0]]), false)
    case UnlockPop =>
      Go(w.(pc := LockWrite), q.(mutex := Free), false)
  }

  function Woken(w: FlusherState): FlusherState
  {
    if w.pc.Asleep? then w.(pc := Relock) else w
  }

  /** pthread_cond_broadcast: everyone asleep in the wait goes for the mutex. */
  function WakeAll(ws: seq<FlusherState>): (r: seq<FlusherState>)
    ensures |r| == |ws| && forall i :: 0 <= i < |ws| ==> r[i] == Woken(ws[i])
  {
    if ws == [] then [] else WakeAll(ws[..|ws| - 1]) + [Woken(ws[|ws| - 1])]
  }

  function WriterStep(s: State, j: nat): Outcome
    requires j < |s.writers|
  {
    if WriterAtFile(s.writers[j].pc) then
      match WriterFileStep(s.writers[j], Writer(j), s.file, s.isAsync)
      case Go(w, f, _) => Ran(s.(file := f, writers := s.writers[j := w]))
      case Stop => Blocked
      case Undefined => Fault
    else
      match WriterQueueStep(s.writers[j], Writer(j), s.queue, s.capacity)
      case Go(w, q, wakes) =>
        Ran(s.(queue := q, writers := s.writers[j := w],
               flushers := if wakes then WakeAll(s.flushers) else s.flushers))
      case Stop => Blocked
      case Undefined => Fault
  }

  function FlusherStep(s: State, i: nat): Outcome
    requires i < |s.flushers|
  {
    if FlusherAtFile(s.flushers[i].pc) then
      match FlusherFileStep(s.flushers[i], Flusher(i), s.file)
      case Go(w, f, _) => Ran(s.(file := f, flushers := s.flushers[i := w]))
      case Stop => Blocked
      case Undefined => Fault
    else
      match FlusherQueueStep(s.flushers[i], Flusher(i), s.queue)
      case Go(w, q, _) => Ran(s.(queue := q, flushers := s.flushers[i := w]))
      case Stop => Blocked
      case Undefined => Fault
  }

  function Step(s: State, a: Action): Outcome
  {
    match a
    case Write(j) => if j < |s.writers| then WriterStep(s, j) else Blocked
    case Flush(i) => if i < |s.flushers| then FlusherStep(s, i) else Blocked
    case Log(j, msg) =>
      if j < |s.writers| && s.writers[j].pc.Idle?
      then Ran(s.(writers := s.writers[j := WriterState(LockBuf, msg, 0, false)], logged := s.logged + [msg]))
      else Blocked
    case Wakeup(i) =>
      if i < |s.flushers| && s.flushers[i].pc.Asleep?
      then Ran(s.(flushers := s.flushers[i := Woken(s.flushers[i])]))
      else Blocked
  }

  function Run(s: State, actions: seq<Action>): Outcome
  {
    if actions == [] then Ran(s)
    else
      var before := Run(s, actions[..|actions| - 1]);
      if before.Ran? then Step(before.state, actions[|actions| - 1]) else before
  }

  ghost predicate Reachable(s: State, isAsync: bool, capacity: nat, writers: nat, flushers: nat)
  {
    exists actions :: Run(Init(isAsync, capacity, writers, flushers), actions) == Ran(s)
  }
}
