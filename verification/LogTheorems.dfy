/** What the invariant of the asynchronous log means for every run. */
module LogTheorems {
  import opened Locker
  import opened Counting
  import opened LogMachine
  import opened LogSafety

  // ----- The queue -----

  /** No lost wakeup, spurious returns included: a thread sleeps in pop() only while the queue is
      empty or the writer that filled it is just about to broadcast; whoever gets past the
      wait loop finds an item; nothing is stored over the capacity; items leave in push order. */
  lemma NoLostWakeup(s: State, isAsync: bool, capacity: nat, writers: nat, flushers: nat)
    requires Reachable(s, isAsync, capacity, writers, flushers)
    ensures forall i :: 0 <= i < |s.flushers| && s.flushers[i].pc.Asleep? ==>
              s.queue.items == [] || AboutToBroadcast(s)
    ensures s.queue.mutex == Free && s.queue.items != [] ==>
              forall i :: 0 <= i < |s.flushers| ==> !s.flushers[i].pc.Asleep?
    ensures forall i :: 0 <= i < |s.flushers| && s.flushers[i].pc.PopItem? ==> s.queue.items != []
    ensures |s.queue.items| <= capacity
    ensures s.queue.popped + s.queue.items == s.queue.pushed
    ensures forall a :: Step(s, a) != Fault
  {
    ReachableInv(s, isAsync, capacity, writers, flushers);
    forall a ensures Step(s, a) != Fault {
      StepInv(s, a);
    }
  }

  // ----- The messages -----

  /** No message is in the file, the queue and threads' hands together more often than it was
      logged, and what is missing was dropped by a push on a full queue. */
  lemma LogConserves(s: State, isAsync: bool, capacity: nat, writers: nat, flushers: nat, m: nat)
    requires Reachable(s, isAsync, capacity, writers, flushers)
    ensures Accounted(s, m) == Sum(s.logged, Is(m))
    ensures Sum(s.file.lines, IsLine(m)) + Sum(s.queue.items, Is(m)) <= Sum(s.logged, Is(m))
    ensures writers <= 1 || !isAsync ==> s.queue.dropped == []
  {
    ReachableInv(s, isAsync, capacity, writers, flushers);
    assert Sum(s.logged, Is(m)) == Accounted(s, m);
    SumBounds(s.writers, WriterHas(m));
    SumBounds(s.flushers, FlusherHas(m));
    SumBounds(s.queue.dropped, Is(m));
  }

  /** The one flush thread writes the queued messages in push order: the file, what is in its hand
      and the queue make up exactly what was pushed. */
  lemma FileFollowsPushOrder(s: State, isAsync: bool, capacity: nat, writers: nat)
    requires Reachable(s, isAsync, capacity, writers, 1)
    ensures |s.flushers| == 1
    ensures QueuedPart(s.file.lines)
            + (if FlusherCarries(s.flushers[0]) then [s.flushers[0].item] else [])
            + s.queue.items
            == s.queue.pushed
  {
    ReachableInv(s, isAsync, capacity, writers, 1);
  }

  // ----- No deadlock, no livelock -----

  /** Nobody can take a step, except a new call of write_log or a spurious wakeup. */
  ghost predicate Stuck(s: State)
  {
    && (forall j :: 0 <= j < |s.writers| ==> WriterStep(s, j) == Blocked)
    && (forall i :: 0 <= i < |s.flushers| ==> FlusherStep(s, i) == Blocked)
  }

  ghost predicate AllParked(s: State)
  {
    && (forall j :: 0 <= j < |s.writers| ==> s.writers[j].pc.Idle?)
    && (forall i :: 0 <= i < |s.flushers| ==> s.flushers[i].pc.Asleep?)
  }

  lemma WriterOwnerCanStep(s: State, j: nat)
    requires j < |s.writers| && (WriterInQueue(s.writers[j]) || WriterInFile(s.writers[j]))
    ensures WriterStep(s, j) != Blocked
  {
  }

  lemma FlusherOwnerCanStep(s: State, i: nat)
    requires i < |s.flushers| && (FlusherInQueue(s.flushers[i]) || FlusherInFile(s.flushers[i]))
    ensures FlusherStep(s, i) != Blocked
  {
  }

  lemma StuckMutexesFree(s: State)
    requires Inv(s) && Stuck(s)
    ensures s.queue.mutex == Free && s.file.mutex == Free
  {
    if s.queue.mutex.HeldBy? {
      match s.queue.mutex.owner
      case Writer(j) => WriterOwnerCanStep(s, j);
      case Flusher(i) => FlusherOwnerCanStep(s, i);
    }
    if s.file.mutex.HeldBy? {
      match s.file.mutex.owner
      case Writer(j) => WriterOwnerCanStep(s, j);
      case Flusher(i) => FlusherOwnerCanStep(s, i);
    }
  }

  /** Everything stops only when every write_log has returned, every flush thread sleeps and the
      queue is empty; then each message is in the file as often as it was logged, less the drops. */
  lemma StuckOnlyWhenFlushed(s: State, isAsync: bool, capacity: nat, writers: nat, flushers: nat, m: nat)
    requires flushers > 0
    requires Reachable(s, isAsync, capacity, writers, flushers)
    ensures Stuck(s) <==> AllParked(s)
    ensures Stuck(s) ==>
              && s.queue.items == []
              && Sum(s.file.lines, IsLine(m)) + Sum(s.queue.dropped, Is(m)) == Sum(s.logged, Is(m))
  {
    ReachableInv(s, isAsync, capacity, writers, flushers);
    if Stuck(s) {
      StuckMutexesFree(s);
      forall j | 0 <= j < |s.writers| ensures s.writers[j].pc.Idle? {
        assert WriterStep(s, j) == Blocked;
      }
      forall i | 0 <= i < |s.flushers| ensures s.flushers[i].pc.Asleep? {
        assert FlusherStep(s, i) == Blocked;
      }
      assert s.flushers[0].pc.Asleep?;
      SumZero(s.writers, WriterHas(m));
      SumZero(s.flushers, FlusherHas(m));
      assert Sum(s.logged, Is(m)) == Accounted(s, m);
    }
  }

  /** Steps a flush thread needs to sleep again if it finds the queue empty. */
  function FlusherRank(w: FlusherState): int
  {
    match w.pc
    case Asleep => 0
    case EnterWait => 1
    case PopItem => 1
    case TestEmpty => 2
    case LockPop => 3
    case Relock => 3
    case UnlockWrite => 4
    case PutItem => 5
    case LockWrite => 6
    case UnlockPop => 7
  }

  /** Steps a writer needs, and those that its item and its broadcast cause. */
  function WriterRank(flushers: nat): WriterState -> int
  {
    (w: WriterState) =>
      match w.pc
      case Idle => 0
      case UnlockFile => 1
      case PutLine => 2
      case LockFile => 3
      case UnlockPush => 1
      case UnlockDrop => 1
      case Broadcast => 3 * flushers + 2
      case BroadcastFull => 3 * flushers + 2
      case StoreItem => 3 * flushers + 10
      case TestPush => 3 * flushers + 11
      case LockPush => 3 * flushers + 12
      case UnlockFull => 3 * flushers + 13
      case TestFull => 3 * flushers + 14
      case LockFull => 3 * flushers + 15
      case UnlockBuf => 3 * flushers + 16
      case CopyBuf => 3 * flushers + 17
      case Format => 3 * flushers + 18
      case LockBuf => 3 * flushers + 19
  }

  /** Steps left if nobody logs and nobody wakes up by accident. */
  function StepsLeft(s: State): int
  {
    Sum(s.writers, WriterRank(|s.flushers|)) + Sum(s.flushers, FlusherRank) + 7 * |s.queue.items|
  }

  lemma {:induction false} WakingCosts(fs: seq<FlusherState>)
    ensures Sum(WakeAll(fs), FlusherRank) <= Sum(fs, FlusherRank) + 3 * |fs|
  {
    if fs != [] {
      WakingCosts(fs[..|fs| - 1]);
      assert WakeAll(fs)[..|fs| - 1] == WakeAll(fs[..|fs| - 1]);
    }
  }

  lemma WriterQueueUses(w: WriterState, me: Thread, q: Queue, capacity: nat, n: nat)
    requires !WriterAtFile(w.pc) && WriterQueueStep(w, me, q, capacity).Go?
    ensures var r := WriterQueueStep(w, me, q, capacity);
            WriterRank(n)(r.thread) + 7 * |r.shared.items| + (if r.wakes then 3 * n else 0)
            <= WriterRank(n)(w) + 7 * |q.items| - 1
  {
  }

  lemma WriterFileUses(w: WriterState, me: Thread, f: File, isAsync: bool, n: nat)
    requires WriterAtFile(w.pc) && WriterFileStep(w, me, f, isAsync).Go?
    ensures WriterRank(n)(WriterFileStep(w, me, f, isAsync).thread) <= WriterRank(n)(w) - 1
  {
  }

  lemma WriterUsesUp(s: State, j: nat)
    requires j < |s.writers| && WriterStep(s, j).Ran?
    ensures StepsLeft(WriterStep(s, j).state) <= StepsLeft(s) - 1
  {
    hide WriterFileStep, WriterQueueStep, WriterRank;
    var n := |s.flushers|;
    SumUpdate(s.writers, j, WriterStep(s, j).state.writers[j], WriterRank(n));
    if WriterAtFile(s.writers[j].pc) {
      WriterFileUses(s.writers[j], Writer(j), s.file, s.isAsync, n);
    } else {
      WriterQueueUses(s.writers[j], Writer(j), s.queue, s.capacity, n);
      WakingCosts(s.flushers);
    }
  }

  lemma FlusherUsesUp(s: State, i: nat)
    requires i < |s.flushers| && FlusherStep(s, i).Ran?
    ensures StepsLeft(FlusherStep(s, i).state) <= StepsLeft(s) - 1
  {
    SumUpdate(s.flushers, i, FlusherStep(s, i).state.flushers[i], FlusherRank);
  }

  function Logs(actions: seq<Action>): nat
  {
    if actions == [] then 0
    else Logs(actions[..|actions| - 1]) + if actions[|actions| - 1].Log? then 1 else 0
  }

  function Wakeups(actions: seq<Action>): nat
  {
    if actions == [] then 0
    else Wakeups(actions[..|actions| - 1]) + if actions[|actions| - 1].Wakeup? then 1 else 0
  }

  lemma StepUsesUp(s: State, a: Action)
    requires Step(s, a).Ran?
    ensures StepsLeft(Step(s, a).state) + 1
            <= StepsLeft(s) + (if a.Log? then 3 * |s.flushers| + 20 else if a.Wakeup? then 4 else 0)
  {
    var t := Step(s, a).state;
    match a
    case Write(j) => WriterUsesUp(s, j);
    case Flush(i) => FlusherUsesUp(s, i);
    case Log(j, _) => SumUpdate(s.writers, j, t.writers[j], WriterRank(|s.flushers|));
    case Wakeup(i) => SumUpdate(s.flushers, i, t.flushers[i], FlusherRank);
  }

  lemma {:induction false} RunUsesUp(s: State, actions: seq<Action>, perLog: nat)
    requires Run(s, actions).Ran? && perLog == 3 * |s.flushers| + 20
    ensures StepsLeft(Run(s, actions).state) + |actions|
            <= StepsLeft(s) + perLog * Logs(actions) + 4 * Wakeups(actions)
  {
    if actions != [] {
      var last := |actions| - 1;
      RunUsesUp(s, actions[..last], perLog);
      RunKeepsSizes(s, actions[..last]);
      StepUsesUp(Run(s, actions[..last]).state, actions[last]);
      if actions[last].Log? {
        assert perLog * (Logs(actions[..last]) + 1) == perLog * Logs(actions[..last]) + perLog;
      }
    }
  }

  lemma {:induction false} RanksStart(fs: seq<FlusherState>)
    requires forall i :: 0 <= i < |fs| ==> fs[i].pc.LockPop?
    ensures Sum(fs, FlusherRank) == 3 * |fs|
  {
    if fs != [] {
      RanksStart(fs[..|fs| - 1]);
    }
  }

  lemma StartsSmall(isAsync: bool, capacity: nat, writers: nat, flushers: nat)
    ensures StepsLeft(Init(isAsync, capacity, writers, flushers)) == 3 * flushers
  {
    var s := Init(isAsync, capacity, writers, flushers);
    SumZero(s.writers, WriterRank(flushers));
    RanksStart(s.flushers);
  }

  lemma StepsLeftNonNegative(s: State)
    ensures StepsLeft(s) >= 0
  {
    SumNonNegative(s.writers, WriterRank(|s.flushers|));
    SumNonNegative(s.flushers, FlusherRank);
  }

  /** No livelock: each logged message causes a bounded number of steps in the whole program,
      and so does each spurious wakeup. */
  lemma EveryRunIsShort(actions: seq<Action>, isAsync: bool, capacity: nat, writers: nat, flushers: nat)
    requires Run(Init(isAsync, capacity, writers, flushers), actions).Ran?
    ensures |actions| <= 3 * flushers + (3 * flushers + 20) * Logs(actions) + 4 * Wakeups(actions)
  {
    var s := Init(isAsync, capacity, writers, flushers);
    StartsSmall(isAsync, capacity, writers, flushers);
    RunUsesUp(s, actions, 3 * flushers + 20);
    StepsLeftNonNegative(Run(s, actions).state);
  }
}
