/** What every step of the asynchronous log keeps, whatever the schedule. */
module LogSafety {
  import opened Locker
  import opened Counting
  import opened LogMachine

  // ----- Who is where -----

  predicate WriterInQueue(w: WriterState)
  {
    w.pc.TestFull? || w.pc.UnlockFull? || w.pc.TestPush? || w.pc.BroadcastFull? || w.pc.UnlockDrop?
    || w.pc.StoreItem? || w.pc.Broadcast? || w.pc.UnlockPush?
  }

  predicate FlusherInQueue(w: FlusherState) { w.pc.TestEmpty? || w.pc.EnterWait? || w.pc.PopItem? || w.pc.UnlockPop? }

  predicate WriterInFile(w: WriterState)
  {
    w.pc.Format? || w.pc.CopyBuf? || w.pc.UnlockBuf? || w.pc.PutLine? || w.pc.UnlockFile?
  }

  predicate FlusherInFile(w: FlusherState) { w.pc.PutItem? || w.pc.UnlockWrite? }

  /** log_str has been copied from the buffer. */
  predicate Copied(w: WriterState) { !w.pc.Idle? && !w.pc.LockBuf? && !w.pc.Format? && !w.pc.CopyBuf? }

  /** The message is neither in the queue, nor in the file, nor dropped yet. */
  predicate WriterCarries(w: WriterState)
  {
    !w.pc.Idle? && !w.pc.Broadcast? && !w.pc.UnlockPush? && !w.pc.UnlockFile?
  }

  predicate FlusherCarries(w: FlusherState) { w.pc.UnlockPop? || w.pc.LockWrite? || w.pc.PutItem? }

  function Is(m: nat): nat -> int { (x: nat) => if x == m then 1 else 0 }

  function IsLine(m: nat): Line -> int { (x: Line) => if x.msg == m then 1 else 0 }

  function WriterHas(m: nat): WriterState -> int
  {
    (w: WriterState) => if WriterCarries(w) && w.msg == m then 1 else 0
  }

  function FlusherHas(m: nat): FlusherState -> int
  {
    (w: FlusherState) => if FlusherCarries(w) && w.item == m then 1 else 0
  }

  /** Copies of message m on their way or arrived, dropped ones included. */
  function Accounted(s: State, m: nat): int
  {
    Sum(s.writers, WriterHas(m)) + Sum(s.queue.items, Is(m)) + Sum(s.flushers, FlusherHas(m))
    + Sum(s.file.lines, IsLine(m)) + Sum(s.queue.dropped, Is(m))
  }

  /** The lines that came through the queue, in file order. */
  function QueuedPart(lines: seq<Line>): seq<nat>
  {
    if lines == [] then []
    else
      var last := lines[|lines| - 1];
      QueuedPart(lines[..|lines| - 1]) + if last.queued then [last.msg] else []
  }

  // ----- The invariant -----

  /** The mutex names exactly the thread between lock and unlock. */
  ghost predicate MutexOk(mutex: Mutex<Thread>, ws: seq<WriterState>, fs: seq<FlusherState>,
                          writerIn: WriterState -> bool, flusherIn: FlusherState -> bool)
  {
    && (forall j :: 0 <= j < |ws| ==> (writerIn(ws[j]) <==> mutex == HeldBy(Writer(j))))
    && (forall i :: 0 <= i < |fs| ==> (flusherIn(fs[i]) <==> mutex == HeldBy(Flusher(i))))
    && (mutex.HeldBy? ==>
          match mutex.owner
          case Writer(j) => j < |ws|
          case Flusher(i) => i < |fs|)
  }

  ghost predicate MutexesOk(s: State)
  {
    && MutexOk(s.queue.mutex, s.writers, s.flushers, WriterInQueue, FlusherInQueue)
    && MutexOk(s.file.mutex, s.writers, s.flushers, WriterInFile, FlusherInFile)
  }

  /** A writer has stored an item and is about to broadcast; it still holds the mutex. */
  ghost predicate AboutToBroadcast(s: State)
  {
    && s.queue.mutex.HeldBy? && s.queue.mutex.owner.Writer?
    && s.queue.mutex.owner.j < |s.writers| && s.writers[s.queue.mutex.owner.j].pc.Broadcast?
  }

  ghost predicate QueueOk(s: State)
  {
    && s.queue.popped + s.queue.items == s.queue.pushed
    && |s.queue.items| <= s.capacity
    && (forall j :: 0 <= j < |s.writers| && s.writers[j].pc.StoreItem? ==> |s.queue.items| < s.capacity)
    && (forall i :: 0 <= i < |s.flushers| && s.flushers[i].pc.PopItem? ==> s.queue.items != [])
    && (forall i :: 0 <= i < |s.flushers| && s.flushers[i].pc.EnterWait? ==> s.queue.items == [])
    && (forall i :: 0 <= i < |s.flushers| && s.flushers[i].pc.Asleep? ==> s.queue.items == [] || AboutToBroadcast(s))
  }

  /** Every writer carries its own message although they share one buffer. */
  ghost predicate TextOk(s: State)
  {
    && (forall j :: 0 <= j < |s.writers| && s.writers[j].pc.CopyBuf? ==> s.file.buf == s.writers[j].msg)
    && (forall j :: 0 <= j < |s.writers| && Copied(s.writers[j]) ==> s.writers[j].line == s.writers[j].msg)
  }

  ghost predicate Conserved(s: State)
  {
    forall m: nat :: Sum(s.logged, Is(m)) == Accounted(s, m)
  }

  /** With one flush thread: what it took from the queue is in the file in that order, or in its hand. */
  ghost predicate OrderOk(s: State)
  {
    |s.flushers| == 1 ==>
      QueuedPart(s.file.lines) + (if FlusherCarries(s.flushers[0]) then [s.flushers[0].item] else [])
      == s.queue.popped
  }

  /** Between full() saying no and the push, with no one else pushing. */
  predicate SawRoom(w: WriterState)
  {
    (w.pc.UnlockFull? && !w.full) || w.pc.LockPush? || w.pc.TestPush?
  }

  /** With one writer nothing is turned away; in synchronous mode nobody asks the queue. */
  ghost predicate NoDrops(s: State)
  {
    && (|s.writers| <= 1 || !s.isAsync ==>
          && s.queue.dropped == []
          && forall j :: 0 <= j < |s.writers| ==> !s.writers[j].pc.BroadcastFull? && !s.writers[j].pc.UnlockDrop?)
    && (|s.writers| <= 1 ==>
          forall j :: 0 <= j < |s.writers| && SawRoom(s.writers[j]) ==> |s.queue.items| < s.capacity)
    && (!s.isAsync ==>
          forall j :: 0 <= j < |s.writers| ==> s.writers[j].pc.Idle? || WriterAtFile(s.writers[j].pc))
  }

  ghost predicate Inv(s: State)
  {
    MutexesOk(s) && QueueOk(s) && TextOk(s) && Conserved(s) && OrderOk(s) && NoDrops(s)
  }

  // ----- Mutexes -----

  lemma WriterMoves(mutex: Mutex<Thread>, ws: seq<WriterState>, fs: seq<FlusherState>,
                    writerIn: WriterState -> bool, flusherIn: FlusherState -> bool,
                    j: nat, mutex': Mutex<Thread>, w: WriterState)
    requires j < |ws| && MutexOk(mutex, ws, fs, writerIn, flusherIn)
    requires LockMove(mutex, mutex', Writer(j), writerIn(ws[j]), writerIn(w))
    ensures MutexOk(mutex', ws[j := w], fs, writerIn, flusherIn)
  {
  }

  lemma FlusherMoves(mutex: Mutex<Thread>, ws: seq<WriterState>, fs: seq<FlusherState>,
                     writerIn: WriterState -> bool, flusherIn: FlusherState -> bool,
                     i: nat, mutex': Mutex<Thread>, w: FlusherState)
    requires i < |fs| && MutexOk(mutex, ws, fs, writerIn, flusherIn)
    requires LockMove(mutex, mutex', Flusher(i), flusherIn(fs[i]), flusherIn(w))
    ensures MutexOk(mutex', ws, fs[i := w], writerIn, flusherIn)
  {
  }

  lemma WakingMoves(mutex: Mutex<Thread>, ws: seq<WriterState>, fs: seq<FlusherState>,
                    writerIn: WriterState -> bool, flusherIn: FlusherState -> bool)
    requires MutexOk(mutex, ws, fs, writerIn, flusherIn)
    requires forall w: FlusherState :: flusherIn(Woken(w)) == flusherIn(w)
    ensures MutexOk(mutex, ws, WakeAll(fs), writerIn, flusherIn)
  {
  }

  lemma WriterFileLock(w: WriterState, me: Thread, f: File, isAsync: bool)
    requires WriterAtFile(w.pc) && WriterFileStep(w, me, f, isAsync).Go?
    requires WriterInFile(w) ==> f.mutex == HeldBy(me)
    ensures var r := WriterFileStep(w, me, f, isAsync);
            && LockMove(f.mutex, r.shared.mutex, me, WriterInFile(w), WriterInFile(r.thread))
            && !WriterInQueue(w) && !WriterInQueue(r.thread) && !r.wakes
  {
  }

  lemma WriterQueueLock(w: WriterState, me: Thread, q: Queue, capacity: nat)
    requires !WriterAtFile(w.pc) && WriterQueueStep(w, me, q, capacity).Go?
    requires WriterInQueue(w) ==> q.mutex == HeldBy(me)
    ensures var r := WriterQueueStep(w, me, q, capacity);
            && LockMove(q.mutex, r.shared.mutex, me, WriterInQueue(w), WriterInQueue(r.thread))
            && !WriterInFile(w) && !WriterInFile(r.thread)
  {
  }

  lemma FlusherLocks(w: FlusherState, me: Thread, f: File, q: Queue)
    requires FlusherInFile(w) ==> f.mutex == HeldBy(me)
    requires FlusherInQueue(w) ==> q.mutex == HeldBy(me)
    ensures FlusherAtFile(w.pc) && FlusherFileStep(w, me, f).Go? ==>
              var r := FlusherFileStep(w, me, f);
              && LockMove(f.mutex, r.shared.mutex, me, FlusherInFile(w), FlusherInFile(r.thread))
              && !FlusherInQueue(w) && !FlusherInQueue(r.thread)
    ensures !FlusherAtFile(w.pc) && FlusherQueueStep(w, me, q).Go? ==>
              var r := FlusherQueueStep(w, me, q);
              && LockMove(q.mutex, r.shared.mutex, me, FlusherInQueue(w), FlusherInQueue(r.thread))
              && !FlusherInFile(w) && !FlusherInFile(r.thread)
  {
  }

  lemma WriterKeepsMutexes(s: State, j: nat)
    requires j < |s.writers| && MutexesOk(s) && WriterStep(s, j).Ran?
    ensures MutexesOk(WriterStep(s, j).state)
  {
    var t := WriterStep(s, j).state;
    var w := t.writers[j];
    if WriterAtFile(s.writers[j].pc) {
      WriterFileLock(s.writers[j], Writer(j), s.file, s.isAsync);
    } else {
      WriterQueueLock(s.writers[j], Writer(j), s.queue, s.capacity);
    }
    WriterMoves(s.queue.mutex, s.writers, s.flushers, WriterInQueue, FlusherInQueue, j, t.queue.mutex, w);
    WriterMoves(s.file.mutex, s.writers, s.flushers, WriterInFile, FlusherInFile, j, t.file.mutex, w);
    WakingMoves(t.queue.mutex, t.writers, s.flushers, WriterInQueue, FlusherInQueue);
    WakingMoves(t.file.mutex, t.writers, s.flushers, WriterInFile, FlusherInFile);
  }

  lemma FlusherKeepsMutexes(s: State, i: nat)
    requires i < |s.flushers| && MutexesOk(s) && FlusherStep(s, i).Ran?
    ensures MutexesOk(FlusherStep(s, i).state)
  {
    hide FlusherFileStep, FlusherQueueStep;
    var t := FlusherStep(s, i).state;
    var w := t.flushers[i];
    FlusherLocks(s.flushers[i], Flusher(i), s.file, s.queue);
    FlusherMoves(s.queue.mutex, s.writers, s.flushers, WriterInQueue, FlusherInQueue, i, t.queue.mutex, w);
    FlusherMoves(s.file.mutex, s.writers, s.flushers, WriterInFile, FlusherInFile, i, t.file.mutex, w);
  }

  // ----- Queue, buffer, drops -----

  lemma WriterKeepsQueue(s: State, j: nat)
    requires j < |s.writers| && MutexesOk(s) && QueueOk(s) && WriterStep(s, j).Ran?
    ensures QueueOk(WriterStep(s, j).state)
  {
    var t := WriterStep(s, j).state;
    if WriterAtFile(s.writers[j].pc) {
      assert t.queue == s.queue && t.flushers == s.flushers && !s.writers[j].pc.Broadcast?;
    }
  }

  lemma FlusherKeepsQueue(s: State, i: nat)
    requires i < |s.flushers| && MutexesOk(s) && QueueOk(s) && FlusherStep(s, i).Ran?
    ensures QueueOk(FlusherStep(s, i).state)
  {
  }

  lemma WriterKeepsText(s: State, j: nat)
    requires j < |s.writers| && MutexesOk(s) && TextOk(s) && WriterStep(s, j).Ran?
    ensures TextOk(WriterStep(s, j).state)
  {
  }

  lemma WriterKeepsNoDrops(s: State, j: nat)
    requires j < |s.writers| && NoDrops(s) && WriterStep(s, j).Ran?
    ensures NoDrops(WriterStep(s, j).state)
  {
  }

  lemma FlusherKeepsNoDrops(s: State, i: nat)
    requires i < |s.flushers| && NoDrops(s) && FlusherStep(s, i).Ran?
    ensures NoDrops(FlusherStep(s, i).state)
  {
  }

  // ----- Conservation and order -----

  lemma {:induction false} WakingCarries(fs: seq<FlusherState>, m: nat)
    ensures Sum(WakeAll(fs), FlusherHas(m)) == Sum(fs, FlusherHas(m))
  {
    if fs != [] {
      WakingCarries(fs[..|fs| - 1], m);
      assert WakeAll(fs)[..|fs| - 1] == WakeAll(fs[..|fs| - 1]);
    }
  }

  lemma WriterQueueCarries(w: WriterState, me: Thread, q: Queue, capacity: nat, m: nat)
    requires !WriterAtFile(w.pc) && WriterQueueStep(w, me, q, capacity).Go?
    requires Copied(w) ==> w.line == w.msg
    ensures var r := WriterQueueStep(w, me, q, capacity);
            WriterHas(m)(r.thread) + Sum(r.shared.items, Is(m)) + Sum(r.shared.dropped, Is(m))
            == WriterHas(m)(w) + Sum(q.items, Is(m)) + Sum(q.dropped, Is(m))
  {
    hide Sum;
    if w.pc.StoreItem? {
      SumAppend(q.items, w.line, Is(m));
    } else if w.pc.UnlockDrop? {
      SumAppend(q.dropped, w.line, Is(m));
    }
  }

  lemma WriterFileCarries(w: WriterState, me: Thread, f: File, isAsync: bool, m: nat)
    requires WriterAtFile(w.pc) && WriterFileStep(w, me, f, isAsync).Go?
    requires Copied(w) ==> w.line == w.msg
    ensures var r := WriterFileStep(w, me, f, isAsync);
            WriterHas(m)(r.thread) + Sum(r.shared.lines, IsLine(m)) == WriterHas(m)(w) + Sum(f.lines, IsLine(m))
  {
    hide Sum;
    if w.pc.PutLine? {
      SumAppend(f.lines, Line(w.line, false), IsLine(m));
    }
  }

  lemma WriterConserves(s: State, j: nat)
    requires j < |s.writers| && TextOk(s) && Conserved(s) && WriterStep(s, j).Ran?
    ensures Conserved(WriterStep(s, j).state)
  {
    var t := WriterStep(s, j).state;
    forall m: nat ensures Sum(t.logged, Is(m)) == Accounted(t, m) {
      assert Sum(s.logged, Is(m)) == Accounted(s, m);
      SumUpdate(s.writers, j, t.writers[j], WriterHas(m));
      WakingCarries(s.flushers, m);
      if WriterAtFile(s.writers[j].pc) {
        WriterFileCarries(s.writers[j], Writer(j), s.file, s.isAsync, m);
      } else {
        WriterQueueCarries(s.writers[j], Writer(j), s.queue, s.capacity, m);
      }
    }
  }

  lemma FlusherFileCarries(w: FlusherState, me: Thread, f: File, m: nat)
    requires FlusherAtFile(w.pc) && FlusherFileStep(w, me, f).Go?
    ensures var r := FlusherFileStep(w, me, f);
            FlusherHas(m)(r.thread) + Sum(r.shared.lines, IsLine(m)) == FlusherHas(m)(w) + Sum(f.lines, IsLine(m))
  {
    hide Sum;
    if w.pc.PutItem? {
      SumAppend(f.lines, Line(w.item, true), IsLine(m));
    }
  }

  lemma FlusherQueueCarries(w: FlusherState, me: Thread, q: Queue, m: nat)
    requires !FlusherAtFile(w.pc) && FlusherQueueStep(w, me, q).Go?
    ensures var r := FlusherQueueStep(w, me, q);
            && FlusherHas(m)(r.thread) + Sum(r.shared.items, Is(m)) == FlusherHas(m)(w) + Sum(q.items, Is(m))
            && r.shared.dropped == q.dropped
  {
    if w.pc.PopItem? {
      SumFront(q.items, Is(m));
    }
  }

  lemma FlusherConserves(s: State, i: nat)
    requires i < |s.flushers| && Conserved(s) && FlusherStep(s, i).Ran?
    ensures Conserved(FlusherStep(s, i).state)
  {
    var t := FlusherStep(s, i).state;
    forall m: nat ensures Sum(t.logged, Is(m)) == Accounted(t, m) {
      assert Sum(s.logged, Is(m)) == Accounted(s, m);
      SumUpdate(s.flushers, i, t.flushers[i], FlusherHas(m));
      if FlusherAtFile(s.flushers[i].pc) {
        FlusherFileCarries(s.flushers[i], Flusher(i), s.file, m);
      } else {
        FlusherQueueCarries(s.flushers[i], Flusher(i), s.queue, m);
      }
    }
  }

  lemma WriterKeepsOrder(s: State, j: nat)
    requires j < |s.writers| && OrderOk(s) && WriterStep(s, j).Ran?
    ensures OrderOk(WriterStep(s, j).state)
  {
    var w := s.writers[j];
    if w.pc.PutLine? {
      assert (s.file.lines + [Line(w.line, false)])[..|s.file.lines|] == s.file.lines;
    }
  }

  lemma FlusherKeepsOrder(s: State, i: nat)
    requires i < |s.flushers| && OrderOk(s) && FlusherStep(s, i).Ran?
    ensures OrderOk(FlusherStep(s, i).state)
  {
    var w := s.flushers[i];
    if w.pc.PutItem? {
      assert (s.file.lines + [Line(w.item, true)])[..|s.file.lines|] == s.file.lines;
    }
  }

  // ----- Every run -----

  lemma InitInv(isAsync: bool, capacity: nat, writers: nat, flushers: nat)
    ensures Inv(Init(isAsync, capacity, writers, flushers))
  {
    var s := Init(isAsync, capacity, writers, flushers);
    forall m: nat ensures Sum(s.logged, Is(m)) == Accounted(s, m) {
      SumZero(s.writers, WriterHas(m));
      SumZero(s.flushers, FlusherHas(m));
    }
  }

  lemma LogInv(s: State, j: nat, msg: nat)
    requires Inv(s) && Step(s, Log(j, msg)).Ran?
    ensures Inv(Step(s, Log(j, msg)).state)
  {
    hide Conserved, MutexesOk;
    LogKeepsMutexes(s, j, msg);
    LoggingConserves(s, j, msg);
  }

  lemma LogKeepsMutexes(s: State, j: nat, msg: nat)
    requires MutexesOk(s) && Step(s, Log(j, msg)).Ran?
    ensures MutexesOk(Step(s, Log(j, msg)).state)
  {
    hide MutexOk;
    var t := Step(s, Log(j, msg)).state;
    WriterMoves(s.queue.mutex, s.writers, s.flushers, WriterInQueue, FlusherInQueue, j, t.queue.mutex, t.writers[j]);
    WriterMoves(s.file.mutex, s.writers, s.flushers, WriterInFile, FlusherInFile, j, t.file.mutex, t.writers[j]);
  }

  lemma LoggingConserves(s: State, j: nat, msg: nat)
    requires Conserved(s) && Step(s, Log(j, msg)).Ran?
    ensures Conserved(Step(s, Log(j, msg)).state)
  {
    hide Sum;
    var t := Step(s, Log(j, msg)).state;
    forall m: nat ensures Sum(t.logged, Is(m)) == Accounted(t, m) {
      assert Sum(s.logged, Is(m)) == Accounted(s, m);
      SumUpdate(s.writers, j, t.writers[j], WriterHas(m));
      SumAppend(s.logged, msg, Is(m));
    }
  }

  lemma WakeupInv(s: State, i: nat)
    requires Inv(s) && Step(s, Wakeup(i)).Ran?
    ensures Inv(Step(s, Wakeup(i)).state)
  {
    var t := Step(s, Wakeup(i)).state;
    FlusherMoves(s.queue.mutex, s.writers, s.flushers, WriterInQueue, FlusherInQueue, i, t.queue.mutex, t.flushers[i]);
    FlusherMoves(s.file.mutex, s.writers, s.flushers, WriterInFile, FlusherInFile, i, t.file.mutex, t.flushers[i]);
    forall m: nat ensures Sum(t.logged, Is(m)) == Accounted(t, m) {
      assert Sum(s.logged, Is(m)) == Accounted(s, m);
      SumUpdate(s.flushers, i, t.flushers[i], FlusherHas(m));
    }
  }

  /** Every step, a spurious wakeup included, keeps the invariant; none reads an empty queue
      or stores into a full one. */
  lemma StepInv(s: State, a: Action)
    requires Inv(s)
    ensures Step(s, a) != Fault
    ensures Step(s, a).Ran? ==> Inv(Step(s, a).state)
  {
    if Step(s, a).Ran? {
      match a
      case Write(j) =>
        WriterKeepsMutexes(s, j);
        WriterKeepsQueue(s, j);
        WriterKeepsText(s, j);
        WriterConserves(s, j);
        WriterKeepsOrder(s, j);
        WriterKeepsNoDrops(s, j);
      case Flush(i) =>
        FlusherKeepsMutexes(s, i);
        FlusherKeepsQueue(s, i);
        FlusherConserves(s, i);
        FlusherKeepsOrder(s, i);
        FlusherKeepsNoDrops(s, i);
      case Log(j, msg) => LogInv(s, j, msg);
      case Wakeup(i) => WakeupInv(s, i);
    }
  }

  lemma {:induction false} RunInv(s: State, actions: seq<Action>)
    requires Inv(s)
    ensures Run(s, actions) != Fault
    ensures Run(s, actions).Ran? ==> Inv(Run(s, actions).state)
  {
    if actions != [] {
      var last := |actions| - 1;
      RunInv(s, actions[..last]);
      var before := Run(s, actions[..last]);
      if before.Ran? {
        StepInv(before.state, actions[last]);
      }
    }
  }

  lemma {:induction false} RunKeepsSizes(s: State, actions: seq<Action>)
    requires Run(s, actions).Ran?
    ensures var t := Run(s, actions).state;
            && |t.writers| == |s.writers| && |t.flushers| == |s.flushers|
            && t.capacity == s.capacity && t.isAsync == s.isAsync
  {
    if actions != [] {
      RunKeepsSizes(s, actions[..|actions| - 1]);
    }
  }

  lemma ReachableInv(s: State, isAsync: bool, capacity: nat, writers: nat, flushers: nat)
    requires Reachable(s, isAsync, capacity, writers, flushers)
    ensures Inv(s)
    ensures |s.writers| == writers && |s.flushers| == flushers && s.capacity == capacity && s.isAsync == isAsync
  {
    var init := Init(isAsync, capacity, writers, flushers);
    var actions :| Run(init, actions) == Ran(s);
    InitInv(isAsync, capacity, writers, flushers);
    RunInv(init, actions);
    RunKeepsSizes(init, actions);
  }
}
