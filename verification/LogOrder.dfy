/** The order of lines: what one thread logs reaches queue and file in the order of its calls, and
    a call that nobody interrupts does what Log::write_log is for. */
module LogOrder {
  import opened Locker
  import opened Counting
  import opened LogMachine
  import opened LogSafety
  import opened LogDrops

  // ----- Histories -----

  /** The file and the histories are written at their ends only. */
  predicate Grows(s: State, t: State)
  {
    && s.file.lines <= t.file.lines && s.logged <= t.logged
    && s.queue.pushed <= t.queue.pushed && s.queue.popped <= t.queue.popped && s.queue.dropped <= t.queue.dropped
  }

  lemma StepGrows(s: State, a: Action)
    requires Step(s, a).Ran?
    ensures Grows(s, Step(s, a).state)
  {
  }

  // ----- One writer -----

  /** The lines that went past the queue, in file order. */
  function DirectPart(lines: seq<Line>): seq<nat>
  {
    if lines == [] then []
    else
      var last := lines[|lines| - 1];
      DirectPart(lines[..|lines| - 1]) + if last.queued then [] else [last.msg]
  }

  lemma DirectAppends(lines: seq<Line>, x: Line)
    ensures DirectPart(lines + [x]) == if x.queued then DirectPart(lines) else DirectPart(lines) + [x.msg]
  {
    assert (lines + [x])[..|lines|] == lines;
  }

  /** With one writer, queue and file got what it logged, in that order, but for the message it is
      still carrying. */
  ghost predicate CallOrder(s: State)
  {
    |s.writers| == 1 ==>
      if WriterCarries(s.writers[0]) then
        && s.logged != [] && s.logged[|s.logged| - 1] == s.writers[0].msg
        && Merges(s.queue.pushed, DirectPart(s.file.lines), s.logged[..|s.logged| - 1])
      else
        Merges(s.queue.pushed, DirectPart(s.file.lines), s.logged)
  }

  /** A synchronous log does not touch the queue. */
  ghost predicate QueueUnused(s: State)
  {
    !s.isAsync ==>
      && s.queue.pushed == [] && DirectOnly(s.file.lines)
      && forall i :: 0 <= i < |s.flushers| ==> !FlusherCarries(s.flushers[i])
  }

  predicate DirectOnly(lines: seq<Line>) { forall k :: 0 <= k < |lines| ==> !lines[k].queued }

  lemma WriterKeepsCallOrder(s: State, j: nat)
    requires j < |s.writers| && WriterStep(s, j).Ran? && TextOk(s) && NoDrops(s) && CallOrder(s)
    ensures CallOrder(WriterStep(s, j).state)
  {
    hide Merges, DirectPart;
    var w, c := s.writers[j], s.logged;
    if |s.writers| == 1 && WriterCarries(w) {
      assert c == c[..|c| - 1] + [w.msg];
      MergesMore(s.queue.pushed, DirectPart(s.file.lines), c[..|c| - 1], w.msg);
      DirectAppends(s.file.lines, Line(w.line, false));
    }
  }

  lemma WriterKeepsQueueUnused(s: State, j: nat)
    requires j < |s.writers| && WriterStep(s, j).Ran? && NoDrops(s) && QueueUnused(s)
    ensures QueueUnused(WriterStep(s, j).state)
  {
  }

  lemma FlusherKeepsCallOrder(s: State, i: nat)
    requires i < |s.flushers| && FlusherStep(s, i).Ran? && QueueOk(s) && CallOrder(s) && QueueUnused(s)
    ensures CallOrder(FlusherStep(s, i).state) && QueueUnused(FlusherStep(s, i).state)
  {
    hide Merges, DirectPart;
    DirectAppends(s.file.lines, Line(s.flushers[i].item, true));
    assert |s.queue.pushed| == |s.queue.popped| + |s.queue.items|;
  }

  lemma LogKeepsCallOrder(s: State, j: nat, msg: nat)
    requires Step(s, Log(j, msg)).Ran? && CallOrder(s) && QueueUnused(s)
    ensures CallOrder(Step(s, Log(j, msg)).state) && QueueUnused(Step(s, Log(j, msg)).state)
  {
    hide Merges;
    assert (s.logged + [msg])[..|s.logged|] == s.logged;
  }

  lemma {:induction false} RunCallOrder(isAsync: bool, capacity: nat, writers: nat, flushers: nat, actions: seq<Action>)
    requires Run(Init(isAsync, capacity, writers, flushers), actions).Ran?
    ensures var s := Run(Init(isAsync, capacity, writers, flushers), actions).state;
            CallOrder(s) && QueueUnused(s)
  {
    hide WriterStep, FlusherStep, CallOrder, QueueUnused, Inv;
    var init := Init(isAsync, capacity, writers, flushers);
    if actions == [] {
      assert CallOrder(init) && QueueUnused(init) by { InitCallOrder(isAsync, capacity, writers, flushers); }
    } else {
      var last := |actions| - 1;
      RunCallOrder(isAsync, capacity, writers, flushers, actions[..last]);
      var s := Run(init, actions[..last]).state;
      assert Reachable(s, isAsync, capacity, writers, flushers);
      ReachableInv(s, isAsync, capacity, writers, flushers);
      StepKeepsCallOrder(s, actions[last]);
    }
  }

  lemma InitCallOrder(isAsync: bool, capacity: nat, writers: nat, flushers: nat)
    ensures var s := Init(isAsync, capacity, writers, flushers); CallOrder(s) && QueueUnused(s)
  {
  }

  lemma StepKeepsCallOrder(s: State, a: Action)
    requires Inv(s) && CallOrder(s) && QueueUnused(s) && Step(s, a).Ran?
    ensures CallOrder(Step(s, a).state) && QueueUnused(Step(s, a).state)
  {
    hide Merges, DirectPart, WriterStep, FlusherStep;
    match a
    case Write(j) =>
      WriterKeepsCallOrder(s, j);
      WriterKeepsQueueUnused(s, j);
    case Flush(i) => FlusherKeepsCallOrder(s, i);
    case Log(j, msg) => LogKeepsCallOrder(s, j, msg);
    case Wakeup(_) =>
  }

  /** What one thread logs goes, in the order of its calls, to the queue or to the end of the file;
      the flush thread takes the queue in order (FileFollowsPushOrder). */
  lemma OneWriterInOrder(s: State, isAsync: bool, capacity: nat, flushers: nat)
    requires Reachable(s, isAsync, capacity, 1, flushers)
    ensures |s.writers| == 1 && CallOrder(s)
  {
    ReachableInv(s, isAsync, capacity, 1, flushers);
    var actions :| Run(Init(isAsync, capacity, 1, flushers), actions) == Ran(s);
    RunCallOrder(isAsync, capacity, 1, flushers, actions);
  }

  function Messages(lines: seq<Line>): (r: seq<nat>)
    ensures |r| == |lines| && forall k :: 0 <= k < |r| ==> r[k] == lines[k].msg
  {
    seq(|lines|, (k: int) requires 0 <= k < |lines| => lines[k].msg)
  }

  lemma {:induction false} DirectIsAll(lines: seq<Line>)
    requires DirectOnly(lines)
    ensures DirectPart(lines) == Messages(lines)
  {
    if lines != [] {
      DirectIsAll(lines[..|lines| - 1]);
      assert Messages(lines) == Messages(lines[..|lines| - 1]) + [lines[|lines| - 1].msg];
    }
  }

  lemma {:induction false} MergesOne<T>(b: seq<T>, c: seq<T>)
    requires Merges([], b, c)
    ensures b == c
    decreases |c|
  {
    if c != [] {
      MergesOne(b[..|b| - 1], c[..|c| - 1]);
      assert b == b[..|b| - 1] + [b[|b| - 1]] && c == c[..|c| - 1] + [c[|c| - 1]];
    }
  }

  lemma SyncOrder(s: State)
    requires CallOrder(s) && QueueUnused(s) && |s.writers| == 1 && !s.isAsync
    ensures Messages(s.file.lines) + (if WriterCarries(s.writers[0]) then [s.writers[0].msg] else []) == s.logged
  {
    hide Merges, DirectPart, Messages, WriterCarries, FlusherCarries;
    var c := s.logged;
    DirectIsAll(s.file.lines);
    if WriterCarries(s.writers[0]) {
      MergesOne(Messages(s.file.lines), c[..|c| - 1]);
    } else {
      MergesOne(Messages(s.file.lines), c);
    }
  }

  /** The file of a synchronous log that one thread writes is what it logged, in order. */
  lemma SyncFileIsLog(s: State, capacity: nat, flushers: nat)
    requires Reachable(s, false, capacity, 1, flushers)
    ensures |s.writers| == 1
    ensures Messages(s.file.lines) + (if WriterCarries(s.writers[0]) then [s.writers[0].msg] else []) == s.logged
  {
    hide CallOrder, QueueUnused, Run;
    ReachableInv(s, false, capacity, 1, flushers);
    var actions :| Run(Init(false, capacity, 1, flushers), actions) == Ran(s);
    RunCallOrder(false, capacity, 1, flushers, actions);
    SyncOrder(s);
  }

  // ----- Calls that nobody interrupts -----

  /** The steps of write_log with both mutexes free add up to the message at the end of the queue if
      the log is asynchronous and the queue has room, else at the end of the file. */
  lemma WriteAlone(s: State, j: nat, msg: nat) returns (actions: seq<Action>, t: State)
    requires j < |s.writers| && s.writers[j].pc.Idle? && s.queue.mutex == s.file.mutex == Free
    ensures Run(s, actions) == Ran(t)
    ensures t.queue.mutex == t.file.mutex == Free && j < |t.writers| && t.writers[j].pc.Idle?
    ensures if s.isAsync && |s.queue.items| < s.capacity then
              t.queue.items == s.queue.items + [msg] && t.file.lines == s.file.lines
            else
              t.queue.items == s.queue.items && t.file.lines == s.file.lines + [Line(msg, false)]
  {
    hide Run, Step;
    assert Run(s, []) == Ran(s) by { EmptyRun(s); }
    actions, t := CalledAndCopied(s, j, msg);
    if s.isAsync {
      actions, t := AskedFull(s, actions, t, j);
    }
    if s.isAsync && |s.queue.items| < s.capacity {
      actions, t := PushAlone(s, actions, t, j);
    } else {
      actions, t := FileStep(s, actions, t, j);
      actions, t := FileStep(s, actions, t, j);
      actions, t := FileStep(s, actions, t, j);
    }
  }

  lemma EmptyRun(s: State)
    ensures Run(s, []) == Ran(s)
  {
  }

  lemma CalledAndCopied(s: State, j: nat, msg: nat) returns (actions: seq<Action>, t: State)
    requires j < |s.writers| && s.writers[j].pc.Idle? && s.file.mutex == Free
    ensures Run(s, actions) == Ran(t)
    ensures |t.writers| == |s.writers|
    ensures t.writers[j].pc == (if s.isAsync then LockFull else LockFile) && t.writers[j].line == msg
    ensures t.queue == s.queue && t.file.mutex == Free && t.file.lines == s.file.lines
    ensures t.isAsync == s.isAsync && t.capacity == s.capacity
  {
    hide Run;
    assert Run(s, []) == Ran(s) by { EmptyRun(s); }
    actions, t := Then(s, [], s, Log(j, msg));
    actions, t := FileStep(s, actions, t, j);
    actions, t := FileStep(s, actions, t, j);
    actions, t := FileStep(s, actions, t, j);
    actions, t := FileStep(s, actions, t, j);
  }

  lemma AskedFull(init: State, before: seq<Action>, s: State, j: nat) returns (actions: seq<Action>, t: State)
    requires Run(init, before) == Ran(s)
    requires j < |s.writers| && s.writers[j].pc.LockFull? && s.queue.mutex == Free
    ensures Run(init, actions) == Ran(t)
    ensures |t.writers| == |s.writers| && t.writers[j].line == s.writers[j].line
    ensures t.writers[j].pc == if |s.queue.items| < s.capacity then LockPush else LockFile
    ensures t.queue == s.queue && t.file == s.file && t.isAsync == s.isAsync && t.capacity == s.capacity
  {
    hide Run, Step;
    actions, t := QueueStep(init, before, s, j);
    actions, t := QueueStep(init, actions, t, j);
    actions, t := QueueStep(init, actions, t, j);
  }

  lemma PushAlone(init: State, before: seq<Action>, s: State, j: nat) returns (actions: seq<Action>, t: State)
    requires Run(init, before) == Ran(s)
    requires j < |s.writers| && s.writers[j].pc.LockPush? && s.queue.mutex == Free && |s.queue.items| < s.capacity
    ensures Run(init, actions) == Ran(t)
    ensures |t.writers| == |s.writers| && t.writers[j].pc.Idle? && t.queue.mutex == Free && t.file == s.file
    ensures t.queue.items == s.queue.items + [s.writers[j].line]
  {
    hide Run, Step;
    actions, t := QueueStep(init, before, s, j);
    actions, t := QueueStep(init, actions, t, j);
    actions, t := StoreAlone(init, actions, t, j);
  }

  lemma StoreAlone(init: State, before: seq<Action>, s: State, j: nat) returns (actions: seq<Action>, t: State)
    requires Run(init, before) == Ran(s)
    requires j < |s.writers| && s.writers[j].pc.StoreItem? && |s.queue.items| < s.capacity
    ensures Run(init, actions) == Ran(t)
    ensures |t.writers| == |s.writers| && t.writers[j].pc.Idle? && t.queue.mutex == Free && t.file == s.file
    ensures t.queue.items == s.queue.items + [s.writers[j].line]
  {
    hide Run, Step;
    actions, t := QueueStep(init, before, s, j);
    actions, t := QueueStep(init, actions, t, j);
    actions, t := QueueStep(init, actions, t, j);
  }

  /** A flush thread takes one step. */
  lemma FlushStep(init: State, before: seq<Action>, s: State, i: nat) returns (actions: seq<Action>, t: State)
    requires Run(init, before) == Ran(s)
    requires i < |s.flushers| && FlusherStep(s, i).Ran?
    ensures Run(init, actions) == Ran(t) && t == FlusherStep(s, i).state
  {
    actions, t := Then(init, before, s, Flush(i));
  }

  /** The steps of one round of async_write_log add up to the oldest message moving to the end of
      the file. */
  lemma FlushAlone(s: State, i: nat) returns (actions: seq<Action>, t: State)
    requires i < |s.flushers| && s.flushers[i].pc.LockPop? && s.queue.mutex == s.file.mutex == Free
    requires s.queue.items != []
    ensures Run(s, actions) == Ran(t)
    ensures t.queue.mutex == t.file.mutex == Free && i < |t.flushers| && t.flushers[i].pc.LockPop?
    ensures t.queue.items == s.queue.items[1..] && t.file.lines == s.file.lines + [Line(s.queue.items[0], true)]
  {
    hide Run;
    assert Run(s, []) == Ran(s) by { EmptyRun(s); }
    actions, t := FlushStep(s, [], s, i);
    actions, t := FlushStep(s, actions, t, i);
    actions, t := FlushStep(s, actions, t, i);
    actions, t := FlushStep(s, actions, t, i);
    actions, t := FlushStep(s, actions, t, i);
    actions, t := FlushStep(s, actions, t, i);
    actions, t := FlushStep(s, actions, t, i);
  }
}
