/** When the asynchronous log can lose a message: write_log asks full() and pushes in two
    critical sections, so exactly when two threads may log at once. */
module LogDrops {
  import opened Locker
  import opened LogMachine
  import opened LogSafety
  import opened LogTheorems

  lemma Then(init: State, before: seq<Action>, s: State, a: Action) returns (actions: seq<Action>, t: State)
    requires Run(init, before) == Ran(s) && Step(s, a).Ran?
    ensures actions == before + [a] && t == Step(s, a).state
    ensures Run(init, actions) == Ran(t)
  {
    actions, t := before + [a], Step(s, a).state;
    assert actions[..|before|] == before;
  }

  /** Writer k takes one step outside the queue. */
  lemma FileStep(init: State, before: seq<Action>, s: State, k: nat) returns (actions: seq<Action>, t: State)
    requires Run(init, before) == Ran(s)
    requires k < |s.writers| && WriterAtFile(s.writers[k].pc)
    requires WriterFileStep(s.writers[k], Writer(k), s.file, s.isAsync).Go?
    ensures Run(init, actions) == Ran(t)
    ensures var r := WriterFileStep(s.writers[k], Writer(k), s.file, s.isAsync);
            t == s.(file := r.shared, writers := s.writers[k := r.thread])
  {
    actions, t := Then(init, before, s, Write(k));
  }

  /** Writer k takes one step at the queue. */
  lemma QueueStep(init: State, before: seq<Action>, s: State, k: nat) returns (actions: seq<Action>, t: State)
    requires Run(init, before) == Ran(s)
    requires k < |s.writers| && !WriterAtFile(s.writers[k].pc)
    requires WriterQueueStep(s.writers[k], Writer(k), s.queue, s.capacity).Go?
    ensures Run(init, actions) == Ran(t)
    ensures var r := WriterQueueStep(s.writers[k], Writer(k), s.queue, s.capacity);
            && t.queue == r.shared && t.writers == s.writers[k := r.thread]
            && t.file == s.file && t.capacity == s.capacity && t.isAsync == s.isAsync
  {
    actions, t := Then(init, before, s, Write(k));
  }

  /** Both mutexes are free and writers 0 and 1 are where they are. */
  ghost predicate Calm(s: State, pc0: WriterPc, pc1: WriterPc, size: nat)
  {
    && |s.writers| > 1 && s.isAsync
    && s.queue.mutex == Free && s.file.mutex == Free && |s.queue.items| == size
    && s.writers[0].pc == pc0 && s.writers[1].pc == pc1
  }

  /** Writer k (0 or 1) is called and goes as far as the call of push. */
  lemma UpToPush(init: State, before: seq<Action>, s: State, k: nat, size: nat)
      returns (actions: seq<Action>, t: State)
    requires Run(init, before) == Ran(s)
    requires k < 2 && Calm(s, if k == 0 then Idle else LockPush, Idle, size) && size < s.capacity
    ensures Run(init, actions) == Ran(t)
    ensures Calm(t, LockPush, if k == 0 then Idle else LockPush, size)
    ensures t.capacity == s.capacity && t.queue.dropped == s.queue.dropped
  {
    hide Run;
    actions, t := Then(init, before, s, Log(k, 0));
    actions, t := FileStep(init, actions, t, k);
    actions, t := FileStep(init, actions, t, k);
    actions, t := FileStep(init, actions, t, k);
    actions, t := FileStep(init, actions, t, k);
    actions, t := ThroughFull(init, actions, t, k);
  }

  /** full() finds room. */
  lemma ThroughFull(init: State, before: seq<Action>, s: State, k: nat) returns (actions: seq<Action>, t: State)
    requires Run(init, before) == Ran(s)
    requires k < |s.writers| && s.writers[k].pc == LockFull && s.queue.mutex == Free
    requires |s.queue.items| < s.capacity
    ensures Run(init, actions) == Ran(t)
    ensures |t.writers| == |s.writers| && forall j :: 0 <= j < |s.writers| && j != k ==> t.writers[j] == s.writers[j]
    ensures t.writers[k].pc == LockPush && t.queue == s.queue && t.file == s.file
    ensures t.capacity == s.capacity && t.isAsync == s.isAsync
  {
    actions, t := QueueStep(init, before, s, k);
    actions, t := QueueStep(init, actions, t, k);
    actions, t := QueueStep(init, actions, t, k);
  }

  /** push() stores the item. */
  lemma PushIt(init: State, before: seq<Action>, s: State) returns (actions: seq<Action>, t: State)
    requires Run(init, before) == Ran(s)
    requires |s.writers| > 0 && s.writers[0].pc == LockPush && s.queue.mutex == Free
    requires |s.queue.items| < s.capacity
    ensures Run(init, actions) == Ran(t)
    ensures |t.writers| == |s.writers| && forall j :: 0 < j < |s.writers| ==> t.writers[j] == s.writers[j]
    ensures t.writers[0].pc == Idle && t.queue.mutex == Free && t.file == s.file
    ensures |t.queue.items| == |s.queue.items| + 1 && t.queue.dropped == s.queue.dropped
    ensures t.capacity == s.capacity && t.isAsync == s.isAsync
  {
    hide Run, Step;
    actions, t := QueueStep(init, before, s, 0);
    actions, t := QueueStep(init, actions, t, 0);
    actions, t := FinishPush(init, actions, t);
  }

  lemma FinishPush(init: State, before: seq<Action>, s: State) returns (actions: seq<Action>, t: State)
    requires Run(init, before) == Ran(s)
    requires |s.writers| > 0 && s.writers[0].pc == StoreItem && |s.queue.items| < s.capacity
    ensures Run(init, actions) == Ran(t)
    ensures |t.writers| == |s.writers| && forall j :: 0 < j < |s.writers| ==> t.writers[j] == s.writers[j]
    ensures t.writers[0].pc == Idle && t.queue.mutex == Free && t.file == s.file
    ensures |t.queue.items| == |s.queue.items| + 1 && t.queue.dropped == s.queue.dropped
    ensures t.capacity == s.capacity && t.isAsync == s.isAsync
  {
    hide Run, Step;
    actions, t := QueueStep(init, before, s, 0);
    actions, t := QueueStep(init, actions, t, 0);
    actions, t := QueueStep(init, actions, t, 0);
  }

  /** push() finds the queue full and returns false; write_log does not look. */
  lemma DropIt(init: State, before: seq<Action>, s: State) returns (actions: seq<Action>, t: State)
    requires Run(init, before) == Ran(s)
    requires |s.writers| > 1 && s.writers[1].pc == LockPush && s.queue.mutex == Free
    requires |s.queue.items| >= s.capacity
    ensures Run(init, actions) == Ran(t)
    ensures t.queue.dropped != []
  {
    hide Run, Step;
    actions, t := QueueStep(init, before, s, 1);
    actions, t := QueueStep(init, actions, t, 1);
    actions, t := QueueStep(init, actions, t, 1);
    actions, t := QueueStep(init, actions, t, 1);
  }

  lemma {:induction false} FillQueue(capacity: nat, writers: nat, flushers: nat, n: nat)
      returns (actions: seq<Action>, s: State)
    requires n <= capacity && writers > 1
    ensures Run(Init(true, capacity, writers, flushers), actions) == Ran(s)
    ensures Calm(s, Idle, Idle, n) && s.capacity == capacity
  {
    var init := Init(true, capacity, writers, flushers);
    if n == 0 {
      actions, s := [], init;
    } else {
      actions, s := FillQueue(capacity, writers, flushers, n - 1);
      actions, s := UpToPush(init, actions, s, 0, n - 1);
      actions, s := PushIt(init, actions, s);
    }
  }

  /** With the queue one short of full, two writers both hear that there is room. */
  lemma DropHappens(capacity: nat, writers: nat, flushers: nat) returns (s: State)
    requires capacity > 0 && writers > 1
    ensures Reachable(s, true, capacity, writers, flushers) && s.queue.dropped != []
  {
    var init := Init(true, capacity, writers, flushers);
    var actions, t := FillQueue(capacity, writers, flushers, capacity - 1);
    actions, t := UpToPush(init, actions, t, 0, capacity - 1);
    actions, t := UpToPush(init, actions, t, 1, capacity - 1);
    actions, t := PushIt(init, actions, t);
    actions, s := DropIt(init, actions, t);
  }

  /** A message can be lost if and only if the log is asynchronous and more than one thread logs. */
  lemma LosslessIffOneWriter(isAsync: bool, capacity: nat, writers: nat, flushers: nat)
    requires capacity > 0
    ensures (forall s :: Reachable(s, isAsync, capacity, writers, flushers) ==> s.queue.dropped == [])
            <==> !isAsync || writers <= 1
  {
    if !isAsync || writers <= 1 {
      forall s | Reachable(s, isAsync, capacity, writers, flushers) ensures s.queue.dropped == [] {
        ReachableInv(s, isAsync, capacity, writers, flushers);
      }
    } else {
      var s := DropHappens(capacity, writers, flushers);
    }
  }
}
