/** Where each request of the worker pool is: given to append_job, accepted or turned away,
    dispatched, processed. */
module PoolRequests {
  import opened Counting
  import opened PoolMachine

  // ----- Who has it -----

  /** Popped a request and has not finished with it. */
  predicate HasRequest(w: Worker) { w.pc.UnlockPopped? || w.pc.TestRequest? || PastTest(w) }

  /** On the way from the null test to process(). */
  predicate PastTest(w: Worker)
  {
    || w.pc.ReadSize? || w.pc.WaitReserve? || w.pc.LockGet? || w.pc.PopConn?
    || w.pc.CountGet? || w.pc.UnlockGet? || w.pc.Process?
  }

  /** In append_job, with the request neither pushed nor turned away. */
  predicate Offers(p: Producer) { p.pc.LockAppend? || p.pc.TestSize? || p.pc.UnlockReject? || p.pc.PushJob? }

  function IsRequest(r: Request): Request -> int
  {
    (x: Request) => if x == r then 1 else 0
  }

  function WorkerHas(r: Request): Worker -> int
  {
    (w: Worker) => if HasRequest(w) && w.request == r then 1 else 0
  }

  function ProducerHas(r: Request): Producer -> int
  {
    (p: Producer) => if Offers(p) && p.request == r then 1 else 0
  }

  function Count(s: seq<Request>, r: Request): int
  {
    Sum(s, IsRequest(r))
  }

  // ----- The invariant -----

  /** What was submitted is accepted, turned away or still offered. */
  ghost predicate OffersOk(s: State)
  {
    forall r :: Count(s.calls.submitted, r)
                == Count(s.queue.accepted, r) + Count(s.calls.rejected, r) + Sum(s.producers, ProducerHas(r))
  }

  /** What was dispatched is processed or in the hands of a worker, but for null requests, which
      are dropped. */
  ghost predicate DispatchOk(s: State)
  {
    && (forall r: Request :: r != NullRequest ==>
          Count(s.queue.dispatched, r) == Count(s.calls.processed, r) + Sum(s.workers, WorkerHas(r)))
    && NullRequest !in s.calls.processed
    && (forall i :: 0 <= i < |s.workers| ==> PastTest(s.workers[i]) ==> s.workers[i].request != NullRequest)
  }

  /** With one producer, accepted and turned away in the order of the calls. */
  ghost predicate OrderOk(s: State)
  {
    |s.producers| == 1 ==>
      if Offers(s.producers[0]) then
        && s.calls.submitted != []
        && s.calls.submitted[|s.calls.submitted| - 1] == s.producers[0].request
        && Merges(s.queue.accepted, s.calls.rejected, s.calls.submitted[..|s.calls.submitted| - 1])
      else
        Merges(s.queue.accepted, s.calls.rejected, s.calls.submitted)
  }

  ghost predicate RequestsOk(s: State)
  {
    OffersOk(s) && DispatchOk(s) && OrderOk(s)
  }

  // ----- It holds at the start and every step keeps it -----

  lemma InitRequests(workers: nat, connections: nat, producers: nat, maxRequests: nat)
    ensures RequestsOk(Init(workers, connections, producers, maxRequests))
  {
    var s := Init(workers, connections, producers, maxRequests);
    forall r ensures Sum(s.producers, ProducerHas(r)) == 0 && Sum(s.workers, WorkerHas(r)) == 0 {
      SumZero(s.producers, ProducerHas(r));
      SumZero(s.workers, WorkerHas(r));
    }
  }

  lemma RunStepHas(w: Worker, me: Thread, q: WorkQueue, r: Request)
    requires AtQueue(w.pc) && RunStep(w, me, q).Go? && r != NullRequest
    ensures var t := RunStep(w, me, q);
            && Count(t.shared.dispatched, r) - WorkerHas(r)(t.thread) == Count(q.dispatched, r) - WorkerHas(r)(w)
            && t.shared.accepted == q.accepted
            && (PastTest(t.thread) ==> t.thread.request != NullRequest)
  {
    hide Sum;
    if w.pc.PopJob? {
      SumAppend(q.dispatched, q.jobs[0], IsRequest(r));
    }
  }

  lemma ConnStepHas(w: Worker, me: Thread, p: ConnPool, r: Request)
    requires !AtQueue(w.pc) && ConnStep(w, me, p).Go?
    ensures var t := ConnStep(w, me, p).thread;
            && WorkerHas(r)(t) == WorkerHas(r)(w) - (if w.pc.Process? && w.request == r then 1 else 0)
            && (PastTest(t) ==> PastTest(w) && t.request == w.request)
  {
  }

  lemma WorkerKeepsDispatch(s: State, i: nat)
    requires i < |s.workers| && WorkerStep(s, i).Ran? && DispatchOk(s)
    ensures DispatchOk(WorkerStep(s, i).state)
  {
    hide Sum, RunStep, ConnStep, WorkerHas, HasRequest;
    var w, t := s.workers[i], WorkerStep(s, i).state;
    forall r: Request | r != NullRequest
      ensures Count(t.queue.dispatched, r) == Count(t.calls.processed, r) + Sum(t.workers, WorkerHas(r))
    {
      SumUpdate(s.workers, i, t.workers[i], WorkerHas(r));
      if AtQueue(w.pc) {
        RunStepHas(w, WorkerThread(i), s.queue, r);
      } else {
        ConnStepHas(w, WorkerThread(i), s.pool, r);
        SumAppend(s.calls.processed, w.request, IsRequest(r));
      }
    }
    if AtQueue(w.pc) {
      RunStepHas(w, WorkerThread(i), s.queue, Request(0));
    } else {
      ConnStepHas(w, WorkerThread(i), s.pool, Request(0));
      assert w.pc.Process? ==> PastTest(w);
    }
  }

  lemma WorkerKeepsRequests(s: State, i: nat)
    requires i < |s.workers| && WorkerStep(s, i).Ran? && RequestsOk(s)
    ensures RequestsOk(WorkerStep(s, i).state)
  {
    hide DispatchOk, Merges, Sum;
    WorkerKeepsDispatch(s, i);
    var t := WorkerStep(s, i).state;
    assert t.queue.accepted == s.queue.accepted;
  }

  lemma AppendStepHas(p: Producer, me: Thread, q: WorkQueue, maxRequests: nat, r: Request)
    requires AppendStep(p, me, q, maxRequests).Go?
    ensures var t := AppendStep(p, me, q, maxRequests);
            && Count(t.shared.accepted, r) + ProducerHas(r)(t.thread)
               + (if p.pc.UnlockReject? && p.request == r then 1 else 0)
               == Count(q.accepted, r) + ProducerHas(r)(p)
            && t.shared.dispatched == q.dispatched
  {
    hide Sum;
    if p.pc.PushJob? {
      SumAppend(q.accepted, p.request, IsRequest(r));
    }
  }

  lemma ProducerKeepsOffers(s: State, j: nat)
    requires j < |s.producers| && ProducerStep(s, j).Ran? && OffersOk(s)
    ensures OffersOk(ProducerStep(s, j).state)
  {
    hide Sum, AppendStep, ProducerHas, Offers;
    var p, t := s.producers[j], ProducerStep(s, j).state;
    forall r
      ensures Count(t.calls.submitted, r)
              == Count(t.queue.accepted, r) + Count(t.calls.rejected, r) + Sum(t.producers, ProducerHas(r))
    {
      SumUpdate(s.producers, j, t.producers[j], ProducerHas(r));
      AppendStepHas(p, ProducerThread(j), s.queue, s.maxRequests, r);
      SumAppend(s.calls.rejected, p.request, IsRequest(r));
    }
  }

  lemma ProducerKeepsOrder(s: State, j: nat)
    requires j < |s.producers| && ProducerStep(s, j).Ran? && OrderOk(s)
    ensures OrderOk(ProducerStep(s, j).state)
  {
    hide Merges;
    var p, c := s.producers[j], s.calls.submitted;
    if |s.producers| == 1 && Offers(p) {
      assert c == c[..|c| - 1] + [p.request];
      MergesMore(s.queue.accepted, s.calls.rejected, c[..|c| - 1], p.request);
    }
  }

  lemma ProducerKeepsRequests(s: State, j: nat)
    requires j < |s.producers| && ProducerStep(s, j).Ran? && RequestsOk(s)
    ensures RequestsOk(ProducerStep(s, j).state)
  {
    hide OffersOk, OrderOk, Sum;
    ProducerKeepsOffers(s, j);
    ProducerKeepsOrder(s, j);
    var t := ProducerStep(s, j).state;
    assert t.queue.dispatched == s.queue.dispatched;
  }

  lemma SubmitKeepsRequests(s: State, j: nat, x: Request)
    requires RequestsOk(s) && Step(s, Submit(j, x)).Ran?
    ensures RequestsOk(Step(s, Submit(j, x)).state)
  {
    hide Sum, Merges;
    var t := Step(s, Submit(j, x)).state;
    forall r
      ensures Count(t.calls.submitted, r)
              == Count(t.queue.accepted, r) + Count(t.calls.rejected, r) + Sum(t.producers, ProducerHas(r))
    {
      SumUpdate(s.producers, j, t.producers[j], ProducerHas(r));
      SumAppend(s.calls.submitted, x, IsRequest(r));
    }
    assert t.calls.submitted[..|s.calls.submitted|] == s.calls.submitted;
  }

  // ----- Histories -----

  /** Histories are written at their ends only. */
  predicate Grows(s: State, t: State)
  {
    && s.queue.accepted <= t.queue.accepted && s.queue.dispatched <= t.queue.dispatched
    && s.calls.submitted <= t.calls.submitted && s.calls.rejected <= t.calls.rejected
    && s.calls.processed <= t.calls.processed
  }

  lemma StepGrows(s: State, a: Action)
    requires Step(s, a).Ran?
    ensures Grows(s, Step(s, a).state)
  {
  }
}
