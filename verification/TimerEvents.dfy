/** How the event loop of server.cpp creates and refreshes timers. */
module TimerEvents {
  import opened TimerOrder
  import opened TimerList
  import opened TimerRuns

  lemma ViewSplice(ns: seq<UtilTimer>, p: nat, t: UtilTimer)
    requires p <= |ns|
    ensures View(Splice(ns, p, t)) == Splice(View(ns), p, Timer(t.user, t.expire))
  {
  }

  /** A connection was accepted at time cur. */
  method AcceptConnection(list: SortTimerList, user: int, cur: int) returns (timer: UtilTimer)
    requires list.Valid()
    modifies list, (set n | n in list.nodes)`prev, (set n | n in list.nodes)`next
    ensures list.Valid() && fresh(timer) && timer in list.nodes
    ensures View(list.nodes) == Insert(old(View(list.nodes)), Timer(user, cur + 300))
  {
    ghost var was, l := list.nodes, View(list.nodes);
    ghost var p := InsertAt(l, cur + 3 * TIMESLOT);
    timer := new UtilTimer(user, cur + 3 * TIMESLOT);
    list.AddTimer(timer);
    assert list.nodes == Splice(was, p, timer) && list.nodes[p] == timer;
    ViewSplice(was, p, timer);
    assert View(was) == l;
  }

  /** Data was read from or written to the connection at time cur: move its timer back. */
  method RefreshTimer(list: SortTimerList, timer: UtilTimer, cur: int)
    requires list.Valid() && timer in list.nodes
    modifies list, timer`expire, (set n | n in list.nodes)`prev, (set n | n in list.nodes)`next
    ensures list.Valid()
    ensures var i := old(list.Index(timer));
            View(list.nodes) == Adjust(old(View(list.nodes))[i := Timer(timer.user, cur + 300)], i)
  {
    hide Scan, View;
    ghost var i, was, l := list.Index(timer), list.nodes, View(list.nodes);
    timer.expire := cur + 3 * TIMESLOT;
    ghost var m := l[i := Timer(timer.user, cur + 3 * TIMESLOT)];
    assert forall k :: 0 <= k < |was| ==> Timer(was[k].user, was[k].expire) == m[k];
    ViewIs(was, m);
    assert list.Index(timer) == i && list.Valid();
    hide Distinct, Linked, At;
    list.AdjustTimer(timer);
    assert list.nodes == Splice(Without(was, i), AdjustTo(m, i), timer);
    assert forall k :: 0 <= k < |was| ==> Timer(was[k].user, was[k].expire) == m[k];
    AdjustedView(was, m, i, timer);
  }

  lemma WithoutView(l: seq<Timer>, ns: seq<UtilTimer>, i: nat)
    requires i < |l| == |ns|
    requires forall k :: 0 <= k < |ns| ==> Timer(ns[k].user, ns[k].expire) == l[k]
    ensures View(Without(ns, i)) == Without(l, i)
  {
    hide Without;
    forall k | 0 <= k < |ns| - 1 ensures Without(ns, i)[k] == ns[if k < i then k else k + 1] {
      WithoutIndex(ns, i, k);
    }
    ViewWithout(l, Without(ns, i), i);
  }

  /** A connection failed or was closed by its peer: cb_func closes it and its timer goes. */
  method CloseConnection(list: SortTimerList, timer: UtilTimer) returns (closed: int)
    requires list.Valid() && timer in list.nodes
    modifies list, (set n | n in list.nodes)`prev, (set n | n in list.nodes)`next
    ensures list.Valid() && closed == timer.user
    ensures View(list.nodes) == Without(old(View(list.nodes)), old(list.Index(timer)))
  {
    ghost var i, l := list.Index(timer), View(list.nodes);
    hide Distinct, Linked, At, View, Without;
    closed := timer.user;
    ghost var was := list.nodes;
    list.DelTimer(timer);
    assert forall k :: 0 <= k < |was| ==> Timer(was[k].user, was[k].expire) == l[k];
    WithoutView(l, was, i);
  }

  /** The alarm came: connections that have been idle too long are closed. */
  method TimerHandler(list: SortTimerList, cur: int) returns (closed: seq<int>)
    requires list.Valid()
    modifies list, (set n | n in list.nodes)`prev
    ensures list.Valid()
    ensures var l := old(View(list.nodes));
            && |closed| == Due(l, cur) && forall k :: 0 <= k < |closed| ==> closed[k] == l[k].user
    ensures View(list.nodes) == old(View(list.nodes))[Due(old(View(list.nodes)), cur)..]
  {
    ghost var l := View(list.nodes);
    closed := list.Tick(cur);
    ViewIs(list.nodes, l[Due(l, cur)..]);
  }

  lemma ViewIs(ns: seq<UtilTimer>, l: seq<Timer>)
    requires |ns| == |l|
    requires forall k :: 0 <= k < |ns| ==> Timer(ns[k].user, ns[k].expire) == l[k]
    ensures View(ns) == l
  {
  }

  lemma AdjustedView(was: seq<UtilTimer>, m: seq<Timer>, i: nat, timer: UtilTimer)
    requires i < |was| == |m| && was[i] == timer
    requires forall k :: 0 <= k < |was| ==> Timer(was[k].user, was[k].expire) == m[k]
    ensures View(Splice(Without(was, i), AdjustTo(m, i), timer)) == Adjust(m, i)
  {
    ViewSplice(Without(was, i), AdjustTo(m, i), timer);
    ViewWithout(m, Without(was, i), i);
  }

  /** No connection has two timers. */
  predicate OneTimerEach(l: seq<Timer>) { forall i, j :: 0 <= i < j < |l| ==> l[i].user != l[j].user }

  /** What the methods leave in the list is what the events of TimerRuns do to it. */
  lemma EventsAreHandled(s: Server, i: nat, now: int)
    requires i < |s.list| && OneTimerEach(s.list)
    ensures Handle(s, Accept(now)).list == Insert(s.list, Timer(s.nextUser, now + 300))
    ensures var user := s.list[i].user;
            && Listed(s.list, user)
            && Handle(s, Activity(user, now)).list == Adjust(s.list[i := Timer(user, now + 300)], i)
            && Handle(s, Close(user, now)).list == Without(s.list, i)
    ensures Handle(s, Tick(now)).list == s.list[Due(s.list, now)..]
  {
    assert PositionOf(s.list, s.list[i].user) == i;
  }
}
