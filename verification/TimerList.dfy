/** sort_timer_lst: the doubly linked list of timers, ascending by expire. */
module TimerList {
  import opened TimerOrder

  class UtilTimer {
    var expire: int
    var user: int
    var prev: UtilTimer?
    var next: UtilTimer?

    constructor (user: int, expire: int)
      ensures this.user == user && this.expire == expire
      ensures prev == null && next == null
    {
      this.user, this.expire := user, expire;
      prev, next := null, null;
    }
  }

  /** The timers in list order, as values. */
  ghost function View(ns: seq<UtilTimer>): (l: seq<Timer>)
    reads ns
    ensures |l| == |ns|
    ensures forall k :: 0 <= k < |l| ==> l[k] == Timer(ns[k].user, ns[k].expire)
  {
    seq(|ns|, (k: int) requires 0 <= k < |ns| reads ns => Timer(ns[k].user, ns[k].expire))
  }

  /** The node at position i, or null outside the list. */
  ghost function At(ns: seq<UtilTimer>, i: int): UtilTimer?
  {
    if 0 <= i < |ns| then ns[i] else null
  }

  ghost predicate Distinct(ns: seq<UtilTimer>)
  {
    forall i, j :: 0 <= i < j < |ns| ==> ns[i] != ns[j]
  }

  /** prev and next are the neighbours in the sequence. */
  ghost predicate Linked(ns: seq<UtilTimer>)
    reads ns
  {
    && (forall i {:trigger ns[i].prev} :: 0 <= i < |ns| ==> ns[i].prev == At(ns, i - 1))
    && (forall i {:trigger ns[i].next} :: 0 <= i < |ns| ==> ns[i].next == At(ns, i + 1))
  }

  lemma SplicedAt(ns: seq<UtilTimer>, p: nat, t: UtilTimer, i: int)
    requires p <= |ns|
    ensures At(Splice(ns, p, t), i) == if i < p then At(ns, i) else if i == p then t else At(ns, i - 1)
  {
    var now := Splice(ns, p, t);
    assert 0 <= i < p ==> now[i] == ns[i];
    assert p < i < |now| ==> now[i] == ns[i - 1];
  }

  lemma SplicedDistinct(ns: seq<UtilTimer>, p: nat, t: UtilTimer)
    requires p <= |ns| && t !in ns && Distinct(ns)
    ensures Distinct(Splice(ns, p, t))
  {
  }

  /** The links of ns with t let in at position p. */
  ghost predicate LinkedAround(ns: seq<UtilTimer>, p: nat, t: UtilTimer)
    reads ns, t
  {
    && t.prev == At(ns, p - 1) && t.next == At(ns, p)
    && (forall i {:trigger ns[i].prev} :: 0 <= i < |ns| ==> ns[i].prev == if i == p then t else At(ns, i - 1))
    && (forall i {:trigger ns[i].next} :: 0 <= i < |ns| ==> ns[i].next == if i + 1 == p then t else At(ns, i + 1))
  }

  lemma SplicedLinked(ns: seq<UtilTimer>, p: nat, t: UtilTimer)
    requires p <= |ns| && LinkedAround(ns, p, t)
    ensures Linked(Splice(ns, p, t))
    ensures At(Splice(ns, p, t), 0) == if p == 0 then t else At(ns, 0)
    ensures At(Splice(ns, p, t), |ns|) == if p == |ns| then t else At(ns, |ns| - 1)
  {
    hide Splice;
    var now := Splice(ns, p, t);
    forall i | 0 <= i < |now|
      ensures now[i].prev == At(now, i - 1) && now[i].next == At(now, i + 1)
    {
      SplicedAt(ns, p, t, i - 1);
      SplicedAt(ns, p, t, i);
      SplicedAt(ns, p, t, i + 1);
    }
    SplicedAt(ns, p, t, 0);
    SplicedAt(ns, p, t, |ns|);
  }

  /** The links of ns with those to position p led past it. */
  ghost predicate LinkedPast(ns: seq<UtilTimer>, p: nat)
    reads ns
  {
    && (forall i {:trigger ns[i].prev} :: 0 <= i < |ns| && i != p ==>
          ns[i].prev == if i == p + 1 then At(ns, p - 1) else At(ns, i - 1))
    && (forall i {:trigger ns[i].next} :: 0 <= i < |ns| && i != p ==>
          ns[i].next == if i + 1 == p then At(ns, p + 1) else At(ns, i + 1))
  }

  lemma WithoutLinked(ns: seq<UtilTimer>, p: nat)
    requires p < |ns| && LinkedPast(ns, p)
    ensures Linked(Without(ns, p))
    ensures At(Without(ns, p), 0) == if p == 0 then At(ns, 1) else At(ns, 0)
    ensures At(Without(ns, p), |ns| - 2) == if p == |ns| - 1 then At(ns, |ns| - 2) else At(ns, |ns| - 1)
  {
    hide Without;
    var now := Without(ns, p);
    forall i | 0 <= i < |now|
      ensures now[i].prev == At(now, i - 1) && now[i].next == At(now, i + 1)
    {
      WithoutAt(ns, p, i - 1);
      WithoutAt(ns, p, i);
      WithoutAt(ns, p, i + 1);
    }
    WithoutAt(ns, p, 0);
    WithoutAt(ns, p, |ns| - 2);
  }

  lemma WithoutAt(ns: seq<UtilTimer>, p: nat, i: int)
    requires p < |ns|
    ensures At(Without(ns, p), i) == if i < p then At(ns, i) else At(ns, i + 1)
  {
    var now := Without(ns, p);
    assert 0 <= i < p ==> now[i] == ns[i];
    assert p <= i < |now| ==> now[i] == ns[i + 1];
  }

  lemma WithoutDistinct(ns: seq<UtilTimer>, p: nat)
    requires p < |ns| && Distinct(ns)
    ensures Distinct(Without(ns, p)) && ns[p] !in Without(ns, p)
  {
  }

  lemma ViewWithout(l: seq<Timer>, rest: seq<UtilTimer>, i: nat)
    requires i < |l| && |rest| == |l| - 1
    requires forall k :: 0 <= k < |rest| ==> Timer(rest[k].user, rest[k].expire) == l[if k < i then k else k + 1]
    ensures View(rest) == Without(l, i)
  {
  }

  lemma FirstGone<T>(l: seq<T>)
    requires l != []
    ensures Without(l, 0) == l[1..]
  {
  }

  lemma NodeAt(ns: seq<UtilTimer>, n: nat)
    requires n <= |ns|
    ensures At(ns[n..], 0) == At(ns, n) && At(ns[n..], 1) == At(ns, n + 1)
    ensures n < |ns| ==> ns[n..][1..] == ns[n + 1..]
    ensures At(ns, n + 1) != null ==> At(ns, n + 1) in ns
  {
  }

  /** The first n timers have been called back. */
  ghost predicate Ticked(l: seq<Timer>, n: nat, cur: int, closed: seq<int>)
  {
    && n <= |l| && Due(l, cur) == n + Due(l[n..], cur)
    && |closed| == n && forall k :: 0 <= k < n ==> closed[k] == l[k].user
  }

  lemma TickStarts(l: seq<Timer>, cur: int)
    ensures Ticked(l, 0, cur, [])
  {
    assert l[0..] == l;
  }

  lemma TickGoesOn(l: seq<Timer>, n: nat, cur: int, closed: seq<int>)
    requires n < |l| && Ticked(l, n, cur, closed) && l[n].expire <= cur
    ensures Ticked(l, n + 1, cur, closed + [l[n].user])
  {
    DueFrom(l, cur, n);
  }

  lemma TickEnds(l: seq<Timer>, n: nat, cur: int, closed: seq<int>)
    requires Ticked(l, n, cur, closed) && (n < |l| ==> cur < l[n].expire)
    ensures Due(l, cur) == n == |closed| && forall k :: 0 <= k < n ==> closed[k] == l[k].user
  {
    DueFrom(l, cur, n);
  }

  class SortTimerList {
    var head: UtilTimer?
    var tail: UtilTimer?
    ghost var nodes: seq<UtilTimer>

    /** Acyclic and mutually consistent. An empty list may have any tail: tick leaves the last
        one it deleted there. */
    ghost predicate Valid()
      reads this, nodes
    {
      && Distinct(nodes) && Linked(nodes)
      && head == At(nodes, 0)
      && (nodes != [] ==> tail == nodes[|nodes| - 1])
    }

    constructor ()
      ensures Valid() && nodes == []
    {
      head, tail, nodes := null, null, [];
    }

    ghost function Index(timer: UtilTimer): (i: nat)
      requires timer in nodes
      reads this
      ensures i < |nodes| && nodes[i] == timer
    {
      var i :| 0 <= i < |nodes| && nodes[i] == timer; i
    }

    method LinkBetween(timer: UtilTimer, prev: UtilTimer, tmp: UtilTimer, ghost j: nat)
      requires Valid() && j + 1 < |nodes| && prev == nodes[j] && tmp == nodes[j + 1] && timer !in nodes
      modifies this`nodes, timer`prev, timer`next, prev`next, tmp`prev
      ensures Valid() && nodes == Splice(old(nodes), j + 1, timer)
    {
      hide Splice, View;
      ghost var was := nodes;
      prev.next := timer;
      timer.next := tmp;
      timer.prev := prev;
      tmp.prev := timer;
      SplicedDistinct(was, j + 1, timer);
      SplicedLinked(was, j + 1, timer);
      nodes := Splice(was, j + 1, timer);
    }

    method LinkLast(timer: UtilTimer, prev: UtilTimer)
      requires Valid() && nodes != [] && prev == nodes[|nodes| - 1] && timer !in nodes
      modifies this`nodes, this`tail, timer`prev, timer`next, prev`next
      ensures Valid() && nodes == Splice(old(nodes), |old(nodes)|, timer)
    {
      hide Splice, View;
      ghost var was := nodes;
      prev.next := timer;
      timer.prev := prev;
      timer.next := null;
      tail := timer;
      SplicedDistinct(was, |was|, timer);
      SplicedLinked(was, |was|, timer);
      nodes := Splice(was, |was|, timer);
    }

    /** The private add_timer: inserts somewhere after lstHead, the timer at position k. */
    method AddAfter(timer: UtilTimer, lstHead: UtilTimer, ghost k: nat)
      requires Valid() && k < |nodes| && nodes[k] == lstHead && timer !in nodes
      modifies this, timer`prev, timer`next, (set n | n in nodes)`prev, (set n | n in nodes)`next
      ensures Valid()
      ensures nodes == Splice(old(nodes), Scan(old(View(nodes)), timer.expire, k + 1), timer)
    {
      hide Distinct, Splice, View;
      var prev := lstHead;
      var tmp := prev.next;
      ghost var l := View(nodes);
      ghost var j := k;
      while tmp != null && !(timer.expire < tmp.expire)
        invariant k <= j < |nodes| && prev == nodes[j]
        invariant tmp == At(nodes, j + 1)
        invariant Scan(l, timer.expire, k + 1) == Scan(l, timer.expire, j + 1)
        decreases |nodes| - j
        modifies {}
      {
        prev := tmp;
        tmp := tmp.next;
        j := j + 1;
      }
      if tmp != null {
        LinkBetween(timer, prev, tmp, j);
      } else {
        LinkLast(timer, prev);
      }
    }

    method LinkFirst(timer: UtilTimer)
      requires Valid() && nodes != [] && timer !in nodes && timer.prev == null
      modifies this`nodes, this`head, timer`next, head`prev
      ensures Valid() && nodes == Splice(old(nodes), 0, timer)
    {
      hide Splice, View;
      ghost var was := nodes;
      timer.next := head;
      head.prev := timer;
      head := timer;
      SplicedDistinct(was, 0, timer);
      SplicedLinked(was, 0, timer);
      nodes := Splice(was, 0, timer);
    }

    method AddTimer(timer: UtilTimer?)
      requires Valid()
      requires timer != null ==> timer !in nodes && timer.prev == null && timer.next == null
      modifies this, (set n | n in nodes || n == timer)`prev, (set n | n in nodes || n == timer)`next
      ensures Valid()
      ensures timer == null ==> nodes == old(nodes)
      ensures timer != null ==>
                nodes == Splice(old(nodes), InsertAt(old(View(nodes)), timer.expire), timer)
    {
      hide Scan;
      if timer == null {
        return;
      }
      if head == null {
        head, tail := timer, timer;
        nodes := [timer];
        return;
      }
      if timer.expire < head.expire {
        LinkFirst(timer);
        return;
      }
      AddAfter(timer, head, 0);
    }

    /** Makes the second timer the head. */
    method UnlinkHead(ghost second: UtilTimer)
      requires Valid() && |nodes| > 1 && nodes[1] == second
      modifies this`nodes, this`head, second`prev
      ensures Valid() && nodes == Without(old(nodes), 0)
    {
      hide Without, View;
      ghost var was := nodes;
      assert head.next == was[1];
      head := head.next;
      head.prev := null;
      WithoutDistinct(was, 0);
      WithoutLinked(was, 0);
      nodes := Without(was, 0);
    }

    /** Links the neighbours of a timer inside the list to each other. */
    method UnlinkInner(timer: UtilTimer, ghost i: nat, ghost before: UtilTimer, ghost after: UtilTimer)
      requires Valid() && 0 < i < |nodes| - 1
      requires nodes[i - 1] == before && nodes[i] == timer && nodes[i + 1] == after
      modifies this`nodes, before`next, after`prev
      ensures Valid() && nodes == Without(old(nodes), i)
    {
      hide Without, View;
      ghost var was := nodes;
      assert timer.prev == was[i - 1] && timer.next == was[i + 1];
      timer.prev.next := timer.next;
      timer.next.prev := timer.prev;
      WithoutDistinct(was, i);
      WithoutLinked(was, i);
      nodes := Without(was, i);
    }

    /** The caller has changed timer.expire. */
    method AdjustTimer(timer: UtilTimer?)
      requires Valid()
      requires timer != null ==> timer in nodes
      modifies this, (set n | n in nodes)`prev, (set n | n in nodes)`next
      ensures Valid()
      ensures timer == null ==> nodes == old(nodes)
      ensures timer != null ==>
                var i := old(Index(timer));
                nodes == Splice(Without(old(nodes), i), AdjustTo(old(View(nodes)), i), timer)
    {
      hide Distinct, Scan;
      if timer == null {
        return;
      }
      ghost var i := Index(timer);
      var tmp := timer.next;
      assert tmp == At(nodes, i + 1);
      if tmp == null || timer.expire < tmp.expire {
        assert nodes == Splice(Without(nodes, i), i, timer);
        return;
      }
      Reinsert(timer, i);
    }

    /** Takes the timer out and returns its successor. */
    method TakeOut(timer: UtilTimer, ghost i: nat) returns (after: UtilTimer)
      requires Valid() && i + 1 < |nodes| && nodes[i] == timer
      modifies this`nodes, this`head, (set n | n in nodes)`prev, (set n | n in nodes)`next
      ensures Valid() && nodes == Without(old(nodes), i)
      ensures timer !in nodes && nodes[i] == after
    {
      hide View, Splice;
      WithoutDistinct(nodes, i);
      assert timer.next == nodes[i + 1] == Without(nodes, i)[i];
      if timer == head {
        UnlinkHead(nodes[1]);
        timer.next := null;
        after := head;
      } else {
        UnlinkInner(timer, i, nodes[i - 1], nodes[i + 1]);
        after := timer.next;
      }
    }

    /** The part of adjust_timer that takes the timer out and inserts it after its successor. */
    method Reinsert(timer: UtilTimer, ghost i: nat)
      requires Valid() && i + 1 < |nodes| && nodes[i] == timer
      modifies this, (set n | n in nodes)`prev, (set n | n in nodes)`next
      ensures Valid()
      ensures nodes == Splice(Without(old(nodes), i),
                              Scan(Without(old(View(nodes)), i), timer.expire, i + 1), timer)
    {
      hide Distinct, Linked, Scan, Splice, View;
      ghost var l := View(nodes);
      var after := TakeOut(timer, i);
      assert View(nodes) == Without(l, i) by { ViewWithout(l, nodes, i); }
      AddAfter(timer, after, i);
    }

    /** Also frees the timer, which the model leaves to its caller. */
    method DelTimer(timer: UtilTimer?)
      requires Valid()
      requires timer != null ==> timer in nodes
      modifies this, (set n | n in nodes)`prev, (set n | n in nodes)`next
      ensures Valid()
      ensures nodes == if timer == null then old(nodes) else Without(old(nodes), old(Index(timer)))
    {
      if timer == null {
        return;
      }
      ghost var i := Index(timer);
      if timer == head && timer == tail {
        assert |nodes| == 1;
        head := null;
        tail := null;
        nodes := [];
        return;
      }
      if head == timer {
        UnlinkHead(nodes[1]);
        return;
      }
      if tail == timer {
        UnlinkTail(nodes[i - 1]);
        return;
      }
      UnlinkInner(timer, i, nodes[i - 1], nodes[i + 1]);
    }

    method UnlinkTail(ghost before: UtilTimer)
      requires Valid() && |nodes| > 1 && nodes[|nodes| - 2] == before
      modifies this`nodes, this`tail, before`next
      ensures Valid() && nodes == Without(old(nodes), |old(nodes)| - 1)
    {
      hide Without, View;
      ghost var was := nodes;
      assert tail.prev == was[|was| - 2];
      tail := tail.prev;
      tail.next := null;
      WithoutDistinct(was, |was| - 1);
      WithoutLinked(was, |was| - 1);
      nodes := Without(was, |was| - 1);
    }

    /** cur is the clock; closed lists the connections cb_func was called for, in call order. */
    method Tick(cur: int) returns (closed: seq<int>)
      requires Valid()
      modifies this, (set n | n in nodes)`prev
      ensures Valid()
      ensures var n := Due(old(View(nodes)), cur);
              && nodes == old(nodes)[n..]
              && |closed| == n && forall k :: 0 <= k < n ==> closed[k] == old(nodes[k].user)
    {
      hide Distinct, Linked, Due, View, Ticked;
      closed := [];
      var tmp := head;
      ghost var was, l, n := nodes, View(nodes), 0;
      TickStarts(l, cur);
      if head == null {
        TickEnds(l, n, cur, closed);
        return;
      }
      while tmp != null && !(cur < tmp.expire)
        invariant n <= |was| && nodes == was[n..] && Valid() && tmp == head
        invariant forall k :: 0 <= k < |l| ==> Timer(was[k].user, was[k].expire) == l[k]
        invariant Ticked(l, n, cur, closed)
        decreases |was| - n
      {
        NodeAt(was, n);
        TickGoesOn(l, n, cur, closed);
        closed := closed + [tmp.user];
        ghost var second := At(was, n + 1);
        DropHead(second);
        tmp := head;
        n := n + 1;
      }
      NodeAt(was, n);
      TickEnds(l, n, cur, closed);
    }

    /** The part of tick that takes the head out; tail is left alone. */
    method DropHead(ghost second: UtilTimer?)
      requires Valid() && nodes != [] && second == At(nodes, 1)
      modifies this`nodes, this`head, (if second == null then {} else {second})`prev
      ensures Valid() && nodes == old(nodes)[1..] && tail == old(tail)
    {
      hide Without, View;
      ghost var was := nodes;
      assert head.next == At(was, 1);
      head := head.next;
      if head != null {
        head.prev := null;
      }
      WithoutDistinct(was, 0);
      WithoutLinked(was, 0);
      nodes := Without(was, 0);
      assert nodes == was[1..] by { FirstGone(was); }
    }
  }
}
