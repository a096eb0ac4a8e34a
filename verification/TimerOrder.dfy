/** The ascending timer list as a value: where add_timer and adjust_timer put a timer and which
    timers tick takes. */
module TimerOrder {

  /** user is the connection the timer watches. */
  datatype Timer = Timer(user: int, expire: int)

  predicate Sorted(l: seq<Timer>)
  {
    forall i, j :: 0 <= i < j < |l| ==> l[i].expire <= l[j].expire
  }

  function Splice<T>(l: seq<T>, p: nat, t: T): (r: seq<T>)
    requires p <= |l|
    ensures |r| == |l| + 1
  {
    l[..p] + [t] + l[p..]
  }

  function Without<T>(l: seq<T>, i: nat): (r: seq<T>)
    requires i < |l|
    ensures |r| == |l| - 1
  {
    l[..i] + l[i + 1..]
  }

  lemma WithoutIndex<T>(l: seq<T>, i: nat, k: nat)
    requires i < |l| && k < |l| - 1
    ensures Without(l, i)[k] == l[if k < i then k else k + 1]
  {
  }

  /** The walk of the private add_timer: from position from on, the first timer that expires
      strictly later, or the end. */
  function Scan(l: seq<Timer>, expire: int, from: nat): (p: nat)
    requires from <= |l|
    ensures from <= p <= |l|
    ensures forall k :: from <= k < p ==> l[k].expire <= expire
    ensures p < |l| ==> expire < l[p].expire
    decreases |l| - from
  {
    if from == |l| || expire < l[from].expire then from else Scan(l, expire, from + 1)
  }

  /** add_timer: at the head of an empty list or before a later head, else by the walk. */
  function InsertAt(l: seq<Timer>, expire: int): (p: nat)
    ensures p <= |l|
  {
    if l == [] || expire < l[0].expire then 0 else Scan(l, expire, 1)
  }

  function Insert(l: seq<Timer>, t: Timer): seq<Timer>
  {
    Splice(l, InsertAt(l, t.expire), t)
  }

  /** adjust_timer on the timer at i, whose expire has been changed already. */
  function AdjustTo(l: seq<Timer>, i: nat): (p: nat)
    requires i < |l|
    ensures i <= p < |l|
  {
    if i + 1 == |l| || l[i].expire < l[i + 1].expire then i
    else Scan(Without(l, i), l[i].expire, i + 1)
  }

  function Adjust(l: seq<Timer>, i: nat): seq<Timer>
    requires i < |l|
  {
    Splice(Without(l, i), AdjustTo(l, i), l[i])
  }

  /** How many timers tick takes off the front at time cur. */
  function Due(l: seq<Timer>, cur: int): (n: nat)
    ensures n <= |l|
    ensures forall k :: 0 <= k < n ==> l[k].expire <= cur
    ensures n < |l| ==> cur < l[n].expire
  {
    if l == [] || cur < l[0].expire then 0 else 1 + Due(l[1..], cur)
  }

  /** Timer n is due if all before it are and it is. */
  lemma DueFrom(l: seq<Timer>, cur: int, n: nat)
    requires n <= |l|
    ensures Due(l[n..], cur) == if n == |l| || cur < l[n].expire then 0 else 1 + Due(l[n + 1..], cur)
    ensures l[0..] == l
  {
    if n < |l| {
      assert l[n..][0] == l[n] && l[n..][1..] == l[n + 1..];
    }
  }

  // ----- Order -----

  /** A sorted list stays sorted, and the new timer comes after all that expire no later. */
  lemma InsertKeepsOrder(l: seq<Timer>, t: Timer) returns (p: nat)
    requires Sorted(l)
    ensures p <= |l| && Insert(l, t) == Splice(l, p, t)
    ensures forall k :: 0 <= k < |l| ==> (k < p <==> l[k].expire <= t.expire)
    ensures Sorted(Insert(l, t))
  {
    p := InsertAt(l, t.expire);
    SpliceSorted(l, p, t);
  }

  lemma SpliceSorted(l: seq<Timer>, p: nat, t: Timer)
    requires Sorted(l) && p <= |l|
    requires p > 0 ==> l[p - 1].expire <= t.expire
    requires p < |l| ==> t.expire <= l[p].expire
    ensures Sorted(Splice(l, p, t))
  {
    var m := Splice(l, p, t);
    assert forall k :: 0 <= k < p ==> m[k] == l[k];
    assert forall k :: p < k < |m| ==> m[k] == l[k - 1];
  }

  /** Sorted but for the timer at i, which has just got a new expire. */
  predicate SortedBut(l: seq<Timer>, i: nat)
  {
    forall a, b :: 0 <= a < b < |l| && a != i && b != i ==> l[a].expire <= l[b].expire
  }

  /** adjust_timer looks at later timers only: it restores the order if and only if the timer was
      at the head or does not expire before its predecessor. */
  lemma AdjustRestoresOrder(l: seq<Timer>, i: nat)
    requires i < |l| && SortedBut(l, i)
    ensures Sorted(Adjust(l, i)) <==> i == 0 || l[i - 1].expire <= l[i].expire
  {
    if i + 1 == |l| || l[i].expire < l[i + 1].expire {
      assert Adjust(l, i) == l;
      StaysInPlace(l, i);
    } else {
      var rest := Without(l, i);
      RestSorted(l, i);
      SpliceSorted(rest, Scan(rest, l[i].expire, i + 1), l[i]);
      assert i > 0 ==> l[i - 1].expire <= l[i + 1].expire;
    }
  }

  lemma RestSorted(l: seq<Timer>, i: nat)
    requires i < |l| && SortedBut(l, i)
    ensures Sorted(Without(l, i))
    ensures forall k :: 0 <= k < |l| - 1 ==> Without(l, i)[k] == l[if k < i then k else k + 1]
  {
  }

  lemma StaysInPlace(l: seq<Timer>, i: nat)
    requires i < |l| && SortedBut(l, i)
    requires i + 1 < |l| ==> l[i].expire < l[i + 1].expire
    ensures Sorted(l) <==> i == 0 || l[i - 1].expire <= l[i].expire
  {
  }

  /** adjust_timer moves nothing but that timer, only towards the end, and past exactly the
      timers that expire no later. */
  lemma AdjustMovesOne(l: seq<Timer>, i: nat)
    requires i < |l| && SortedBut(l, i)
    ensures forall k :: i <= k < AdjustTo(l, i) ==> Without(l, i)[k].expire <= l[i].expire
    ensures forall k :: AdjustTo(l, i) <= k < |l| - 1 ==> l[i].expire < Without(l, i)[k].expire
  {
  }

  /** On a sorted list tick takes exactly the timers with expire <= cur. */
  lemma DueIsExact(l: seq<Timer>, cur: int)
    requires Sorted(l)
    ensures forall k :: 0 <= k < |l| ==> (k < Due(l, cur) <==> l[k].expire <= cur)
    ensures Sorted(l[Due(l, cur)..])
  {
  }

  lemma WithoutSorted(l: seq<Timer>, i: nat)
    requires Sorted(l) && i < |l|
    ensures Sorted(Without(l, i))
  {
  }

  // ----- Every sequence of calls -----

  /** Positions are those in the list at the time of the call. */
  datatype Call =
    | Add(timer: Timer)
    | Readjust(at: nat, expire: int)   // expire is assigned, then adjust_timer is called
    | Delete(at: nat)
    | TickAt(cur: int)

  /** The timer is in the list. */
  predicate Applicable(l: seq<Timer>, c: Call)
  {
    match c
    case Readjust(at, _) => at < |l|
    case Delete(at) => at < |l|
    case _ => true
  }

  function Apply(l: seq<Timer>, c: Call): seq<Timer>
    requires Applicable(l, c)
  {
    match c
    case Add(t) => Insert(l, t)
    case Readjust(at, expire) => Adjust(l[at := Timer(l[at].user, expire)], at)
    case Delete(at) => Without(l, at)
    case TickAt(cur) => l[Due(l, cur)..]
  }

  predicate AllApplicable(l: seq<Timer>, calls: seq<Call>)
    decreases |calls|
  {
    calls == [] || (Applicable(l, calls[0]) && AllApplicable(Apply(l, calls[0]), calls[1..]))
  }

  /** Each list on the way, the first and the last included. */
  function Lists(l: seq<Timer>, calls: seq<Call>): (r: seq<seq<Timer>>)
    requires AllApplicable(l, calls)
    ensures |r| == |calls| + 1 && r[0] == l
    decreases |calls|
  {
    if calls == [] then [l] else [l] + Lists(Apply(l, calls[0]), calls[1..])
  }

  /** No timer is moved before its predecessor. */
  predicate NotBeforePredecessor(l: seq<Timer>, c: Call)
    requires Applicable(l, c)
  {
    c.Readjust? && c.at > 0 ==> l[c.at - 1].expire <= c.expire
  }

  lemma CallKeepsOrder(l: seq<Timer>, c: Call)
    requires Sorted(l) && Applicable(l, c)
    ensures Sorted(Apply(l, c)) <==> NotBeforePredecessor(l, c)
  {
    match c
    case Add(t) => var _ := InsertKeepsOrder(l, t);
    case Readjust(at, expire) => AdjustRestoresOrder(l[at := Timer(l[at].user, expire)], at);
    case Delete(at) => WithoutSorted(l, at);
    case TickAt(cur) => DueIsExact(l, cur);
  }

  /** Over any sequence of calls the list is ascending all the time if and only if no adjusted
      timer is given an earlier time than its predecessor has; moving only later is enough. */
  lemma {:induction false} ListStaysSorted(l: seq<Timer>, calls: seq<Call>)
    requires Sorted(l) && AllApplicable(l, calls)
    ensures var lists := Lists(l, calls);
            (forall k :: 0 <= k < |lists| ==> Sorted(lists[k]))
            <==> forall k :: 0 <= k < |calls| ==>
                   Applicable(lists[k], calls[k]) && NotBeforePredecessor(lists[k], calls[k])
    decreases |calls|
  {
    hide Sorted, Apply, NotBeforePredecessor, Applicable;
    if calls != [] {
      var next, lists := Apply(l, calls[0]), Lists(l, calls);
      CallKeepsOrder(l, calls[0]);
      assert lists[1..] == Lists(next, calls[1..]);
      if Sorted(next) {
        ListStaysSorted(next, calls[1..]);
      }
    }
  }
}
