/** The event loop of server.cpp as the timer list sees it: connections are accepted, become
    active, are closed, and time out. */
module TimerRuns {
  import opened TimerOrder

  const TIMESLOT := 100

  /** now is what time(NULL) returns while the event is handled. */
  datatype Event =
    | Accept(now: int)
    | Activity(user: int, now: int)
    | Close(user: int, now: int)
    | Tick(now: int)

  /** Every accepted connection gets a new timer, and users are numbered by timer. */
  datatype Server = Server(list: seq<Timer>, nextUser: int, clock: int, lastTick: int)

  ghost predicate Listed(l: seq<Timer>, user: int)
  {
    exists i :: 0 <= i < |l| && l[i].user == user
  }

  ghost function PositionOf(l: seq<Timer>, user: int): (i: nat)
    requires Listed(l, user)
    ensures i < |l| && l[i].user == user
  {
    var i :| 0 <= i < |l| && l[i].user == user; i
  }

  /** Expiry is now + 3 * TIMESLOT on accept and on every read or write. */
  ghost function Handle(s: Server, e: Event): Server
    requires e.Activity? || e.Close? ==> Listed(s.list, e.user)
  {
    match e
    case Accept(now) =>
      s.(list := Insert(s.list, Timer(s.nextUser, now + 3 * TIMESLOT)), nextUser := s.nextUser + 1, clock := now)
    case Activity(user, now) =>
      var i := PositionOf(s.list, user);
      s.(list := Adjust(s.list[i := Timer(user, now + 3 * TIMESLOT)], i), clock := now)
    case Close(user, now) =>
      s.(list := Without(s.list, PositionOf(s.list, user)), clock := now)
    case Tick(now) =>
      s.(list := s.list[Due(s.list, now)..], clock := now, lastTick := now)
  }

  function Start(now: int): Server
  {
    Server([], 0, now, now)
  }

  /** The clock does not run backwards, and only connections that still have a timer are handled. */
  ghost predicate LegalRun(start: int, events: seq<Event>)
    decreases |events|, 0
  {
    events == [] ||
    (var last := |events| - 1;
     && LegalRun(start, events[..last])
     && Serve(start, events[..last]).clock <= events[last].now
     && (events[last].Activity? || events[last].Close? ==>
           Listed(Serve(start, events[..last]).list, events[last].user)))
  }

  ghost function Serve(start: int, events: seq<Event>): Server
    requires LegalRun(start, events)
    decreases |events|, 1
  {
    if events == [] then Start(start)
    else Handle(Serve(start, events[..|events| - 1]), events[|events| - 1])
  }

  // ----- What it should be: least recently active first -----

  /** A connection and when it was last accepted or active. */
  datatype Active = Active(user: int, at: int)

  ghost function Find(actives: seq<Active>, user: int): (i: nat)
    requires exists i :: 0 <= i < |actives| && actives[i].user == user
    ensures i < |actives| && actives[i].user == user
  {
    var i :| 0 <= i < |actives| && actives[i].user == user; i
  }

  /** Those idle for less than 3 * TIMESLOT. */
  function Fresh(actives: seq<Active>, now: int): seq<Active>
  {
    if actives == [] then []
    else (if now - actives[0].at < 3 * TIMESLOT then [actives[0]] else []) + Fresh(actives[1..], now)
  }

  function Users(actives: seq<Active>): seq<int>
  {
    seq(|actives|, (i: int) requires 0 <= i < |actives| => actives[i].user)
  }

  /** Newcomers and active connections go to the back; a tick drops the idle ones. */
  ghost function Lru(actives: seq<Active>, nextUser: int, e: Event): seq<Active>
    requires e.Activity? || e.Close? ==> e.user in Users(actives)
  {
    match e
    case Accept(now) => actives + [Active(nextUser, now)]
    case Activity(user, now) => Without(actives, Find(actives, user)) + [Active(user, now)]
    case Close(user, now) => Without(actives, Find(actives, user))
    case Tick(now) => Fresh(actives, now)
  }

  function ToTimer(a: Active): Timer { Timer(a.user, a.at + 3 * TIMESLOT) }

  function Timers(actives: seq<Active>): (l: seq<Timer>)
    ensures |l| == |actives| && forall i :: 0 <= i < |l| ==> l[i] == ToTimer(actives[i])
  {
    seq(|actives|, (i: int) requires 0 <= i < |actives| => ToTimer(actives[i]))
  }

  /** The server's list is the reference list with expiries for activity times. */
  ghost predicate Mirrors(s: Server, actives: seq<Active>)
  {
    && s.list == Timers(actives)
    && (forall i, j :: 0 <= i < j < |actives| ==> actives[i].at <= actives[j].at)
    && (forall i :: 0 <= i < |actives| ==> actives[i].at <= s.clock)
    && (forall i, j :: 0 <= i < j < |actives| ==> actives[i].user != actives[j].user)
    && (forall i :: 0 <= i < |actives| ==> actives[i].user < s.nextUser)
  }

  lemma DueFirst(actives: seq<Active>, now: int)
    requires actives != []
    ensures Due(Timers(actives), now)
            == if now - actives[0].at < 3 * TIMESLOT then 0 else 1 + Due(Timers(actives[1..]), now)
  {
    hide Timers;
    assert Timers(actives)[1..] == Timers(actives[1..]);
  }

  lemma {:induction false} FreshIsSuffix(actives: seq<Active>, now: int)
    requires forall i, j :: 0 <= i < j < |actives| ==> actives[i].at <= actives[j].at
    ensures Fresh(actives, now) == actives[Due(Timers(actives), now)..]
  {
    hide Due, Timers;
    if actives != [] {
      DueFirst(actives, now);
      if now - actives[0].at < 3 * TIMESLOT {
        AllFresh(actives, now);
      } else {
        FreshIsSuffix(actives[1..], now);
      }
    }
  }

  lemma {:induction false} AllFresh(actives: seq<Active>, now: int)
    requires forall i :: 0 <= i < |actives| ==> now - actives[i].at < 3 * TIMESLOT
    ensures Fresh(actives, now) == actives
  {
    if actives != [] {
      AllFresh(actives[1..], now);
    }
  }

  /** One event: the timer list does what least-recently-active order asks for. */
  lemma HandleMirrors(s: Server, actives: seq<Active>, e: Event)
    requires Mirrors(s, actives) && s.clock <= e.now
    requires e.Activity? || e.Close? ==> Listed(s.list, e.user)
    ensures e.Activity? || e.Close? ==> e.user in Users(actives)
    ensures Mirrors(Handle(s, e), Lru(actives, s.nextUser, e))
  {
    match e
    case Accept(now) => AcceptMirrors(s, actives, now);
    case Activity(user, now) => ActivityMirrors(s, actives, user, now);
    case Close(user, now) =>
      var i := FoundTogether(s, actives, user);
      WithoutMirrors(s, actives, i);
    case Tick(now) =>
      FreshIsSuffix(actives, now);
      SuffixMirrors(s, actives, Due(s.list, now));
  }

  lemma AcceptMirrors(s: Server, actives: seq<Active>, now: int)
    requires Mirrors(s, actives) && s.clock <= now
    ensures Mirrors(Handle(s, Accept(now)), Lru(actives, s.nextUser, Accept(now)))
  {
    assert InsertAt(s.list, now + 3 * TIMESLOT) == |s.list|;
    AppendMirrors(s, actives, Active(s.nextUser, now));
  }

  lemma ActivityMirrors(s: Server, actives: seq<Active>, user: int, now: int)
    requires Mirrors(s, actives) && s.clock <= now && Listed(s.list, user)
    ensures user in Users(actives)
    ensures Mirrors(Handle(s, Activity(user, now)), Lru(actives, s.nextUser, Activity(user, now)))
  {
    hide Insert, InsertAt, Adjust, AdjustTo, Without, Timers, Due, Fresh;
    var i := FoundTogether(s, actives, user);
    var rest := Without(actives, i);
    WithoutMirrors(s, actives, i);
    AppendMirrors(s.(list := Without(s.list, i)), rest, Active(user, now));
    assert Handle(s, Activity(user, now)) == s.(list := Timers(rest + [Active(user, now)]), clock := now) by {
      MovesToBack(s, actives, i, now);
    }
  }

  lemma AppendMirrors(s: Server, actives: seq<Active>, a: Active)
    requires Mirrors(s, actives) && s.clock <= a.at
    requires a.user <= s.nextUser && forall k :: 0 <= k < |actives| ==> actives[k].user != a.user
    ensures var next := if a.user == s.nextUser then s.nextUser + 1 else s.nextUser;
            Mirrors(s.(list := Timers(actives + [a]), nextUser := next, clock := a.at), actives + [a])
    ensures Timers(actives + [a]) == Splice(s.list, |s.list|, ToTimer(a))
  {
    assert Timers(actives + [a]) == Timers(actives) + [ToTimer(a)];
  }

  lemma SuffixMirrors(s: Server, actives: seq<Active>, n: nat)
    requires Mirrors(s, actives) && n <= |actives|
    ensures Mirrors(s.(list := s.list[n..]), actives[n..])
  {
    assert s.list[n..] == Timers(actives[n..]);
  }

  lemma FoundTogether(s: Server, actives: seq<Active>, user: int) returns (i: nat)
    requires Mirrors(s, actives) && Listed(s.list, user)
    ensures user in Users(actives)
    ensures i == PositionOf(s.list, user) == Find(actives, user)
  {
    i := PositionOf(s.list, user);
    assert Users(actives)[i] == user;
  }

  lemma WithoutMirrors(s: Server, actives: seq<Active>, i: nat)
    requires Mirrors(s, actives) && i < |actives|
    ensures Mirrors(s.(list := Without(s.list, i)), Without(actives, i))
    ensures forall k :: 0 <= k < |actives| - 1 ==> Without(actives, i)[k].user != actives[i].user
  {
    hide Without;
    var rest, list := Without(actives, i), Without(s.list, i);
    forall k | 0 <= k < |rest|
      ensures rest[k] == actives[if k < i then k else k + 1] && list[k] == ToTimer(rest[k])
    {
      WithoutIndex(actives, i, k);
      WithoutIndex(s.list, i, k);
    }
    assert list == Timers(rest);
  }

  lemma MovesToBack(s: Server, actives: seq<Active>, i: nat, now: int)
    requires Mirrors(s, actives) && s.clock <= now && i < |actives|
    ensures var user := actives[i].user;
            Adjust(s.list[i := Timer(user, now + 3 * TIMESLOT)], i)
            == Timers(Without(actives, i) + [Active(user, now)])
  {
  }

  ghost predicate LruRun(start: int, events: seq<Event>, actives: seq<Active>)
    requires LegalRun(start, events)
  {
    if events == [] then actives == []
    else
      var last := |events| - 1;
      exists before :: LruRun(start, events[..last], before) &&
        (events[last].Activity? || events[last].Close? ==> events[last].user in Users(before)) &&
        actives == Lru(before, Serve(start, events[..last]).nextUser, events[last])
  }

  /** Over any run the list is in least-recently-active order: it equals the reference list
      that the same events produce. */
  lemma {:induction false} ListIsLru(start: int, events: seq<Event>) returns (actives: seq<Active>)
    requires LegalRun(start, events)
    ensures LruRun(start, events, actives)
    ensures Mirrors(Serve(start, events), actives)
  {
    actives := [];
    if events != [] {
      var last := |events| - 1;
      var before := ListIsLru(start, events[..last]);
      HandleMirrors(Serve(start, events[..last]), before, events[last]);
      actives := Lru(before, Serve(start, events[..last]).nextUser, events[last]);
    }
  }

  // ----- Idle time -----

  /** Every event comes no later than gap after the last tick. The alarm asks for a tick TIMESLOT
      after the one before, but it is handled only when the loop gets to it. */
  ghost predicate TicksOften(start: int, events: seq<Event>, gap: nat)
    requires LegalRun(start, events)
  {
    events == [] ||
    (var last := |events| - 1;
     && TicksOften(start, events[..last], gap)
     && events[last].now <= Serve(start, events[..last]).lastTick + gap)
  }

  ghost predicate Recent(s: Server, gap: nat)
  {
    && s.lastTick <= s.clock <= s.lastTick + gap
    && forall t :: t in s.list ==> s.lastTick < t.expire
  }

  lemma {:induction false} StaysRecent(start: int, events: seq<Event>, gap: nat)
    requires LegalRun(start, events) && TicksOften(start, events, gap)
    ensures Recent(Serve(start, events), gap)
  {
    if events != [] {
      var last := |events| - 1;
      StaysRecent(start, events[..last], gap);
      var s := Serve(start, events[..last]);
      var actives := ListIsLru(start, events[..last]);
      assert Sorted(s.list);
      HandleStaysRecent(s, events[last], gap);
    }
  }

  lemma HandleStaysRecent(s: Server, e: Event, gap: nat)
    requires Recent(s, gap) && Sorted(s.list) && s.clock <= e.now <= s.lastTick + gap
    requires e.Activity? || e.Close? ==> Listed(s.list, e.user)
    ensures Recent(Handle(s, e), gap)
  {
    match e
    case Tick(now) => DueIsExact(s.list, now);
    case Accept(now) => SpliceAdds(s.list, InsertAt(s.list, now + 3 * TIMESLOT), Timer(s.nextUser, now + 3 * TIMESLOT));
    case Activity(user, now) => ActivityStaysRecent(s, user, now, gap);
    case Close(user, _) => WithoutKeeps(s.list, PositionOf(s.list, user));
  }

  lemma ActivityStaysRecent(s: Server, user: int, now: int, gap: nat)
    requires Recent(s, gap) && s.clock <= now && Listed(s.list, user)
    ensures forall t :: t in Handle(s, Activity(user, now)).list ==> s.lastTick < t.expire
  {
  }

  lemma WithoutKeeps<T>(l: seq<T>, i: nat)
    requires i < |l|
    ensures forall x :: x in Without(l, i) ==> x in l
  {
  }

  lemma SpliceAdds<T>(l: seq<T>, p: nat, t: T)
    requires p <= |l|
    ensures forall x :: x in Splice(l, p, t) ==> x == t || x in l
  {
  }

  /** With ticks at most gap apart, no listed connection has been idle for 3 * TIMESLOT + gap; with a
      tick every TIMESLOT that is 4 * TIMESLOT. */
  lemma IdleBound(start: int, events: seq<Event>, gap: nat) returns (actives: seq<Active>)
    requires LegalRun(start, events) && TicksOften(start, events, gap)
    ensures LruRun(start, events, actives) && Serve(start, events).list == Timers(actives)
    ensures forall i :: 0 <= i < |actives| ==> Serve(start, events).clock - actives[i].at < 3 * TIMESLOT + gap
  {
    hide Handle, LruRun, TicksOften;
    actives := ListIsLru(start, events);
    StaysRecent(start, events, gap);
    var s := Serve(start, events);
    forall i | 0 <= i < |actives| ensures s.clock - actives[i].at < 3 * TIMESLOT + gap {
      assert s.list[i] == ToTimer(actives[i]);
    }
  }

  /** A tick closes exactly the connections that have been idle for 3 * TIMESLOT. */
  lemma TickClosesIdle(start: int, events: seq<Event>, now: int) returns (before: seq<Active>)
    requires LegalRun(start, events) && Serve(start, events).clock <= now
    ensures LruRun(start, events, before) && Serve(start, events).list == Timers(before)
    ensures var after := Handle(Serve(start, events), Tick(now)).list;
            forall i :: 0 <= i < |before| ==> (ToTimer(before[i]) in after <==> now - before[i].at < 3 * TIMESLOT)
  {
    before := ListIsLru(start, events);
    var l := Serve(start, events).list;
    assert Sorted(l);
    DueIsExact(l, now);
    ListedAfter(l, now);
    forall i | 0 <= i < |before|
      ensures ToTimer(before[i]) in l[Due(l, now)..] <==> now - before[i].at < 3 * TIMESLOT
    {
      assert l[i] == ToTimer(before[i]);
    }
  }

  lemma ListedAfter(l: seq<Timer>, now: int)
    requires Sorted(l)
    ensures forall i :: 0 <= i < |l| ==> (l[i] in l[Due(l, now)..] <==> now < l[i].expire)
  {
  }
}
