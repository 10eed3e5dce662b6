/**
 The rate limiter of svm-ingest/rpc-client.ts: calls that enter, wait and start. Times are real numbers of
 milliseconds and a timer never fires early.
 */
module RateLimit {
  import opened Common

  function MaxReal(x: real, y: real): real { if x < y then y else x }

  /** One scheduled call: it enters, computes its wait, and later wakes and starts its request. */
  datatype Event = Enter(id: nat, now: real) | Wake(id: nat, at: real)

  /** due: the earliest wake of every call that is waiting. */
  datatype Limiter = Limiter(nextAllowedAt: real, due: map<nat, real>)

  function LimiterStep(interval: real, l: Limiter, e: Event): Limiter {
    match e
    case Enter(id, now) => l.(due := l.due[id := now + MaxReal(0.0, l.nextAllowedAt - now)])
    case Wake(id, at) => Limiter(at + interval, l.due - {id})
  }

  function LimiterAfter(interval: real, events: seq<Event>): Limiter {
    if events == [] then Limiter(0.0, map[])
    else LimiterStep(interval, LimiterAfter(interval, events[..|events| - 1]), events[|events| - 1])
  }

  function TimeOf(e: Event): real { if e.Enter? then e.now else e.at }

  ghost predicate NotEntered(events: seq<Event>, id: nat) {
    forall i :: 0 <= i < |events| && events[i].Enter? ==> events[i].id != id
  }

  /**
   Runs of the limiter. Time does not run back; every call enters once; a wake is of a waiting call and no
   earlier than due; and a call that has nothing to wait for goes on at once, before anything else happens.
   */
  ghost predicate Timed(interval: real, events: seq<Event>) {
    events == [] ||
    var init, e := events[..|events| - 1], events[|events| - 1];
    && Timed(interval, init)
    && (if init == [] then 0.0 <= TimeOf(e) else TimeOf(init[|init| - 1]) <= TimeOf(e))
    && (GoesOn(interval, init) ==> e.Wake? && e.id == init[|init| - 1].id && e.at == init[|init| - 1].now)
    && match e
       case Enter(id, _) => NotEntered(init, id)
       case Wake(id, at) => id in LimiterAfter(interval, init).due && LimiterAfter(interval, init).due[id] <= at
  }

  /** The last call to enter had nothing to wait for. */
  ghost predicate GoesOn(interval: real, events: seq<Event>) {
    && events != [] && events[|events| - 1].Enter?
    && LimiterAfter(interval, events[..|events| - 1]).nextAllowedAt <= events[|events| - 1].now
  }

  /** Serial callers: no call enters while another waits. */
  ghost predicate Serial(events: seq<Event>) {
    forall i ::
      0 <= i < |events| && events[i].Enter? && i + 1 < |events| ==>
      events[i + 1].Wake? && events[i + 1].id == events[i].id
  }

  ghost predicate Entered(events: seq<Event>, i: nat, id: nat) {
    i < |events| && events[i].Enter? && events[i].id == id
  }

  ghost predicate Woken(events: seq<Event>, i: nat, id: nat) {
    i < |events| && events[i].Wake? && events[i].id == id
  }

  ghost predicate NoStartBetween(events: seq<Event>, i: nat, k: nat) {
    forall j :: i < j < k && j < |events| ==> !events[j].Wake?
  }

  /** No call starts between the entering and the start of another. */
  ghost predicate NoneOvertaken(events: seq<Event>) {
    forall i: nat, k: nat, id :: Entered(events, i, id) && Woken(events, k, id) ==> NoStartBetween(events, i, k)
  }

  /** Start times of the requests, in order. */
  function Starts(events: seq<Event>): seq<real> {
    if events == [] then []
    else
      var e := events[|events| - 1];
      Starts(events[..|events| - 1]) + if e.Wake? then [e.at] else []
  }

  ghost predicate Spaced(interval: real, starts: seq<real>) {
    forall i :: 0 <= i && i + 1 < |starts| ==> starts[i] + interval <= starts[i + 1]
  }

  lemma {:induction false} NextIsAfterLast(interval: real, events: seq<Event>)
    ensures Starts(events) != [] ==>
      LimiterAfter(interval, events).nextAllowedAt == Starts(events)[|Starts(events)| - 1] + interval
    ensures Starts(events) == [] ==> LimiterAfter(interval, events).nextAllowedAt == 0.0
    decreases |events|
  {
    if events != [] { NextIsAfterLast(interval, events[..|events| - 1]); }
  }

  /** A call that waits entered at some place, and is due at once or when the latest start before that allows it. */
  lemma {:induction false} WaiterEntered(interval: real, events: seq<Event>, id: nat) returns (i: nat)
    requires Timed(interval, events) && id in LimiterAfter(interval, events).due
    ensures Entered(events, i, id)
    ensures LimiterAfter(interval, events).due[id] ==
      MaxReal(events[i].now, LimiterAfter(interval, events[..i]).nextAllowedAt)
    decreases |events|
  {
    var n := |events| - 1;
    var init, e := events[..n], events[n];
    if e.Enter? && e.id == id {
      i := n;
    } else {
      i := WaiterEntered(interval, init, id);
      assert init[..i] == events[..i] && init[i] == events[i];
    }
  }

  /** Without a start in between, the limiter is as it was. */
  lemma {:induction false} NextUnmoved(interval: real, events: seq<Event>, i: nat)
    requires i <= |events| && forall j :: i <= j < |events| ==> events[j].Enter?
    ensures LimiterAfter(interval, events).nextAllowedAt == LimiterAfter(interval, events[..i]).nextAllowedAt
    decreases |events|
  {
    if i == |events| {
      assert events[..i] == events;
    } else {
      var init := events[..|events| - 1];
      NextUnmoved(interval, init, i);
      assert init[..i] == events[..i];
    }
  }

  lemma NoneOvertakenBefore(events: seq<Event>, n: nat)
    requires NoneOvertaken(events) && n <= |events|
    ensures NoneOvertaken(events[..n])
  {
    forall i: nat, k: nat, id | Entered(events[..n], i, id) && Woken(events[..n], k, id)
      ensures NoStartBetween(events[..n], i, k)
    {
      assert Entered(events, i, id) && Woken(events, k, id);
      assert NoStartBetween(events, i, k);
    }
  }

  /** Calls that nobody overtakes start at least the interval apart. */
  lemma {:induction false} SpacedIfNoneOvertaken(interval: real, events: seq<Event>)
    requires Timed(interval, events) && NoneOvertaken(events)
    ensures Spaced(interval, Starts(events))
    decreases |events|
  {
    if events != [] {
      var n := |events| - 1;
      var init, e := events[..n], events[n];
      NoneOvertakenBefore(events, n);
      SpacedIfNoneOvertaken(interval, init);
      if e.Wake? {
        var i := WaiterEntered(interval, init, e.id);
        assert Entered(events, i, e.id) && Woken(events, n, e.id);
        assert NoStartBetween(events, i, n);
        assert forall j :: i < j < n ==> init[j] == events[j];
        NextUnmoved(interval, init, i);
        NextIsAfterLast(interval, init);
      }
    }
  }

  /** One more event. */
  lemma OneMore(interval: real, events: seq<Event>, e: Event, l: Limiter)
    requires Timed(interval, events) && l == LimiterAfter(interval, events)
    requires if events == [] then 0.0 <= TimeOf(e) else TimeOf(events[|events| - 1]) <= TimeOf(e)
    requires GoesOn(interval, events) ==>
      e.Wake? && e.id == events[|events| - 1].id && e.at == events[|events| - 1].now
    requires if e.Enter? then NotEntered(events, e.id) else e.id in l.due && l.due[e.id] <= e.at
    ensures Timed(interval, events + [e]) && LimiterAfter(interval, events + [e]) == LimiterStep(interval, l, e)
    ensures Starts(events + [e]) == Starts(events) + if e.Wake? then [e.at] else []
    ensures GoesOn(interval, events + [e]) <==> e.Enter? && l.nextAllowedAt <= e.now
  {
    assert (events + [e])[..|events|] == events;
  }

  // ---------------------------------------------------------------- every timing of a run

  /** The same calls enter and wake in the same order, at whatever times. */
  ghost predicate SameTurns(a: seq<Event>, b: seq<Event>) {
    |a| == |b| && forall i :: 0 <= i < |a| ==> (a[i].Enter? <==> b[i].Enter?) && a[i].id == b[i].id
  }

  ghost predicate SpacedAtAnyTime(interval: real, events: seq<Event>) {
    forall other :: Timed(interval, other) && SameTurns(events, other) ==> Spaced(interval, Starts(other))
  }

  lemma NoneOvertakenAlike(a: seq<Event>, b: seq<Event>)
    requires SameTurns(a, b) && NoneOvertaken(a)
    ensures NoneOvertaken(b)
  {
    forall i: nat, k: nat, id | Entered(b, i, id) && Woken(b, k, id) ensures NoStartBetween(b, i, k) {
      assert Entered(a, i, id) && Woken(a, k, id);
      assert NoStartBetween(a, i, k);
    }
  }

  /**
   Times for the events of a run: a call enters right after the latest start, every start is an interval after
   the one before, but for the first, which goes on at once, and the start at place k, which comes together with the
   one before.
   */
  function Clock(interval: real, events: seq<Event>, k: nat, n: nat): real
    requires n < |events|
  {
    if n == 0 then 0.0
    else Clock(interval, events, k, n - 1) + if events[n].Wake? && n > 1 && n != k then interval else 0.0
  }

  function Retimed(interval: real, events: seq<Event>, k: nat): (r: seq<Event>)
    ensures SameTurns(events, r)
  {
    seq(|events|, n requires 0 <= n < |events| =>
      if events[n].Enter? then Enter(events[n].id, Clock(interval, events, k, n))
      else Wake(events[n].id, Clock(interval, events, k, n)))
  }

  lemma {:induction false} ClockRises(interval: real, events: seq<Event>, k: nat, m: nat, n: nat)
    requires interval > 0.0 && m <= n < |events|
    ensures 0.0 <= Clock(interval, events, k, m) <= Clock(interval, events, k, n)
    ensures (exists j :: m < j <= n && events[j].Wake? && j > 1 && j != k) ==>
      Clock(interval, events, k, m) + interval <= Clock(interval, events, k, n)
    ensures (forall j :: m < j <= n ==> events[j].Enter? || j == k) ==>
      Clock(interval, events, k, m) == Clock(interval, events, k, n)
    decreases n
  {
    if m < n {
      ClockRises(interval, events, k, m, n - 1);
    } else if n > 0 {
      ClockRises(interval, events, k, n - 1, n - 1);
    }
  }

  /** The calls that wait depend on the order of the events alone. */
  lemma {:induction false} SameWait(interval: real, a: seq<Event>, b: seq<Event>)
    requires SameTurns(a, b)
    ensures LimiterAfter(interval, a).due.Keys == LimiterAfter(interval, b).due.Keys
    decreases |a|
  {
    if a != [] { SameWait(interval, a[..|a| - 1], b[..|b| - 1]); }
  }

  lemma {:induction false} TimedBefore(interval: real, events: seq<Event>, n: nat)
    requires Timed(interval, events) && n <= |events|
    ensures Timed(interval, events[..n])
    decreases |events|
  {
    if n == |events| {
      assert events[..n] == events;
    } else {
      assert events[..|events| - 1][..n] == events[..n];
      TimedBefore(interval, events[..|events| - 1], n);
    }
  }

  /** The first call goes on at once. */
  lemma FirstGoesOn(interval: real, events: seq<Event>)
    requires Timed(interval, events) && events != []
    ensures events[0].Enter?
    ensures |events| > 1 ==> Woken(events, 1, events[0].id)
  {
    TimedBefore(interval, events, 1);
    assert events[..1][..0] == [];
    if |events| > 1 {
      TimedBefore(interval, events, 2);
      assert events[..2][..1] == events[..1];
    }
  }

  lemma {:induction false} RetimedNext(interval: real, events: seq<Event>, k: nat, n: nat)
    requires Timed(interval, events) && 2 <= n <= |events|
    ensures LimiterAfter(interval, Retimed(interval, events, k)[..n]).nextAllowedAt ==
      Clock(interval, events, k, n - 1) + interval
    decreases n
  {
    var r := Retimed(interval, events, k);
    FirstGoesOn(interval, events);
    assert r[..n][..n - 1] == r[..n - 1];
    if n > 2 { RetimedNext(interval, events, k, n - 1); }
  }

  /** The call that wakes at place k was overtaken. */
  ghost predicate OvertakenAt(events: seq<Event>, k: nat) {
    exists i: nat, id :: Entered(events, i, id) && Woken(events, k, id) && !NoStartBetween(events, i, k)
  }

  /** What a call that enters at the new times is due at. */
  lemma RetimedEntry(interval: real, events: seq<Event>, k: nat, i: nat)
    requires interval > 0.0 && Timed(interval, events) && i < |events| && events[i].Enter?
    ensures var r := Retimed(interval, events, k); var next := LimiterAfter(interval, r[..i]).nextAllowedAt;
      MaxReal(r[i].now, next) == Clock(interval, events, k, i) + if i > 0 then interval else 0.0
  {
    FirstGoesOn(interval, events);
    if i > 0 { RetimedNext(interval, events, k, i); } else { assert Retimed(interval, events, k)[..0] == []; }
  }

  /** A call that did not enter first starts an interval after it entered, or later. */
  lemma RetimedLater(interval: real, events: seq<Event>, k: nat, i: nat, n: nat)
    requires interval > 0.0 && Timed(interval, events) && OvertakenAt(events, k)
    requires 0 < i < n < |events| && events[n].Wake? && Entered(events, i, events[n].id)
    ensures Clock(interval, events, k, i) + interval <= Clock(interval, events, k, n)
  {
    FirstGoesOn(interval, events);
    ClockRises(interval, events, k, i, n);
    if n == k { OvertakenLate(interval, events, k, i); }
  }

  /** A wake at the new times is not before it is due. */
  lemma RetimedDue(interval: real, events: seq<Event>, k: nat, n: nat)
    requires interval > 0.0 && Timed(interval, events) && OvertakenAt(events, k) && n < |events| && events[n].Wake?
    requires var r := Retimed(interval, events, k); Timed(interval, r[..n])
    ensures var r := Retimed(interval, events, k); var l := LimiterAfter(interval, r[..n]);
      events[n].id in l.due && l.due[events[n].id] <= Clock(interval, events, k, n)
  {
    var r, id := Retimed(interval, events, k), events[n].id;
    StillWaits(interval, events, r, n);
    var i := WaiterEntered(interval, r[..n], id);
    assert Entered(events, i, id) && r[..n][..i] == r[..i];
    RetimedEntry(interval, events, k, i);
    if i > 0 { RetimedLater(interval, events, k, i, n); } else { ClockRises(interval, events, k, 0, n); }
  }

  lemma StillWaits(interval: real, events: seq<Event>, r: seq<Event>, n: nat)
    requires Timed(interval, events) && SameTurns(events, r) && n < |events| && events[n].Wake?
    ensures events[n].id in LimiterAfter(interval, r[..n]).due
  {
    TimedBefore(interval, events, n + 1);
    assert events[..n + 1][..n] == events[..n];
    SameWait(interval, events[..n], r[..n]);
  }

  /** A start comes after the overtaken call entered, and before it wakes. */
  lemma OvertakenLate(interval: real, events: seq<Event>, k: nat, i: nat)
    requires Timed(interval, events) && OvertakenAt(events, k) && Entered(events, i, events[k].id) && 1 < i
    ensures exists j :: i < j < k && events[j].Wake?
  {
    var i': nat, id :| Entered(events, i', id) && Woken(events, k, id) && !NoStartBetween(events, i', k);
    EntersOnce(interval, events, i, i', id);
  }

  /** A call that enters at the new times finds the latest start less than an interval ago, but for the first. */
  lemma RetimedWaits(interval: real, events: seq<Event>, k: nat, n: nat)
    requires interval > 0.0 && Timed(interval, events) && 0 < n < |events|
    ensures var r := Retimed(interval, events, k);
      GoesOn(interval, r[..n]) ==> n == 1 && r[1].Wake? && r[1].id == r[0].id && r[1].at == r[0].now
  {
    var r := Retimed(interval, events, k);
    FirstGoesOn(interval, events);
    assert r[..n][..n - 1] == r[..n - 1];
    if n > 2 { RetimedNext(interval, events, k, n - 1); }
  }

  lemma RetimedStep(interval: real, events: seq<Event>, k: nat, n: nat)
    requires interval > 0.0 && Timed(interval, events) && OvertakenAt(events, k) && n < |events|
    requires var r := Retimed(interval, events, k); Timed(interval, r[..n])
    ensures var r := Retimed(interval, events, k); Timed(interval, r[..n + 1])
  {
    var r := Retimed(interval, events, k);
    if n > 0 { RetimedWaits(interval, events, k, n); }
    if events[n].Wake? { RetimedDue(interval, events, k, n); } else { StaysNew(interval, events, r, n); }
    ClockRises(interval, events, k, if n == 0 then 0 else n - 1, n);
    OneMoreTimed(interval, r, n);
  }

  lemma OneMoreTimed(interval: real, r: seq<Event>, n: nat)
    requires n < |r| && Timed(interval, r[..n])
    requires if n == 0 then 0.0 <= TimeOf(r[n]) else TimeOf(r[n - 1]) <= TimeOf(r[n])
    requires n > 0 && GoesOn(interval, r[..n]) ==> r[n].Wake? && r[n].id == r[n - 1].id && r[n].at == r[n - 1].now
    requires var l := LimiterAfter(interval, r[..n]);
      if r[n].Enter? then NotEntered(r[..n], r[n].id) else r[n].id in l.due && l.due[r[n].id] <= r[n].at
    ensures Timed(interval, r[..n + 1])
  {
    OneMore(interval, r[..n], r[n], LimiterAfter(interval, r[..n]));
    assert r[..n + 1] == r[..n] + [r[n]];
  }

  lemma StaysNew(interval: real, events: seq<Event>, r: seq<Event>, n: nat)
    requires Timed(interval, events) && SameTurns(events, r) && n < |events| && events[n].Enter?
    ensures NotEntered(r[..n], r[n].id)
  {
    TimedBefore(interval, events, n + 1);
    assert events[..n + 1][..n] == events[..n];
    assert NotEntered(events[..n], events[n].id);
    forall i | 0 <= i < n && r[..n][i].Enter? ensures r[..n][i].id != r[n].id { assert events[..n][i].Enter?; }
  }

  lemma {:induction false} RetimedIsTimed(interval: real, events: seq<Event>, k: nat, n: nat)
    requires interval > 0.0 && Timed(interval, events) && OvertakenAt(events, k) && n <= |events|
    ensures Timed(interval, Retimed(interval, events, k)[..n])
    decreases n
  {
    if n > 0 {
      RetimedIsTimed(interval, events, k, n - 1);
      RetimedStep(interval, events, k, n - 1);
    }
  }

  lemma {:induction false} StartsBefore(events: seq<Event>, n: nat)
    requires n <= |events|
    ensures Starts(events[..n]) <= Starts(events)
    decreases |events|
  {
    if n == |events| {
      assert events[..n] == events;
    } else {
      assert events[..|events| - 1][..n] == events[..n];
      StartsBefore(events[..|events| - 1], n);
    }
  }

  /** At the new times the overtaken call starts together with the one before it. */
  lemma RetimedStarts(interval: real, events: seq<Event>, k: nat)
    requires interval > 0.0 && Timed(interval, events) && OvertakenAt(events, k)
    ensures !Spaced(interval, Starts(Retimed(interval, events, k)))
  {
    var r := Retimed(interval, events, k);
    RetimedNext(interval, events, k, k);
    SomeStart(r, k);
    StartsTogether(interval, r, k);
  }

  /** A start at the time of the event before it, which is also the time of the start before it. */
  lemma StartsTogether(interval: real, r: seq<Event>, k: nat)
    requires interval > 0.0 && 0 < k < |r| && r[k].Wake? && r[k].at == TimeOf(r[k - 1]) && Starts(r[..k]) != []
    requires LimiterAfter(interval, r[..k]).nextAllowedAt == TimeOf(r[k - 1]) + interval
    ensures !Spaced(interval, Starts(r))
  {
    NextIsAfterLast(interval, r[..k]);
    var before, all := Starts(r[..k]), Starts(r);
    assert r[..k + 1][..k] == r[..k];
    assert Starts(r[..k + 1]) == before + [r[k].at];
    StartsBefore(r, k + 1);
    assert all[|before| - 1] == before[|before| - 1] && all[|before|] == r[k].at;
  }

  lemma {:induction false} SomeStart(events: seq<Event>, n: nat)
    requires n <= |events| && exists j :: 0 <= j < n && events[j].Wake?
    ensures Starts(events[..n]) != []
    decreases n
  {
    assert events[..n][..n - 1] == events[..n - 1];
    if events[n - 1].Enter? { SomeStart(events, n - 1); }
  }

  /**
   The starts of a run are spaced whatever its times exactly when no call starts between the entering and the
   start of another.
   */
  lemma SpacedIff(interval: real, events: seq<Event>)
    requires interval > 0.0 && Timed(interval, events)
    ensures SpacedAtAnyTime(interval, events) <==> NoneOvertaken(events)
  {
    if NoneOvertaken(events) {
      forall other | Timed(interval, other) && SameTurns(events, other) ensures Spaced(interval, Starts(other)) {
        NoneOvertakenAlike(events, other);
        SpacedIfNoneOvertaken(interval, other);
      }
    } else {
      var i: nat, k: nat, id :| Entered(events, i, id) && Woken(events, k, id) && !NoStartBetween(events, i, k);
      var r := Retimed(interval, events, k);
      RetimedIsTimed(interval, events, k, |events|);
      assert r[..|events|] == r;
      RetimedStarts(interval, events, k);
    }
  }

  // ---------------------------------------------------------------- serial callers

  /** No call enters while another waits: then nobody overtakes. */
  lemma SerialOvertakesNone(interval: real, events: seq<Event>)
    requires Timed(interval, events) && Serial(events)
    ensures NoneOvertaken(events)
  {
    forall i: nat, k: nat, id | Entered(events, i, id) && Woken(events, k, id) ensures NoStartBetween(events, i, k) {
      if i + 1 < |events| {
        assert Woken(events, i + 1, id);
        if i + 1 <= k { WakesOnce(interval, events, i + 1, k, id); }
      }
    }
  }

  /** A call wakes once. */
  lemma {:induction false} WakesOnce(interval: real, events: seq<Event>, j: nat, k: nat, id: nat)
    requires Timed(interval, events) && Woken(events, j, id) && Woken(events, k, id) && j <= k
    ensures j == k
    decreases |events|
  {
    var n := |events| - 1;
    var init := events[..n];
    if k < n {
      assert Woken(init, j, id) && Woken(init, k, id);
      WakesOnce(interval, init, j, k, id);
    } else if j < k {
      assert Woken(init, j, id);
      NotWaitingAfterWake(interval, init, j, id);
    }
  }

  lemma {:induction false} NotWaitingAfterWake(interval: real, events: seq<Event>, j: nat, id: nat)
    requires Timed(interval, events) && Woken(events, j, id)
    ensures id !in LimiterAfter(interval, events).due && !NotEntered(events, id)
    decreases |events|
  {
    var n := |events| - 1;
    var init := events[..n];
    if j < n {
      assert Woken(init, j, id);
      NotWaitingAfterWake(interval, init, j, id);
      var i :| 0 <= i < |init| && init[i].Enter? && init[i].id == id;
      assert events[i] == init[i];
    } else {
      var i := WaiterEntered(interval, init, id);
      assert events[i] == init[i];
    }
  }

  lemma {:induction false} EntersOnce(interval: real, events: seq<Event>, i: nat, j: nat, id: nat)
    requires Timed(interval, events) && Entered(events, i, id) && Entered(events, j, id)
    ensures i == j
    decreases |events|
  {
    var n := |events| - 1;
    var init := events[..n];
    forall m | 0 <= m < n && events[n].Enter? && events[m].Enter? ensures events[m].id != events[n].id {
      assert init[m] == events[m];
    }
    if i < n && j < n { EntersOnce(interval, init, i, j, id); }
  }

  /** Every call that entered woke up in the end. */
  ghost predicate AllWoken(events: seq<Event>) {
    forall i, id :: Entered(events, i, id) ==> exists k :: Woken(events, k, id)
  }

  lemma WakesLater(interval: real, events: seq<Event>, i: nat, id: nat) returns (k: nat)
    requires Timed(interval, events) && AllWoken(events) && Entered(events, i, id)
    ensures i < k && Woken(events, k, id)
  {
    k :| Woken(events, k, id);
    TimedBefore(interval, events, k + 1);
    assert events[..k + 1][..k] == events[..k];
    var j := WaiterEntered(interval, events[..k], id);
    assert Entered(events, j, id);
    EntersOnce(interval, events, i, j, id);
  }

  /** When every call has started, that means: no call entered while another waited. */
  lemma SerialIff(interval: real, events: seq<Event>)
    requires Timed(interval, events) && AllWoken(events)
    ensures NoneOvertaken(events) <==> Serial(events)
  {
    if Serial(events) { SerialOvertakesNone(interval, events); }
    if NoneOvertaken(events) {
      forall i | 0 <= i < |events| && events[i].Enter? && i + 1 < |events|
        ensures events[i + 1].Wake? && events[i + 1].id == events[i].id
      {
        WakesNext(interval, events, i);
      }
    }
  }

  lemma WakesNext(interval: real, events: seq<Event>, i: nat)
    requires Timed(interval, events) && AllWoken(events) && NoneOvertaken(events)
    requires i + 1 < |events| && events[i].Enter?
    ensures Woken(events, i + 1, events[i].id)
  {
    var a, b := events[i].id, events[i + 1].id;
    assert Entered(events, i, a);
    var k := WakesLater(interval, events, i, a);
    assert NoStartBetween(events, i, k);
    if events[i + 1].Enter? {
      assert Entered(events, i + 1, b);
      var l := WakesLater(interval, events, i + 1, b);
      assert NoStartBetween(events, i + 1, l);
      if a == b { EntersOnce(interval, events, i, i + 1, a); }
      assert false;
    }
  }

  /** With serial callers, successive requests start at least the interval apart. */
  lemma SerialCallsAreSpaced(interval: real, events: seq<Event>)
    requires Timed(interval, events) && Serial(events)
    ensures Spaced(interval, Starts(events))
  {
    SerialOvertakesNone(interval, events);
    SpacedIfNoneOvertaken(interval, events);
  }

  lemma {:induction false} SpacedApart(interval: real, starts: seq<real>, i: nat, j: nat)
    requires Spaced(interval, starts) && i <= j < |starts|
    ensures starts[i] + (j - i) as real * interval <= starts[j]
    decreases j - i
  {
    if i < j {
      SpacedApart(interval, starts, i, j - 1);
      assert starts[j - 1] + interval <= starts[j];
      assert (j - i) as real * interval == (j - 1 - i) as real * interval + interval;
    }
  }

  /**
   So n + 1 requests in a row take at least n intervals: a window of w milliseconds holds at most w /
   interval + 1 of them.
   */
  lemma WindowBound(interval: real, events: seq<Event>, i: nat, j: nat, w: real)
    requires Timed(interval, events) && Serial(events) && i <= j < |Starts(events)|
    requires Starts(events)[j] - Starts(events)[i] <= w
    ensures (j - i) as real * interval <= w
  {
    SerialCallsAreSpaced(interval, events);
    SpacedApart(interval, Starts(events), i, j);
  }

  /** Two calls that wait at the same time start at the same time. */
  lemma ConcurrentCallsAreNotSpaced(interval: real)
    requires interval > 0.0
    ensures var due := 1.0 + interval;
      var events := [Enter(0, 1.0), Wake(0, 1.0), Enter(1, 1.0), Enter(2, 1.0), Wake(1, due), Wake(2, due)];
      Timed(interval, events) && Starts(events) == [1.0, due, due] && !Spaced(interval, Starts(events))
  {
    var due := 1.0 + interval;
    var before := OneCallStarted(interval, due);
    var waiting := Limiter(due, map[1 := due, 2 := due]);
    OneMore(interval, before, Wake(1, due), waiting);
    var five := before + [Wake(1, due)];
    OneMore(interval, five, Wake(2, due), LimiterStep(interval, waiting, Wake(1, due)));
    assert five + [Wake(2, due)] ==
      [Enter(0, 1.0), Wake(0, 1.0), Enter(1, 1.0), Enter(2, 1.0), Wake(1, due), Wake(2, due)];
    var starts := Starts(five + [Wake(2, due)]);
    assert starts == [1.0, due, due] && starts[1] + interval > starts[2];
  }

  /** One call has started at 1, and two wait. */
  lemma OneCallStarted(interval: real, due: real) returns (events: seq<Event>)
    requires interval > 0.0 && due == 1.0 + interval
    ensures events == [Enter(0, 1.0), Wake(0, 1.0), Enter(1, 1.0), Enter(2, 1.0)]
    ensures Timed(interval, events) && Starts(events) == [1.0] && !GoesOn(interval, events)
    ensures LimiterAfter(interval, events) == Limiter(due, map[1 := due, 2 := due])
  {
    OneMore(interval, [], Enter(0, 1.0), Limiter(0.0, map[]));
    assert [] + [Enter(0, 1.0)] == [Enter(0, 1.0)];
    OneMore(interval, [Enter(0, 1.0)], Wake(0, 1.0), Limiter(0.0, map[0 := 1.0]));
    var two := [Enter(0, 1.0)] + [Wake(0, 1.0)];
    assert map[0 := 1.0] - {0} == map[];
    OneMore(interval, two, Enter(1, 1.0), Limiter(due, map[]));
    OneMore(interval, two + [Enter(1, 1.0)], Enter(2, 1.0), Limiter(due, map[1 := due]));
    events := two + [Enter(1, 1.0)] + [Enter(2, 1.0)];
  }

  /** The limiter as the serial caller sees it: entered at now, woken and started at the time given. */
  class RateLimiter {
    const minIntervalMs: real
    var nextAllowedAt: real

    constructor (maxRps: real)
      requires maxRps > 0.0
      ensures nextAllowedAt == 0.0 && minIntervalMs == 1000.0 / maxRps
    {
      minIntervalMs := 1000.0 / maxRps;
      nextAllowedAt := 0.0;
    }

    /** overslept: how late the timer fires, when there is one. */
    method Schedule(id: nat, now: real, overslept: real) returns (start: real)
      requires overslept >= 0.0
      modifies this
      ensures start == if old(nextAllowedAt) <= now then now else old(nextAllowedAt) + overslept
      ensures forall due :: id !in due ==>
        LimiterStep(minIntervalMs, LimiterStep(minIntervalMs, Limiter(old(nextAllowedAt), due), Enter(id, now)),
          Wake(id, start))
          == Limiter(nextAllowedAt, due)
      ensures forall events ::
        && Timed(minIntervalMs, events) && LimiterAfter(minIntervalMs, events) == Limiter(old(nextAllowedAt), map[])
        && NotEntered(events, id) && 0.0 <= now && (events != [] ==> TimeOf(events[|events| - 1]) <= now)
        ==> Timed(minIntervalMs, events + [Enter(id, now)] + [Wake(id, start)])
    {
      var wait := MaxReal(0.0, nextAllowedAt - now);
      start := if wait > 0.0 then now + wait + overslept else now;
      ghost var l := Limiter(nextAllowedAt, map[]);
      nextAllowedAt := start + minIntervalMs;
      assert forall due: map<nat, real> :: id !in due ==> due[id := now + wait] - {id} == due;
      forall events |
        && Timed(minIntervalMs, events) && LimiterAfter(minIntervalMs, events) == l
        && NotEntered(events, id) && 0.0 <= now && (events != [] ==> TimeOf(events[|events| - 1]) <= now)
        ensures Timed(minIntervalMs, events + [Enter(id, now)] + [Wake(id, start)])
      {
        NobodyGoesOn(minIntervalMs, events);
        OneMore(minIntervalMs, events, Enter(id, now), l);
        OneMore(minIntervalMs, events +
          [Enter(id, now)], Wake(id, start), LimiterStep(minIntervalMs, l, Enter(id, now)));
      }
    }
  }

  lemma NobodyGoesOn(interval: real, events: seq<Event>)
    requires LimiterAfter(interval, events).due == map[]
    ensures !GoesOn(interval, events)
  {
    LastWaits(interval, events);
  }

  lemma LastWaits(interval: real, events: seq<Event>)
    ensures events != [] && events[|events| - 1].Enter? ==>
      events[|events| - 1].id in LimiterAfter(interval, events).due
  {
  }
}
