/**
 What the loop shows of itself: which incident a failure leaves, what a restart reads back, the lag, and the
 /ready answer (svm-ingest/ingest-loop.ts, svm-ingest/ingest-rpc-failure.ts, svm-ingest/http-health.ts).
 */
module IngestSurface {
  import opened Common
  import opened Ingest
  import opened IngestSlots
  import opened IngestDiscovery
  import opened IngestCatchUp
  import opened IngestPasses
  import opened IngestRuns
  import opened IngestRetention

  // ---------------------------------------------------------------- incidents by their failure

  /** Whether the loop halts on an incident: a gap, the window, and retention; everything else is tried again. */
  lemma HaltsOn(env: Env, s: State, incident: Incident, at: Option<int>)
    ensures var t := RecordIncident(env, s, incident, at).s;
      t.mem.halted <==>
        || s.mem.halted
        || incident in {CatchupWindowExceeded, SequenceGap, StartupRetentionUnavailable}
  {
  }

  /**
   A failed call leaves the incident of its class, and anything else is thrown on: an exhausted budget, a broken
   transport, any other error.
   */
  lemma FailureNames(env: Env, s: State, e: Err)
    ensures var o := Rescue(env, s, Thrown(e));
      && (e == Other ==> o == Fail(s, Thrown(e)))
      && (e == Budget ==> o.s.mem == s.mem.(incident := Some(RpcBudgetExhausted)))
      && (e == Transport ==> o.s.mem == s.mem.(incident := Some(RpcUnreachable)))
      && (e != Other && o.Next? ==> o.s.store == s.store.(journal := s.store.journal + [CursorOf(o.s.mem)]))
  {
  }

  /** A poll that fails ends the discovery with the incident of its class; an error of no class is incompleteness. */
  lemma PollFailureNames(env: Env, s: State, after: Option<int>, s1: State, e: Err)
    requires PollPrograms(env, s, [], true) == Fail(s1, Thrown(e)) && Answered(s1.script)
    ensures var o := DiscoverOrIncident(env, s, after);
      && Waits(o)
      && (o.Next? ==> o.v.None?)
      && o.s.mem.incident ==
         match e
         case Budget => Some(RpcBudgetExhausted)
         case Transport => Some(RpcUnreachable)
         case Other => Some(DiscoveryIncomplete)
  {
    IncidentWaits(env, s1, DiscoveryIncomplete, None);
    if e != Other { IncidentWaits(env, s1, if e == Budget then RpcBudgetExhausted else RpcUnreachable, None); }
  }

  /** A failed RPC call: named and stored by its class, or thrown on with nothing but the call spent. */
  ghost predicate Named(s: State, e: Err, o: Out<()>) {
    && o.s.store.payloads == s.store.payloads && o.s.store.refusals == s.store.refusals
    && (e == Other ==> o.Fail? && o.why == Thrown(Other) && o.s.store == s.store && o.s.mem == s.mem)
    && (e == Budget ==> o.s.mem == s.mem.(incident := Some(RpcBudgetExhausted)))
    && (e == Transport ==> o.s.mem == s.mem.(incident := Some(RpcUnreachable)))
    && (e != Other && o.Next? ==> o.s.store.journal == s.store.journal + [CursorOf(o.s.mem)])
  }

  /** What a catch-up pass keeps of an incident: a gap in the sequence and an exceeded window. */
  function Carried(incident: Option<Incident>): Option<Incident> {
    if incident == Some(SequenceGap) || incident == Some(CatchupWindowExceeded) then incident else None
  }

  /** A catch-up pass that cannot read the head: un-halted, with only those incidents kept, and the failure named. */
  lemma CatchUpHeadFails(env: Env, s: State, e: Err, onStore: Err, applied: bool)
    requires s.script != [] && s.script[0] == Throw(e, onStore, applied)
    ensures Named(s.(mem := s.mem.(halted := false, incident := Carried(s.mem.incident))), e, CatchUpToHead(env, s))
  {
    var m := s.mem.(halted := false, incident := Carried(s.mem.incident));
    ForgivenIs(s.mem);
    var s1 := s.(mem := m, script := s.script[1..]);
    assert Call(env, s.(mem := m)) == Fail(s1, Thrown(e));
    FailureNames(env, s1, e);
  }

  lemma ForgivenIs(m: Mem)
    ensures Forgive(m) == m.(halted := false, incident := Carried(m.incident))
  {
    HaltingAre(m.incident);
  }

  /** A tick of a halted or bootstrapping loop does nothing; one that cannot read the head names the failure. */
  lemma FollowHeadFails(env: Env, s: State, e: Err, onStore: Err, applied: bool)
    ensures s.mem.halted || s.mem.bootstrap ==> FollowOnce(env, s) == Next(s, ())
    ensures !s.mem.halted && !s.mem.bootstrap && s.script != [] && s.script[0] == Throw(e, onStore, applied) ==>
      Named(s, e, FollowOnce(env, s))
  {
    if !s.mem.halted && !s.mem.bootstrap && s.script != [] && s.script[0] == Throw(e, onStore, applied) {
      var s1 := s.(script := s.script[1..]);
      assert Call(env, s) == Fail(s1, Thrown(e));
      FailureNames(env, s1, e);
    }
  }

  /** A list in reach whose first available block cannot be read: the failure is named and no slot is taken. */
  lemma FirstAvailableFails(env: Env, s: State, slots: seq<int>, head: int, e: Err, onStore: Err, applied: bool)
    requires Ascending(slots) && InReach(env, s, slots, head)
    requires s.script != [] && s.script[0] == Throw(e, onStore, applied)
    ensures var o := ProcessSlotList(env, s, slots, head);
      Named(s, e, if o.Next? then Next(o.s, ()) else Fail(o.s, o.why)) && (o.Next? ==> !o.v)
  {
    OldestBeyond(env, s, head, slots);
    var s1 := s.(script := s.script[1..]);
    assert Call(env, s) == Fail(s1, Thrown(e));
    FailureNames(env, s1, e);
  }

  /** A pending slot whose block cannot be read: the failure is named, and neither it nor a later slot is taken. */
  lemma BlockFails(env: Env, s: State, slots: seq<int>, first: int, e: Err, onStore: Err, applied: bool)
    requires slots != [] && first <= slots[0] && s.mem.last < slots[0] && !s.mem.halted
    requires s.script != [] && s.script[0] == Throw(e, onStore, applied)
    ensures var o := TakeSlots(env, s, slots, first);
      Named(s, e, if o.Next? then Next(o.s, ()) else Fail(o.s, o.why)) && (o.Next? ==> !o.v)
  {
    var s1 := s.(script := s.script[1..]);
    assert Call(env, s) == Fail(s1, Thrown(e));
    assert IngestDiscoveredSlot(env, s, slots[0]) == Fail(s1, Thrown(e));
    FailureNames(env, s1, e);
  }

  /** A pass whose start slot is at or before the head and pruned ends there: halted, with the refusal on record. */
  lemma PrunedStartEndsPass(env: Env, s: State, head: int, first: int)
    requires Answered(s.script) && |s.script| >= 2 && s.script[0].Ok? && s.script[1].Ok?
    requires s.script[0].a.head == head && s.script[1].a.firstAvailable == first
    requires env.startSlot <= head && env.startSlot < first
    ensures var o := CatchUpToHead(env, s);
      && o.Fail? && (o.why == Thrown(Other) || o.why == Stopped)
      && o.s.mem == s.mem.(halted := true, incident := Some(StartupRetentionUnavailable))
      && o.s.store.payloads == s.store.payloads && o.s.discoveries == s.discoveries
      && (o.why == Thrown(Other) ==>
            o.s.store.refusals ==
              s.store.refusals + {IncidentRefusal(StartupRetentionUnavailable, Some(env.startSlot))})
  {
    var s0 := s.(mem := Forgive(s.mem));
    var s1 := s0.(script := s.script[1..]);
    assert Call(env, s0) == Next(s1, s.script[0].a);
    assert s1.script[0] == s.script[1];
    assert forall r :: r in s1.script ==> r in s.script;
    StartupRefusedIff(env, s1, head);
    IncidentWaits(env, s1.(script := s1.script[1..]), StartupRetentionUnavailable, Some(env.startSlot));
  }

  /** A bootstrap discovery short of a program's floor ends the pass on that incident, without halting. */
  lemma FloorsMissingNames(env: Env, s: State, head: int)
    requires s.mem.bootstrap
    ensures var d, o := DiscoverOrIncident(env, s, None), Enumerate(env, s, head);
      d.Next? && d.v.Some? && !d.v.value.floors && o.Next? ==>
        && o.v.None? && o.s.mem.incident == Some(BootstrapRangeNotEnumerated) && o.s.mem.halted == s.mem.halted
        && o.s.mem.bootstrap && o.s.mem.last == s.mem.last
  {
  }

  /** A verification that still finds slots above the watermark after taking the extras ends on incompleteness. */
  lemma StillFoundNames(env: Env, s: State, extras: seq<int>, head: int)
    requires extras != []
    ensures var o1 := ProcessSlotList(env, s, extras, head);
      o1.Next? && o1.v ==>
        var o2, o := Enumerate(env, o1.s, head), SettleExtras(env, s, extras, head);
        o2.Next? && o2.v.Some? && Above(o2.v.value.slots, o2.s.mem.last) != [] && o.Next? ==>
          !o.v && o.s.mem.incident == Some(DiscoveryIncomplete) && o.s.mem.last == o1.s.mem.last
  {
  }

  /**
   Completion leaves the least watermark that is not below the one before, and while bootstrapping not below the slot
   before the start, nor, with nothing found, below the head.
   */
  lemma CompletedAt(env: Env, s: State, head: int, nothingFound: bool, x: int)
    ensures var m := CompleteCatchUp(env, s, head, nothingFound).s.mem;
      && !m.bootstrap && m.incident == None && m.halted == s.mem.halted
      && (m.last <= x <==>
            s.mem.last <= x && (s.mem.bootstrap ==> env.startSlot - 1 <= x && (nothingFound ==> head <= x)))
  {
    var m := CompleteCatchUp(env, s, head, nothingFound).s.mem;
    assert m.(lag := 0) == CompletedMem(env, s.mem, head, nothingFound).(lag := 0);
  }

  // ---------------------------------------------------------------- restart

  /**
   A restart reads watermark, bootstrap flag and incident back as stored, and is halted exactly on a stored incident
   that is not tried again; a first start stores a cursor below the start slot.
   */
  lemma RestartReads(env: Env, s: State)
    requires s.mem == FreshMem(env)
    ensures var o := InitCursor(env, s);
      && (o.Next? && s.store.journal != [] ==>
            var c := s.store.journal[|s.store.journal| - 1];
            var halts := c.incident.Some? &&
              c.incident.value in {CatchupWindowExceeded, SequenceGap, StartupRetentionUnavailable};
            o.s.store == s.store && o.s.mem == Mem(halts, c.last, c.bootstrap, c.incident, 0))
      && (o.Next? && s.store.journal == [] ==>
            && o.s.store == s.store.(journal := [Cursor(env.startSlot - 1, true, None)])
            && o.s.mem == Mem(false, env.startSlot - 1, true, None, 0))
  {
    var s1 := Write(s, s.store).s;
    assert s1.store == s.store;
    if s.store.journal == [] {
      assert CursorOf(s1.mem) == Cursor(env.startSlot - 1, true, None);
      assert [] + [CursorOf(s1.mem)] == [Cursor(env.startSlot - 1, true, None)];
    } else {
      var c := s.store.journal[|s.store.journal| - 1];
      assert s1.store.GetCursor() == Some(c);
      HaltingAre(c.incident);
    }
  }

  lemma HaltingAre(incident: Option<Incident>)
    ensures incident.Some? && !IsRetriable(incident) <==>
      incident.Some? && incident.value in {CatchupWindowExceeded, SequenceGap, StartupRetentionUnavailable}
  {
    if incident.Some? {
      match incident.value
      case CatchupWindowExceeded =>
      case SequenceGap =>
      case StartupRetentionUnavailable =>
      case DiscoveryIncomplete =>
      case BootstrapRangeNotEnumerated =>
      case RpcBudgetExhausted =>
      case RpcUnreachable =>
    }
  }

  // ---------------------------------------------------------------- lag

  /** The lag after a pass: none when it left no incident, else how far the watermark is behind the head. */
  ghost predicate LagOf(m: Mem, head: int) {
    m.lag == if m.incident.None? then 0 else head - m.last
  }

  lemma CompletedLag(env: Env, s: State, head: int, nothingFound: bool)
    ensures var o := CompleteCatchUp(env, s, head, nothingFound);
      o.Next? ==> o.s.mem.incident.None? && LagOf(o.s.mem, head)
  {
  }

  lemma EnumerateLag(env: Env, s: State, head: int)
    ensures var o := Enumerate(env, s, head); o.Next? && o.v.None? ==> o.s.mem.incident.Some? && LagOf(o.s.mem, head)
  {
    DiscoveryNames(env, s, None);
  }

  lemma DiscoveryNames(env: Env, s: State, after: Option<int>)
    ensures var o := DiscoverOrIncident(env, s, after); o.Next? && o.v.None? ==> o.s.mem.incident.Some?
  {
  }

  lemma {:induction false} TakeNames(env: Env, s: State, slots: seq<int>, first: int)
    requires HaltNamed(s)
    ensures var o := TakeSlots(env, s, slots, first); o.Next? && !o.v ==> o.s.mem.incident.Some?
    decreases |slots|
  {
    if slots != [] && !s.mem.halted && first <= slots[0] {
      if slots[0] <= s.mem.last {
        TakeNames(env, s, slots[1..], first);
      } else {
        var o := IngestDiscoveredSlot(env, s, slots[0]);
        if o.Next? { TakeNames(env, o.s, slots[1..], first); }
      }
    }
  }

  lemma ProcessNames(env: Env, s: State, slots: seq<int>, head: int)
    requires HaltNamed(s)
    ensures var o := ProcessSlotList(env, s, slots, head); o.Next? && !o.v ==> o.s.mem.incident.Some?
  {
    var o := Call(env, s);
    if o.Next? { TakeNames(env, o.s, slots, o.v.firstAvailable); }
  }

  lemma ExtrasLag(env: Env, s: State, extras: seq<int>, head: int)
    requires HaltNamed(s)
    ensures var o := SettleExtras(env, s, extras, head);
      o.Next? && !o.v ==> o.s.mem.incident.Some? && LagOf(o.s.mem, head)
  {
    if extras != [] {
      ProcessNames(env, s, extras, head);
      var o := ProcessSlotList(env, s, extras, head);
      if o.Next? && o.v {
        var again := Enumerate(env, o.s, head);
        EnumerateLag(env, o.s, head);
        ExtrasGoOn(env, s, extras, head, o.s, again);
        if again.Next? && again.v.Some? { VerifiedLag(env, again.s, again.v.value, head); }
      }
    }
  }

  /** The end of a verification: the slots its last poll still finds are an incident. */
  function Verified(env: Env, s: State, d: Discovery, head: int): Out<bool> {
    var still := Above(d.slots, s.mem.last);
    if still == [] then Next(s, true) else
    var (s1, _) :- RecordIncident(env, s, DiscoveryIncomplete, Some(still[0]));
    Next(SetLag(s1, head - s1.mem.last), false)
  }

  lemma VerifiedLag(env: Env, s: State, d: Discovery, head: int)
    ensures var o := Verified(env, s, d, head); o.Next? && !o.v ==> o.s.mem.incident.Some? && LagOf(o.s.mem, head)
  {
  }

  lemma ExtrasGoOn(env: Env, s: State, extras: seq<int>, head: int, s1: State, again: Out<Option<Discovery>>)
    requires extras != [] && ProcessSlotList(env, s, extras, head) == Next(s1, true)
    requires again == Enumerate(env, s1, head)
    ensures SettleExtras(env, s, extras, head) ==
      if again.Fail? then Fail(again.s, again.why)
      else if again.v.None? then Next(again.s, false)
      else Verified(env, again.s, again.v.value, head)
  {
  }

  /** A catch-up pass that ends without a throw shows its lag: none when complete, else the head's distance. */
  lemma CatchUpLag(env: Env, s: State, head: int)
    requires HaltNamed(s)
    ensures var o := CatchUpFrom(env, s, head); o.Next? ==> LagOf(o.s.mem, head)
  {
    EnumerateLag(env, s, head);
    var o1 := Enumerate(env, s, head);
    if o1.Next? && o1.v.Some? { ListingLag(env, o1.s, o1.v.value.slots, head); }
  }

  lemma ListingLag(env: Env, s: State, slots: seq<int>, head: int)
    requires HaltNamed(s)
    ensures var o := TakeListing(env, s, slots, head); o.Next? ==> LagOf(o.s.mem, head)
  {
    ProcessNames(env, s, slots, head);
    var o1 := ProcessSlotList(env, s, slots, head);
    if o1.Next? && o1.v {
      EnumerateLag(env, o1.s, head);
      var o2 := Enumerate(env, o1.s, head);
      if o2.Next? && o2.v.Some? {
        var extras := Above(o2.v.value.slots, o2.s.mem.last);
        ExtrasLag(env, o2.s, extras, head);
        var o3 := SettleExtras(env, o2.s, extras, head);
        if o3.Next? && o3.v { CompletedLag(env, o3.s, head, slots == [] && extras == []); }
      }
    }
  }

  /**
   A live tick that ends without a throw shows the distance of the head from the oldest slot that was pending, from
   the watermark when the discovery failed, and none when nothing was pending.
   */
  lemma TickLag(env: Env, s: State, head: int)
    requires !s.mem.halted
    ensures var o, d := FollowFrom(env, s, head), DiscoverOrIncident(env, s, Some(s.mem.last));
      o.Next? && d.Next? ==>
        o.s.mem.lag ==
          if d.v.None? then head - s.mem.last
          else
            var pending := Above(d.v.value.slots, s.mem.last);
            if pending == [] then 0 else head - pending[0]
  {
    var d := DiscoverOrIncident(env, s, Some(s.mem.last));
    if d.Next? && d.v.Some? {
      var c := ClearRetriableIncident(env, d.s);
      if c.Next? { PendingLag(env, c.s, Above(d.v.value.slots, s.mem.last), head); }
    }
  }

  lemma {:induction false} TakeLag(env: Env, s: State, slots: seq<int>, first: int)
    ensures TakeSlots(env, s, slots, first).s.mem.lag == s.mem.lag
    decreases |slots|
  {
    if slots != [] && !s.mem.halted && first <= slots[0] {
      if slots[0] <= s.mem.last {
        TakeLag(env, s, slots[1..], first);
      } else {
        var o := IngestDiscoveredSlot(env, s, slots[0]);
        if o.Next? { TakeLag(env, o.s, slots[1..], first); }
      }
    }
  }

  /** Processing a list shows the lag of a slot beyond the window, or the lag there was. */
  lemma ProcessLag(env: Env, s: State, slots: seq<int>, head: int)
    ensures var o, beyond := ProcessSlotList(env, s, slots, head), PendingBeyondWindow(env, s, slots, head);
      o.Next? ==> o.s.mem.lag == if !s.mem.bootstrap && beyond.Some? then head - beyond.value else s.mem.lag
  {
    var o := Call(env, s);
    if o.Next? { TakeLag(env, o.s, slots, o.v.firstAvailable); }
  }

  lemma PendingLag(env: Env, s: State, pending: seq<int>, head: int)
    requires forall x :: x in pending ==> s.mem.last < x
    ensures var o := FollowPending(env, s, pending, head);
      o.Next? ==> o.s.mem.lag == if pending == [] then 0 else head - pending[0]
  {
    var s1 := SetLag(s, if pending != [] then head - pending[0] else 0);
    AllAbove(pending, s.mem.last);
    ProcessLag(env, s1, pending, head);
  }

  lemma {:induction false} AllAbove(slots: seq<int>, w: int)
    requires forall x :: x in slots ==> w < x
    ensures Above(slots, w) == slots
    decreases |slots|
  {
    if slots != [] {
      assert slots[0] in slots && forall x :: x in slots[1..] ==> x in slots;
      AllAbove(slots[1..], w);
    }
  }

  // ---------------------------------------------------------------- the answer of /ready

  /**
   In every state of every run: caught up, bootstrapping or on an incident, each for its own reason, and the figures
   of memory.
   */
  lemma SurfaceMeans(env: Env, script: seq<Reply>)
    ensures var m := Observed(env, script).mem;
      var p := BuildReadyPayload(m);
      && (ClassifyReadySurface(p) == CaughtUp <==> !m.halted && !m.bootstrap && m.incident == None)
      && (ClassifyReadySurface(p) == BootstrapIncomplete <==> m.bootstrap)
      && (ClassifyReadySurface(p) == IncidentSurface <==> !m.bootstrap && m.incident != None)
      && p.bootstrap == m.bootstrap && p.incident == m.incident && p.lag == m.lag && p.last == m.last
  {
    ReadySurfaceIsNamed(env, script);
  }
}
