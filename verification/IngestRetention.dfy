/**
 What svm-ingest refuses (svm-ingest/ingest-loop.ts): a required or listed slot the RPC no longer serves, and what
 each incident leaves behind.
 */
module IngestRetention {
  import opened Common
  import opened Ingest
  import opened IngestSlots
  import opened IngestDiscovery
  import opened IngestCatchUp
  import opened IngestPasses
  import opened IngestRuns
  import opened IngestHistory

  // ---------------------------------------------------------------- a list of slots

  /** The list may be processed: while bootstrapping, or when every pending slot is inside the lag window. */
  ghost predicate InReach(env: Env, s: State, slots: seq<int>, head: int) {
    s.mem.bootstrap || InWindow(env, s.mem.last, head, slots)
  }

  /**
   A list whose oldest slot is before the first available block: nothing is stored or passed, no block is
   even asked for, and the loop halts on the incident, with a refusal row that names the slot.
   */
  lemma RetentionStops(env: Env, s: State, slots: seq<int>, head: int, first: int)
    requires slots != [] && Ascending(slots) && !s.mem.halted && InReach(env, s, slots, head) && slots[0] < first
    requires s.script != [] && s.script[0].Ok? && s.script[0].a.firstAvailable == first
    ensures var o := ProcessSlotList(env, s, slots, head);
      && !(o.Next? && o.v)
      && o.s.store.payloads == s.store.payloads
      && (forall x :: MissingBlock(x) in o.s.store.refusals <==> MissingBlock(x) in s.store.refusals)
      && o.s.mem == s.mem.(halted := true, incident := Some(StartupRetentionUnavailable))
      && |o.s.script| + 3 >= |s.script|
      && (o.Next? ==>
            && o.s.store.refusals == s.store.refusals + {IncidentRefusal(StartupRetentionUnavailable, Some(slots[0]))}
            && o.s.store.journal == s.store.journal + [CursorOf(o.s.mem)])
  {
    OldestBeyond(env, s, head, slots);
    var s1 := s.(script := s.script[1..]);
    assert Call(env, s) == Next(s1, s.script[0].a);
    RefusalOnly(env, s1, StartupRetentionUnavailable, Some(slots[0]));
  }

  /** A permanent incident writes its refusal row and the cursor, and nothing else. */
  lemma RefusalOnly(env: Env, s: State, incident: Incident, at: Option<int>)
    requires !IsRetriable(Some(incident))
    ensures var o := RecordIncident(env, s, incident, at);
      && o.s.store.payloads == s.store.payloads && |o.s.script| + 2 >= |s.script|
      && (forall x :: MissingBlock(x) in o.s.store.refusals <==> MissingBlock(x) in s.store.refusals)
      && o.s.mem == s.mem.(halted := true, incident := Some(incident))
  {
  }

  /** Success of the slot loop means that no listed slot is before the first available block. */
  lemma {:induction false} TakenAreAvailable(env: Env, s: State, slots: seq<int>, first: int)
    ensures var o := TakeSlots(env, s, slots, first); o.Next? && o.v ==> forall x :: x in slots ==> first <= x
    decreases |slots|
  {
    if slots != [] && !s.mem.halted && first <= slots[0] {
      if slots[0] <= s.mem.last {
        TakenAreAvailable(env, s, slots[1..], first);
      } else {
        var o := IngestDiscoveredSlot(env, s, slots[0]);
        if o.Next? { TakenAreAvailable(env, o.s, slots[1..], first); }
      }
      assert forall x :: x in slots ==> x == slots[0] || x in slots[1..];
    }
  }

  /** With every call answered and no listed slot before the first available block, the slot loop succeeds. */
  lemma {:induction false} AvailableAreTaken(env: Env, s: State, slots: seq<int>, first: int)
    requires Answered(s.script) && !s.mem.halted && forall x :: x in slots ==> first <= x
    ensures var o := TakeSlots(env, s, slots, first); Waits(o) && (o.Next? ==> o.v)
    decreases |slots|
  {
    if slots != [] {
      assert slots[0] in slots && forall x :: x in slots[1..] ==> x in slots;
      if slots[0] <= s.mem.last {
        AvailableAreTaken(env, s, slots[1..], first);
      } else {
        SlotWaits(env, s, slots[0]);
        var o := IngestDiscoveredSlot(env, s, slots[0]);
        if o.Next? { AvailableAreTaken(env, o.s, slots[1..], first); }
      }
    }
  }

  lemma SlotWaits(env: Env, s: State, slot: int)
    requires Answered(s.script)
    ensures Waits(IngestDiscoveredSlot(env, s, slot))
  {
    var o := Call(env, s);
    if o.Next? { BlockProgress(env, o.s, slot, 0); }
  }

  /**
   Whatever the answers, processing a list that is in reach succeeds only if none of its slots is before the first
   available block answered to it; and when every call is answered, exactly then.
   */
  lemma ProcessedIff(env: Env, s: State, slots: seq<int>, head: int)
    requires Ascending(slots) && !s.mem.halted && InReach(env, s, slots, head)
    requires s.script != [] && s.script[0].Ok?
    ensures var o := ProcessSlotList(env, s, slots, head);
      var first := s.script[0].a.firstAvailable;
      && (o.Next? && o.v ==> forall x :: x in slots ==> first <= x)
      && (Answered(s.script) && o.Next? ==> (o.v <==> forall x :: x in slots ==> first <= x))
  {
    OldestBeyond(env, s, head, slots);
    var s1 := s.(script := s.script[1..]);
    var first := s.script[0].a.firstAvailable;
    assert Call(env, s) == Next(s1, s.script[0].a);
    TakenAreAvailable(env, s1, slots, first);
    if Answered(s.script) && forall x :: x in slots ==> first <= x { AvailableAreTaken(env, s1, slots, first); }
  }

  /** Live, with the oldest pending slot outside the lag window, nothing is asked: the loop halts on that slot. */
  lemma WindowStops(env: Env, s: State, slots: seq<int>, head: int)
    requires Ascending(slots) && !s.mem.bootstrap && !InWindow(env, s.mem.last, head, slots)
    ensures var pending, o := Above(slots, s.mem.last), ProcessSlotList(env, s, slots, head);
      && pending != [] && !(o.Next? && o.v)
      && o.s.store.payloads == s.store.payloads
      && (forall x :: MissingBlock(x) in o.s.store.refusals <==> MissingBlock(x) in s.store.refusals)
      && o.s.mem.halted && o.s.mem.incident == Some(CatchupWindowExceeded) && o.s.mem.last == s.mem.last
      && (o.Next? ==>
            && o.s.store.refusals == s.store.refusals + {IncidentRefusal(CatchupWindowExceeded, Some(pending[0]))}
            && o.s.mem.lag == head - pending[0])
  {
    OldestBeyond(env, s, head, slots);
    RefusalOnly(env, s, CatchupWindowExceeded, PendingBeyondWindow(env, s, slots, head));
  }

  // ---------------------------------------------------------------- passes

  /**
   The start slot itself must be served once it is at or before the tip: a catch-up pass ends at once, halted on
   the incident, exactly when it is not, and says so in a refusal row.
   */
  lemma StartupRefusedIff(env: Env, s: State, head: int)
    requires s.script != [] && s.script[0].Ok?
    ensures var o, first := AssertStartupRetention(env, s, head), s.script[0].a.firstAvailable;
      && (o.Next? <==> !(env.startSlot <= head && env.startSlot < first))
      && (o.Next? ==> o.s == s.(script := s.script[1..]))
      && (o.Fail? ==>
            && o.s.mem == s.mem.(halted := true, incident := Some(StartupRetentionUnavailable))
            && o.s.store.payloads == s.store.payloads
            && (Answered(s.script) && o.why != Stopped ==>
                  o.s.store.refusals ==
                    s.store.refusals + {IncidentRefusal(StartupRetentionUnavailable, Some(env.startSlot))}))
  {
    var s1 := s.(script := s.script[1..]);
    assert Call(env, s) == Next(s1, s.script[0].a);
    RefusalOnly(env, s1, StartupRetentionUnavailable, Some(env.startSlot));
  }

  /** A live tick against a healthy RPC that has pruned a pending slot takes none and halts on the oldest. */
  lemma TickRefusesPruned(env: Env, s: State, head: int, first: int, tip: int)
    requires Healthy(s.script, head, first, tip) && !s.mem.halted && !s.mem.bootstrap
    requires InWindow(env, s.mem.last, head, Full(env, tip))
    requires exists x :: x in Full(env, tip) && s.mem.last < x < first
    ensures var o, pending := FollowOnce(env, s), Above(Full(env, tip), s.mem.last);
      && Waits(o) && pending != [] && pending[0] < first
      && (o.Next? ==>
            && o.s.mem.halted && o.s.mem.incident == Some(StartupRetentionUnavailable) && o.s.mem.last == s.mem.last
            && o.s.store.payloads == s.store.payloads
            && IncidentRefusal(StartupRetentionUnavailable, Some(pending[0])) in o.s.store.refusals)
  {
    var pending := Above(Full(env, tip), s.mem.last);
    OldestIsLeast(pending, first);
    var o1 := Call(env, s);
    if o1.Next? {
      DiscoverProgress(env, o1.s, head, first, tip);
      var o2 := DiscoverOrIncident(env, o1.s, Some(s.mem.last));
      if o2.Next? {
        AboveTwice(Full(env, tip), s.mem.last);
        ClearProgress(env, o2.s);
        var o3 := ClearRetriableIncident(env, o2.s);
        if o3.Next? { PendingRefused(env, o3.s, pending, head, first, tip); }
      }
    }
  }

  lemma OldestIsLeast(pending: seq<int>, first: int)
    requires Ascending(pending) && exists x :: x in pending && x < first
    ensures pending != [] && pending[0] < first
  {
    var x :| x in pending && x < first;
    var i :| 0 <= i < |pending| && pending[i] == x;
    assert i > 0 ==> pending[0] < pending[i];
  }

  lemma PendingRefused(env: Env, s: State, pending: seq<int>, head: int, first: int, tip: int)
    requires Healthy(s.script, head, first, tip) && Ascending(pending) && pending != [] && pending[0] < first
    requires !s.mem.halted && InReach(env, s, pending, head)
    ensures var o := FollowPending(env, s, pending, head);
      && Waits(o)
      && (o.Next? ==>
            && o.s.mem.halted && o.s.mem.incident == Some(StartupRetentionUnavailable) && o.s.mem.last == s.mem.last
            && o.s.store.payloads == s.store.payloads
            && IncidentRefusal(StartupRetentionUnavailable, Some(pending[0])) in o.s.store.refusals)
  {
    var s1 := SetLag(s, head - pending[0]);
    if s1.script != [] {
      assert s1.script[0] in s1.script;
      RetentionStops(env, s1, pending, head, first);
      RefusedWaits(env, s1, pending, head, first);
    } else {
      OldestBeyond(env, s1, head, pending);
    }
  }

  lemma RefusedWaits(env: Env, s: State, slots: seq<int>, head: int, first: int)
    requires Answered(s.script) && slots != [] && Ascending(slots) && !s.mem.halted && InReach(env, s, slots, head)
    requires slots[0] < first && s.script != [] && s.script[0].Ok? && s.script[0].a.firstAvailable == first
    ensures Waits(ProcessSlotList(env, s, slots, head))
  {
    OldestBeyond(env, s, head, slots);
    var s1 := s.(script := s.script[1..]);
    assert Call(env, s) == Next(s1, s.script[0].a);
    IncidentWaits(env, s1, StartupRetentionUnavailable, Some(slots[0]));
  }

  lemma IncidentWaits(env: Env, s: State, incident: Incident, at: Option<int>)
    requires Answered(s.script)
    ensures Waits(RecordIncident(env, s, incident, at))
  {
  }
}
