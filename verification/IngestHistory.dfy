/**
 What no answer of the RPC and no failure can change: cursors only rise, nothing at or below the watermark
 is touched again, and rows and missing-block refusals come from what getBlock answered.
 */
module IngestHistory {
  import opened Common
  import opened Ingest
  import opened IngestSlots
  import opened IngestReplay
  import opened IngestDiscovery
  import opened IngestCatchUp
  import opened IngestRuns

  // ---------------------------------------------------------------- what a step may do

  /** The watermark never falls, and a cleared bootstrap flag never returns. */
  ghost predicate JournalOrdered(journal: seq<Cursor>) {
    forall i, j :: 0 <= i < j < |journal| ==>
      journal[i].last <= journal[j].last && (journal[j].bootstrap ==> journal[i].bootstrap)
  }

  /** Memory is ahead of the store, never behind. */
  ghost predicate Ordered(s: State) {
    && JournalOrdered(s.store.journal)
    && (s.store.GetCursor().Some? ==>
          s.store.GetCursor().value.last <= s.mem.last && (s.mem.bootstrap ==> s.store.GetCursor().value.bootstrap))
  }

  /** Nothing at or below the watermark is added. */
  ghost predicate NewAbove(a: Store, b: Store, watermark: int) {
    && (forall k :: k in b.payloads && k !in a.payloads ==> watermark < k.slot)
    && (forall r :: r in b.refusals && r !in a.refusals && SlotOf(r).Some? ==> watermark < SlotOf(r).value)
  }

  ghost predicate Served(script: seq<Reply>, slot: int) {
    exists r :: r in script && r.Ok? && slot !in r.a.gone
  }

  ghost predicate Denied(script: seq<Reply>, slot: int) {
    exists r :: r in script && r.Ok? && slot in r.a.gone
  }

  /** Rows and parse refusals come from blocks that were served, missing-block refusals from blocks that were not. */
  ghost predicate FromAnswers(a: Store, b: Store, script: seq<Reply>) {
    && (forall k :: k in b.payloads && k !in a.payloads ==> Served(script, k.slot))
    && (forall r :: r in b.refusals && r !in a.refusals && r.ParseRefusal? ==> Served(script, r.slot))
    && (forall x :: MissingBlock(x) in b.refusals && MissingBlock(x) !in a.refusals ==> Denied(script, x))
  }

  /** At some answer the slot was not before the first available block. */
  ghost predicate Available(script: seq<Reply>, slot: int) {
    exists r :: r in script && r.Ok? && r.a.firstAvailable <= slot
  }

  /** Rows and refusals of slots are only of slots that were available at some answer. */
  ghost predicate FromAvailable(a: Store, b: Store, script: seq<Reply>) {
    && (forall k :: k in b.payloads && k !in a.payloads ==> Available(script, k.slot))
    && (forall r :: r in b.refusals && r !in a.refusals && SlotOf(r).Some? ==> Available(script, SlotOf(r).value))
  }

  /** What taking slots does, whatever the answers. */
  ghost predicate Steps(s: State, t: State) {
    && After(s, t)
    && s.mem.last <= t.mem.last
    && (Ordered(s) ==> Ordered(t))
    && NewAbove(s.store, t.store, s.mem.last)
    && FromAnswers(s.store, t.store, s.script)
  }

  /** What every step of a process does, whatever the answers. */
  ghost predicate Moves(s: State, t: State) {
    Steps(s, t) && FromAvailable(s.store, t.store, s.script)
  }

  lemma StepsOn(s: State, t: State, u: State)
    requires Steps(s, t) && Steps(t, u)
    ensures Steps(s, u)
  {
    AnswersOn(s.store, t.store, u.store, s.script, t.script);
  }

  lemma MovesOn(s: State, t: State, u: State)
    requires Moves(s, t) && Moves(t, u)
    ensures Moves(s, u)
  {
    StepsOn(s, t, u);
    AvailableOn(s.store, t.store, u.store, s.script, t.script);
  }

  lemma AvailableOn(a: Store, b: Store, c: Store, script: seq<Reply>, rest: seq<Reply>)
    requires FromAvailable(a, b, script) && FromAvailable(b, c, rest) && forall r :: r in rest ==> r in script
    ensures FromAvailable(a, c, script)
  {
    forall x | Available(rest, x) ensures Available(script, x) {
      var r :| r in rest && r.Ok? && r.a.firstAvailable <= x;
      assert r in script;
    }
  }

  lemma AnswersOn(a: Store, b: Store, c: Store, script: seq<Reply>, rest: seq<Reply>)
    requires FromAnswers(a, b, script) && FromAnswers(b, c, rest) && forall r :: r in rest ==> r in script
    ensures FromAnswers(a, c, script)
  {
    forall k | k in c.payloads && k !in a.payloads ensures Served(script, k.slot) {
      if k !in b.payloads { var r :| r in rest && r.Ok? && k.slot !in r.a.gone; }
    }
    forall x | MissingBlock(x) in c.refusals && MissingBlock(x) !in a.refusals ensures Denied(script, x) {
      if MissingBlock(x) !in b.refusals { var r :| r in rest && r.Ok? && x in r.a.gone; }
    }
    forall q | q in c.refusals && q !in a.refusals && q.ParseRefusal? ensures Served(script, q.slot) {
      if q !in b.refusals { var r :| r in rest && r.Ok? && q.slot !in r.a.gone; }
    }
  }

  /** A step that leaves rows, refusals of slots and cursors alone, and does not lower the watermark. */
  lemma QuietMoves(s: State, t: State)
    requires After(s, t) && s.store.payloads == t.store.payloads && s.store.journal == t.store.journal
    requires forall r :: r in t.store.refusals && r !in s.store.refusals ==> r.IncidentRefusal?
    requires s.mem.last <= t.mem.last && (t.mem.bootstrap ==> s.mem.bootstrap)
    ensures Moves(s, t)
  {
  }

  // ---------------------------------------------------------------- incidents

  lemma PersistMoves(env: Env, s: State)
    ensures Moves(s, PersistCursor(env, s).s)
  {
    var t := PersistCursor(env, s).s;
    if Ordered(s) && s.store.journal != [] && t.store.journal != s.store.journal {
      assert forall i :: 0 <= i < |s.store.journal| ==> s.store.journal[i].last <= s.mem.last;
    }
  }

  lemma IncidentMoves(env: Env, s: State, incident: Incident, at: Option<int>)
    ensures Moves(s, RecordIncident(env, s, incident, at).s)
  {
    var s1 := s.(mem := s.mem.(incident := Some(incident)));
    if IsRetriable(Some(incident)) {
      QuietMoves(s, s1);
      PersistMoves(env, s1);
      MovesOn(s, s1, PersistCursor(env, s1).s);
    } else {
      var o := InsertRefusal(env, s1.(mem := s1.mem.(halted := true)), IncidentRefusal(incident, at));
      QuietMoves(s, o.s);
      PersistMoves(env, o.s);
      MovesOn(s, o.s, PersistCursor(env, o.s).s);
    }
  }

  lemma RescueMoves(env: Env, s: State, why: Why)
    ensures Moves(s, Rescue(env, s, why).s)
  {
    QuietMoves(s, s);
    if why.Thrown? && Classify(why.e).Some? { IncidentMoves(env, s, Classify(why.e).value, None); }
  }

  lemma ClearMoves(env: Env, s: State)
    ensures Moves(s, ClearRetriableIncident(env, s).s)
  {
    var s1 := s.(mem := s.mem.(incident := None));
    QuietMoves(s, s);
    QuietMoves(s, s1);
    PersistMoves(env, s1);
    MovesOn(s, s1, PersistCursor(env, s1).s);
  }

  // ---------------------------------------------------------------- slots

  /** Storing a block of the slot: its rows and other refusals are added, nothing else changes. */
  ghost predicate Adds(s: State, t: State, slot: int) {
    && After(s, t)
    && t.mem == s.mem && t.store.journal == s.store.journal
    && (forall k :: k in t.store.payloads && k !in s.store.payloads ==> k.slot == slot)
    && (forall r :: r in t.store.refusals && r !in s.store.refusals ==> r.ParseRefusal? && r.slot == slot)
  }

  lemma AddsOn(s: State, t: State, u: State, slot: int)
    requires Adds(s, t, slot) && Adds(t, u, slot)
    ensures Adds(s, u, slot)
  {
  }

  lemma {:induction false} PayloadsAdd(env: Env, s: State, slot: int, tx: nat, rows: seq<Payload>)
    ensures Adds(s, InsertPayloads(env, s, slot, tx, rows).s, slot)
    decreases |rows|
  {
    if rows != [] {
      var o := InsertPayload(env, s, slot, tx, rows[0]);
      if o.Next? { PayloadsAdd(env, o.s, slot, tx, rows[1..]); }
    }
  }

  lemma {:induction false} ParseRefusalsAdd(env: Env, s: State, slot: int, tx: nat, keys: seq<string>)
    ensures Adds(s, InsertParseRefusals(env, s, slot, tx, keys).s, slot)
    decreases |keys|
  {
    if keys != [] {
      var o := InsertRefusal(env, s, ParseRefusal(slot, tx, keys[0]));
      if o.Next? { ParseRefusalsAdd(env, o.s, slot, tx, keys[1..]); }
    }
  }

  lemma TxAdds(env: Env, s: State, slot: int, tx: nat)
    requires tx < |env.block(slot)|
    ensures Adds(s, IngestTx(env, s, slot, tx).s, slot)
  {
    var parsed := env.block(slot)[tx];
    PayloadsAdd(env, s, slot, tx, parsed.payloads);
    var o1 := InsertPayloads(env, s, slot, tx, parsed.payloads);
    if o1.Next? {
      var o2 := CaptureMetadata(env, o1.s);
      assert o2.s.store == o1.s.store;
      if o2.Next? {
        ParseRefusalsAdd(env, o2.s, slot, tx, parsed.refusals);
        var o3 := InsertParseRefusals(env, o2.s, slot, tx, parsed.refusals);
        if o3.Next? { assert Project(env, o3.s, parsed.payloads).s.store == o3.s.store; }
      }
    }
  }

  lemma BlockStep(env: Env, s: State, slot: int, tx: nat)
    requires tx < |env.block(slot)|
    ensures var o := IngestTx(env, s, slot, tx);
      IngestBlock(env, s, slot, tx) == if o.Next? then IngestBlock(env, o.s, slot, tx + 1) else o
  {
  }

  lemma {:induction false} BlockAdds(env: Env, s: State, slot: int, tx: nat)
    ensures Adds(s, IngestBlock(env, s, slot, tx).s, slot)
    decreases |env.block(slot)| - tx
  {
    if tx >= |env.block(slot)| {
      assert IngestBlock(env, s, slot, tx) == Next(s, ());
    } else {
      var o := IngestTx(env, s, slot, tx);
      TxAdds(env, s, slot, tx);
      BlockStep(env, s, slot, tx);
      if o.Next? {
        BlockAdds(env, o.s, slot, tx + 1);
        AddsOn(s, o.s, IngestBlock(env, o.s, slot, tx + 1).s, slot);
      }
    }
  }

  lemma AdvanceMoves(env: Env, s: State, slot: int)
    requires s.mem.last <= slot
    ensures Moves(s, Advance(env, s, slot).s)
  {
    var s1 := s.(mem := s.mem.(last := slot, incident := None));
    QuietMoves(s, s1);
    PersistMoves(env, s1);
    MovesOn(s, s1, PersistCursor(env, s1).s);
  }

  /** Rows only of a block that was served, a missing-block refusal only of one that was not. */
  lemma SlotMoves(env: Env, s: State, slot: int)
    requires s.mem.last < slot
    ensures Steps(s, IngestDiscoveredSlot(env, s, slot).s)
  {
    var o1 := Call(env, s);
    QuietMoves(s, o1.s);
    if o1.Next? {
      var o2 := if slot in o1.v.gone then InsertRefusal(env, o1.s, MissingBlock(slot))
        else IngestBlock(env, o1.s, slot, 0);
      BlockAdds(env, o1.s, slot, 0);
      AnsweredMoves(s, o1.s, o2.s, slot, o1.v);
      if o2.Next? {
        AdvanceMoves(env, o2.s, slot);
        StepsOn(s, o2.s, Advance(env, o2.s, slot).s);
      }
    }
  }

  lemma AnsweredMoves(s: State, s1: State, t: State, slot: int, a: Answer)
    requires s1 == s.(script := s1.script) && Consumes(s, s1) && Ok(a) in s.script && s.mem.last < slot
    requires After(s1, t) && t.mem == s1.mem && t.store.journal == s1.store.journal
    requires forall k :: k in t.store.payloads && k !in s1.store.payloads ==> k.slot == slot && slot !in a.gone
    requires forall r :: r in t.store.refusals && r !in s1.store.refusals ==>
      SlotOf(r) == Some(slot) && (r.MissingBlock? <==> slot in a.gone)
    ensures Steps(s, t)
  {
    assert Ok(a).a == a;
  }

  lemma {:induction false} TakeMoves(env: Env, s: State, slots: seq<int>, first: int)
    ensures Steps(s, TakeSlots(env, s, slots, first).s)
    decreases |slots|
  {
    QuietMoves(s, s);
    if slots != [] && !s.mem.halted {
      if slots[0] < first {
        IncidentMoves(env, s, StartupRetentionUnavailable, Some(slots[0]));
      } else if slots[0] <= s.mem.last {
        TakeMoves(env, s, slots[1..], first);
      } else {
        SlotMoves(env, s, slots[0]);
        var o := IngestDiscoveredSlot(env, s, slots[0]);
        if o.Next? {
          TakeMoves(env, o.s, slots[1..], first);
          StepsOn(s, o.s, TakeSlots(env, o.s, slots[1..], first).s);
        } else {
          RescueMoves(env, o.s, o.why);
          StepsOn(s, o.s, Rescue(env, o.s, o.why).s);
        }
      }
    }
  }

  /** Whatever is stored or refused while slots are taken is of slots from `first` on. */
  ghost predicate NewFrom(a: Store, b: Store, first: int) {
    && (forall k :: k in b.payloads && k !in a.payloads ==> first <= k.slot)
    && (forall r :: r in b.refusals && r !in a.refusals && SlotOf(r).Some? ==> first <= SlotOf(r).value)
  }

  lemma SlotFrom(env: Env, s: State, slot: int, first: int)
    requires first <= slot
    ensures NewFrom(s.store, IngestDiscoveredSlot(env, s, slot).s.store, first)
  {
    var o1 := Call(env, s);
    if o1.Next? && slot !in o1.v.gone { BlockAdds(env, o1.s, slot, 0); }
  }

  lemma {:induction false} TakeFrom(env: Env, s: State, slots: seq<int>, first: int)
    ensures NewFrom(s.store, TakeSlots(env, s, slots, first).s.store, first)
    decreases |slots|
  {
    if slots != [] && !s.mem.halted && first <= slots[0] {
      if slots[0] <= s.mem.last {
        TakeFrom(env, s, slots[1..], first);
      } else {
        SlotFrom(env, s, slots[0], first);
        var o := IngestDiscoveredSlot(env, s, slots[0]);
        if o.Next? { TakeFrom(env, o.s, slots[1..], first); }
      }
    }
  }

  /** Slots are taken with the answer that says what is available. */
  lemma TakeMovesWith(env: Env, s: State, s1: State, slots: seq<int>, a: Answer)
    requires s1 == s.(script := s1.script) && Consumes(s, s1) && Ok(a) in s.script
    ensures Moves(s, TakeSlots(env, s1, slots, a.firstAvailable).s)
  {
    QuietMoves(s, s1);
    TakeMoves(env, s1, slots, a.firstAvailable);
    TakeFrom(env, s1, slots, a.firstAvailable);
    StepsOn(s, s1, TakeSlots(env, s1, slots, a.firstAvailable).s);
    assert Ok(a).a == a;
  }

  lemma LagMoves(s: State, t: State, lag: int)
    requires Moves(s, t)
    ensures Moves(s, SetLag(t, lag))
  {
  }

  lemma ProcessMoves(env: Env, s: State, slots: seq<int>, head: int)
    ensures Moves(s, ProcessSlotList(env, s, slots, head).s)
  {
    var beyond := PendingBeyondWindow(env, s, slots, head);
    if !s.mem.bootstrap && beyond.Some? {
      IncidentMoves(env, s, CatchupWindowExceeded, beyond);
    } else {
      var o := Call(env, s);
      QuietMoves(s, o.s);
      if o.Next? {
        TakeMovesWith(env, s, o.s, slots, o.v);
      } else {
        RescueMoves(env, o.s, o.why);
        MovesOn(s, o.s, Rescue(env, o.s, o.why).s);
      }
    }
  }

  // ---------------------------------------------------------------- passes

  lemma DiscoverMoves(env: Env, s: State, after: Option<int>)
    ensures Moves(s, DiscoverOrIncident(env, s, after).s)
  {
    var o := PollPrograms(env, s, [], true);
    QuietMoves(s, o.s);
    if o.Fail? {
      if o.why == Thrown(Other) {
        IncidentMoves(env, o.s, DiscoveryIncomplete, None);
        var r := RecordIncident(env, o.s, DiscoveryIncomplete, None);
        MovesOn(s, o.s, r.s);
        if r.Fail? {
          RescueMoves(env, r.s, r.why);
          MovesOn(s, r.s, Rescue(env, r.s, r.why).s);
        }
      } else {
        RescueMoves(env, o.s, o.why);
        MovesOn(s, o.s, Rescue(env, o.s, o.why).s);
      }
    }
  }

  lemma EnumerateMoves(env: Env, s: State, head: int)
    ensures Moves(s, Enumerate(env, s, head).s)
  {
    DiscoverMoves(env, s, None);
    var o := DiscoverOrIncident(env, s, None);
    if o.Next? && o.v.Some? && o.s.mem.bootstrap && !o.v.value.floors {
      IncidentMoves(env, o.s, BootstrapRangeNotEnumerated, None);
      MovesOn(s, o.s, RecordIncident(env, o.s, BootstrapRangeNotEnumerated, None).s);
    }
  }

  lemma RetentionMoves(env: Env, s: State, head: int)
    ensures Moves(s, AssertStartupRetention(env, s, head).s)
  {
    var o := Call(env, s);
    QuietMoves(s, o.s);
    if o.Next? {
      IncidentMoves(env, o.s, StartupRetentionUnavailable, Some(env.startSlot));
      MovesOn(s, o.s, RecordIncident(env, o.s, StartupRetentionUnavailable, Some(env.startSlot)).s);
    }
  }

  lemma ExtrasMove(env: Env, s: State, extras: seq<int>, head: int)
    ensures Moves(s, SettleExtras(env, s, extras, head).s)
  {
    QuietMoves(s, s);
    if extras != [] {
      ProcessMoves(env, s, extras, head);
      var o1 := ProcessSlotList(env, s, extras, head);
      if o1.Next? && o1.v {
        EnumerateMoves(env, o1.s, head);
        var o2 := Enumerate(env, o1.s, head);
        MovesOn(s, o1.s, o2.s);
        if o2.Next? && o2.v.Some? && Above(o2.v.value.slots, o2.s.mem.last) != [] {
          var at := Some(Above(o2.v.value.slots, o2.s.mem.last)[0]);
          IncidentMoves(env, o2.s, DiscoveryIncomplete, at);
          MovesOn(s, o2.s, RecordIncident(env, o2.s, DiscoveryIncomplete, at).s);
        }
      }
    }
  }

  lemma CompleteMoves(env: Env, s: State, head: int, nothingFound: bool)
    ensures Moves(s, CompleteCatchUp(env, s, head, nothingFound).s)
  {
    var s1 := s.(mem := CompletedMem(env, s.mem, head, nothingFound));
    QuietMoves(s, s1);
    PersistMoves(env, s1);
    MovesOn(s, s1, PersistCursor(env, s1).s);
  }

  lemma SettledMoves(env: Env, s: State, extras: seq<int>, head: int, noneListed: bool)
    ensures Moves(s, SettleAndComplete(env, s, extras, head, noneListed).s)
  {
    ExtrasMove(env, s, extras, head);
    var o := SettleExtras(env, s, extras, head);
    if o.Next? && o.v {
      CompleteMoves(env, o.s, head, noneListed && extras == []);
      MovesOn(s, o.s, CompleteCatchUp(env, o.s, head, noneListed && extras == []).s);
    }
  }

  lemma VerifyMoves(env: Env, s: State, head: int, noneListed: bool)
    ensures Moves(s, VerifyCatchUp(env, s, head, noneListed).s)
  {
    EnumerateMoves(env, s, head);
    var o := Enumerate(env, s, head);
    if o.Next? && o.v.Some? {
      var extras := Above(o.v.value.slots, o.s.mem.last);
      SettledMoves(env, o.s, extras, head, noneListed);
      MovesOn(s, o.s, SettleAndComplete(env, o.s, extras, head, noneListed).s);
    }
  }

  lemma TakeListingMoves(env: Env, s: State, slots: seq<int>, head: int)
    ensures Moves(s, TakeListing(env, s, slots, head).s)
  {
    ProcessMoves(env, s, slots, head);
    var o := ProcessSlotList(env, s, slots, head);
    if o.Next? && o.v {
      VerifyMoves(env, o.s, head, slots == []);
      MovesOn(s, o.s, VerifyCatchUp(env, o.s, head, slots == []).s);
    } else if o.Next? {
      QuietMoves(o.s, SetLag(o.s, head - o.s.mem.last));
    }
  }

  lemma CatchUpFromMoves(env: Env, s: State, head: int)
    ensures Moves(s, CatchUpFrom(env, s, head).s)
  {
    EnumerateMoves(env, s, head);
    var o := Enumerate(env, s, head);
    if o.Next? && o.v.Some? {
      TakeListingMoves(env, o.s, o.v.value.slots, head);
      MovesOn(s, o.s, TakeListing(env, o.s, o.v.value.slots, head).s);
    }
  }

  lemma CatchUpMoves(env: Env, s: State)
    ensures Moves(s, CatchUpToHead(env, s).s)
  {
    var o1 := Call(env, s.(mem := Forgive(s.mem)));
    QuietMoves(s, o1.s);
    if o1.Fail? {
      RescueMoves(env, o1.s, o1.why);
      MovesOn(s, o1.s, Rescue(env, o1.s, o1.why).s);
    } else {
      RetentionMoves(env, o1.s, o1.v.head);
      var o2 := AssertStartupRetention(env, o1.s, o1.v.head);
      MovesOn(s, o1.s, o2.s);
      if o2.Fail? {
        RescueMoves(env, o2.s, o2.why);
        MovesOn(s, o2.s, Rescue(env, o2.s, o2.why).s);
      } else {
        CatchUpFromMoves(env, o2.s, o1.v.head);
        MovesOn(s, o2.s, CatchUpFrom(env, o2.s, o1.v.head).s);
      }
    }
  }

  lemma PendingMoves(env: Env, s: State, pending: seq<int>, head: int)
    ensures Moves(s, FollowPending(env, s, pending, head).s)
  {
    var s1 := SetLag(s, if pending != [] then head - pending[0] else 0);
    QuietMoves(s, s1);
    ProcessMoves(env, s1, pending, head);
    MovesOn(s, s1, ProcessSlotList(env, s1, pending, head).s);
  }

  lemma FollowFromMoves(env: Env, s: State, head: int)
    ensures Moves(s, FollowFrom(env, s, head).s)
  {
    DiscoverMoves(env, s, Some(s.mem.last));
    var o1 := DiscoverOrIncident(env, s, Some(s.mem.last));
    if o1.Next? && o1.v.Some? {
      ClearMoves(env, o1.s);
      var o2 := ClearRetriableIncident(env, o1.s);
      MovesOn(s, o1.s, o2.s);
      if o2.Next? {
        var pending := Above(o1.v.value.slots, o2.s.mem.last);
        PendingMoves(env, o2.s, pending, head);
        MovesOn(s, o2.s, FollowPending(env, o2.s, pending, head).s);
      }
    }
  }

  lemma FollowMoves(env: Env, s: State)
    ensures Moves(s, FollowOnce(env, s).s)
  {
    QuietMoves(s, s);
    if !s.mem.halted && !s.mem.bootstrap {
      var o := Call(env, s);
      QuietMoves(s, o.s);
      if o.Fail? {
        RescueMoves(env, o.s, o.why);
        MovesOn(s, o.s, Rescue(env, o.s, o.why).s);
      } else {
        FollowFromMoves(env, o.s, o.v.head);
        MovesOn(s, o.s, FollowFrom(env, o.s, o.v.head).s);
      }
    }
  }

  lemma {:induction false} LoopMoves(env: Env, s: State)
    ensures Moves(s, FollowLoop(env, s))
    decreases |s.script|
  {
    CatchUpMoves(env, s);
    FollowMoves(env, s);
    var o1 := Tick(env, s);
    if o1.Next? || o1.why.Thrown? {
      var o2 := Sleep(env, o1.s);
      QuietMoves(o1.s, o2.s);
      MovesOn(s, o1.s, o2.s);
      if o2.Next? {
        LoopMoves(env, o2.s);
        MovesOn(s, o2.s, FollowLoop(env, o2.s));
      }
    }
  }

  // ---------------------------------------------------------------- processes and runs

  /** What a whole process, or a run of several, does to the store. */
  ghost predicate Grows(a: Store, b: Store, script: seq<Reply>) {
    && Kept(a, b)
    && (JournalOrdered(a.journal) ==> JournalOrdered(b.journal))
    && (a.GetCursor().Some? && JournalOrdered(a.journal) ==> NewAbove(a, b, a.GetCursor().value.last))
    && FromAnswers(a, b, script) && FromAvailable(a, b, script)
  }

  lemma GrowsOn(a: Store, b: Store, c: Store, script: seq<Reply>, rest: seq<Reply>)
    requires Grows(a, b, script) && Grows(b, c, rest) && forall r :: r in rest ==> r in script
    ensures Grows(a, c, script)
  {
    AnswersOn(a, b, c, script, rest);
    AvailableOn(a, b, c, script, rest);
    if a.GetCursor().Some? && JournalOrdered(a.journal) { CursorRises(a, b); }
  }

  lemma CursorRises(a: Store, b: Store)
    requires a.journal <= b.journal && JournalOrdered(b.journal) && a.GetCursor().Some?
    ensures b.GetCursor().Some? && a.GetCursor().value.last <= b.GetCursor().value.last
  {
    assert b.journal[|a.journal| - 1] == a.journal[|a.journal| - 1];
  }

  lemma InitMoves(env: Env, s: State)
    requires s.mem == FreshMem(env)
    ensures var o := InitCursor(env, s);
      && Grows(s.store, o.s.store, s.script)
      && (JournalOrdered(s.store.journal) && o.Next? ==> Ordered(o.s))
      && (s.store.GetCursor().Some? && o.Next? ==>
        o.s.store == s.store && o.s.mem.last == s.store.GetCursor().value.last)
  {
  }

  lemma LifetimeGrows(env: Env, s: State)
    ensures Grows(s.store, Lifetime(env, s).store, s.script)
  {
    var s0 := s.(mem := FreshMem(env));
    InitMoves(env, s0);
    var o1 := InitCursor(env, s0);
    if o1.Next? {
      CatchUpMoves(env, o1.s);
      var o2 := CatchUpToHead(env, o1.s);
      if o2.Next? {
        LoopMoves(env, o2.s);
        MovesOn(o1.s, o2.s, FollowLoop(env, o2.s));
      }
      LiveGrows(s, o1.s, Lifetime(env, s));
    }
  }

  lemma LiveGrows(s: State, s1: State, t: State)
    requires Consumes(s, s1) && Grows(s.store, s1.store, s.script) && (JournalOrdered(s.store.journal) ==> Ordered(s1))
    requires s.store.GetCursor().Some? ==> s1.store == s.store && s1.mem.last == s.store.GetCursor().value.last
    requires Moves(s1, t)
    ensures Grows(s.store, t.store, s.script)
  {
    AnswersOn(s.store, s1.store, t.store, s.script, s1.script);
    AvailableOn(s.store, s1.store, t.store, s.script, s1.script);
  }

  lemma {:induction false} ServiceGrows(env: Env, s: State)
    ensures Grows(s.store, Service(env, s).store, s.script)
    decreases |s.script|
  {
    if s.script != [] {
      var t := Lifetime(env, s);
      LifetimeGrows(env, s);
      ServiceGrows(env, t);
      GrowsOn(s.store, t.store, Service(env, t).store, s.script, t.script);
    }
  }

  /** Every cursor ever stored: watermarks never fall, and the bootstrap flag, once cleared, stays cleared. */
  lemma CursorHistory(env: Env, script: seq<Reply>, i: nat, j: nat)
    requires i < j < |Observed(env, script).store.journal|
    ensures var w := Observed(env, script).store.journal;
      w[i].last <= w[j].last && (w[j].bootstrap ==> w[i].bootstrap)
  {
    ServiceGrows(env, Outset(env, script));
  }

  /**
   A slot that was before the first available block at every answer of a run has no row and no missing block
   on record: what the RPC has pruned is never passed as if it had been looked at.
   */
  lemma NothingPruned(env: Env, script: seq<Reply>, slot: int)
    requires forall r :: r in script && r.Ok? ==> slot < r.a.firstAvailable
    ensures var st := Observed(env, script).store;
      && (forall r :: r in st.refusals ==> SlotOf(r) != Some(slot))
      && (forall k :: k in st.payloads ==> k.slot != slot)
  {
    ServiceGrows(env, Outset(env, script));
  }

  /**
   What the stored watermark has passed is closed: whatever runs follow, they leave the rows and the
   missing-block refusal of such a slot as they are. A slot that is not settled by then is lost.
   */
  lemma PassedForGood(env: Env, s: State, slot: int)
    requires JournalOrdered(s.store.journal) && s.store.GetCursor().Some? && slot <= s.store.GetCursor().value.last
    ensures var t := Service(env, s).store;
      && t.GetCursor().Some? && slot <= t.GetCursor().value.last
      && (forall k: RowId :: k.slot == slot ==> (k in t.payloads <==> k in s.store.payloads))
      && (forall r :: SlotOf(r) == Some(slot) ==> (r in t.refusals <==> r in s.store.refusals))
      && (Settled(env, t, slot) <==> Settled(env, s.store, slot))
  {
    ServiceGrows(env, s);
    var t := Service(env, s).store;
    CursorRises(s.store, t);
    ReingestCompletes(env, map[], slot);
  }
}
