/**
 Exactly what a live tick and a catch-up pass settle: of the slots the watermark passes, those that were
 taken from their discoveries. So exactly when they leave nothing behind.
 */
module IngestGaps {
  import opened Common
  import opened Ingest
  import opened IngestSlots
  import opened IngestReplay
  import opened IngestDiscovery
  import opened IngestCatchUp
  import opened IngestPasses
  import opened IngestHistory

  /** A block that is stored to its end is complete, whatever was stored before. */
  lemma {:induction false} PayloadsStored(env: Env, s: State, slot: int, tx: nat, rows: seq<Payload>,
      acc: map<RowId, string>)
    requires acc.Keys <= s.store.payloads.Keys
    ensures var o := InsertPayloads(env, s, slot, tx, rows);
      o.Next? ==> InsertTx(acc, slot, tx, rows).Keys <= o.s.store.payloads.Keys
    decreases |rows|
  {
    if rows != [] {
      var o := InsertPayload(env, s, slot, tx, rows[0]);
      var acc' := InsertIfAbsent(acc, RowId(slot, tx, rows[0].log), rows[0].body);
      if o.Next? { PayloadsStored(env, o.s, slot, tx, rows[1..], acc'); }
    }
  }

  lemma TxStored(env: Env, s: State, slot: int, tx: nat, acc: map<RowId, string>)
    requires tx < |env.block(slot)| && acc.Keys <= s.store.payloads.Keys
    ensures var o := IngestTx(env, s, slot, tx);
      o.Next? ==> InsertTx(acc, slot, tx, env.block(slot)[tx].payloads).Keys <= o.s.store.payloads.Keys
  {
    PayloadsStored(env, s, slot, tx, env.block(slot)[tx].payloads, acc);
  }

  lemma {:induction false} BlockStored(env: Env, s: State, slot: int, tx: nat, acc: map<RowId, string>)
    requires acc.Keys <= s.store.payloads.Keys
    ensures var o := IngestBlock(env, s, slot, tx);
      o.Next? ==> InsertBlock(acc, slot, env.block(slot), tx).Keys <= o.s.store.payloads.Keys
    decreases |env.block(slot)| - tx
  {
    var txs := env.block(slot);
    if tx >= |txs| {
      assert IngestBlock(env, s, slot, tx) == Next(s, ()) && InsertBlock(acc, slot, txs, tx) == acc;
    } else {
      var o := IngestTx(env, s, slot, tx);
      var acc' := InsertTx(acc, slot, tx, txs[tx].payloads);
      TxStored(env, s, slot, tx, acc);
      BlockStep(env, s, slot, tx);
      assert InsertBlock(acc, slot, txs, tx) == InsertBlock(acc', slot, txs, tx + 1);
      if o.Next? { BlockStored(env, o.s, slot, tx + 1, acc'); }
    }
  }

  /** The refusals of one transaction, and of a block from a transaction on. */
  ghost function TxRefusals(slot: int, tx: nat, keys: seq<string>): set<RefusalId> {
    set key | key in keys :: ParseRefusal(slot, tx, key)
  }

  ghost function BlockRefusals(acc: set<RefusalId>, slot: int, txs: seq<ParsedTx>, tx: nat): (r: set<RefusalId>)
    ensures acc <= r
    decreases |txs| - tx
  {
    if tx >= |txs| then acc
    else BlockRefusals(acc + TxRefusals(slot, tx, txs[tx].refusals), slot, txs, tx + 1)
  }

  lemma {:induction false} HasRefusal(acc: set<RefusalId>, slot: int, txs: seq<ParsedTx>, tx: nat, at: nat, key: string)
    requires tx <= at < |txs| && key in txs[at].refusals
    ensures ParseRefusal(slot, at, key) in BlockRefusals(acc, slot, txs, tx)
    decreases at - tx
  {
    if tx < at { HasRefusal(acc + TxRefusals(slot, tx, txs[tx].refusals), slot, txs, tx + 1, at, key); }
  }

  lemma TxRefused(env: Env, s: State, slot: int, tx: nat, acc: set<RefusalId>)
    requires tx < |env.block(slot)| && acc <= s.store.refusals
    ensures var o := IngestTx(env, s, slot, tx);
      o.Next? ==> acc + TxRefusals(slot, tx, env.block(slot)[tx].refusals) <= o.s.store.refusals
  {
  }

  /** A block that is stored to its end has all its parse refusals on record. */
  lemma {:induction false} RefusalsStored(env: Env, s: State, slot: int, tx: nat, acc: set<RefusalId>)
    requires acc <= s.store.refusals
    ensures var o := IngestBlock(env, s, slot, tx);
      o.Next? ==> BlockRefusals(acc, slot, env.block(slot), tx) <= o.s.store.refusals
    decreases |env.block(slot)| - tx
  {
    var txs := env.block(slot);
    if tx >= |txs| {
      assert IngestBlock(env, s, slot, tx) == Next(s, ()) && BlockRefusals(acc, slot, txs, tx) == acc;
    } else {
      var o := IngestTx(env, s, slot, tx);
      var acc' := acc + TxRefusals(slot, tx, txs[tx].refusals);
      TxRefused(env, s, slot, tx, acc);
      BlockStep(env, s, slot, tx);
      assert BlockRefusals(acc, slot, txs, tx) == BlockRefusals(acc', slot, txs, tx + 1);
      if o.Next? { RefusalsStored(env, o.s, slot, tx + 1, acc'); }
    }
  }

  lemma AllRefused(env: Env, st: Store, slot: int)
    requires BlockRefusals({}, slot, env.block(slot), 0) <= st.refusals
    ensures RefusedTo(env, st, slot, |env.block(slot)|)
  {
    forall at: nat, key | at < |env.block(slot)| && key in env.block(slot)[at].refusals
      ensures ParseRefusal(slot, at, key) in st.refusals
    {
      HasRefusal({}, slot, env.block(slot), 0, at, key);
    }
  }

  /** Of the slots the watermark passes, the listed ones are settled; the others are left as they were. */
  ghost predicate Settles(env: Env, s: State, t: State, slots: seq<int>) {
    && Kept(s.store, t.store) && s.mem.last <= t.mem.last
    && (forall x :: x in slots && s.mem.last < x <= t.mem.last ==> Settled(env, t.store, x))
    && (forall k :: k in t.store.payloads && k !in s.store.payloads ==> k.slot in slots)
    && (forall r :: r in t.store.refusals && r !in s.store.refusals && SlotOf(r).Some? ==> SlotOf(r).value in slots)
  }

  /** And the watermark only moves to a listed slot. */
  ghost predicate Passes(env: Env, s: State, t: State, slots: seq<int>) {
    Settles(env, s, t, slots) && (t.mem.last == s.mem.last || t.mem.last in slots)
  }

  lemma PassesOn(env: Env, s: State, t: State, u: State, slots: seq<int>)
    requires Passes(env, s, t, slots) && Passes(env, t, u, slots)
    ensures Passes(env, s, u, slots)
  {
  }

  lemma QuietPasses(env: Env, s: State, t: State, slots: seq<int>)
    requires Kept(s.store, t.store) && s.store.payloads == t.store.payloads && s.mem.last == t.mem.last
    requires forall r :: r in t.store.refusals && r !in s.store.refusals ==> r.IncidentRefusal?
    ensures Passes(env, s, t, slots)
  {
  }

  lemma IncidentPasses(env: Env, s: State, incident: Incident, at: Option<int>, slots: seq<int>)
    ensures Passes(env, s, RecordIncident(env, s, incident, at).s, slots)
  {
    QuietPasses(env, s, RecordIncident(env, s, incident, at).s, slots);
  }

  lemma RescuePasses(env: Env, s: State, why: Why, slots: seq<int>)
    ensures Passes(env, s, Rescue(env, s, why).s, slots)
  {
    if why.Thrown? && Classify(why.e).Some? { IncidentPasses(env, s, Classify(why.e).value, None, slots); }
  }

  lemma SlotPasses(env: Env, s: State, slot: int, slots: seq<int>)
    requires slot in slots && s.mem.last < slot && forall x :: x in slots && s.mem.last < x ==> slot <= x
    ensures Passes(env, s, IngestDiscoveredSlot(env, s, slot).s, slots)
  {
    var o1 := Call(env, s);
    if o1.Next? {
      if slot in o1.v.gone {
        var o2 := InsertRefusal(env, o1.s, MissingBlock(slot));
        if o2.Next? { AdvancePasses(env, s, o2.s, slot, slots); }
      } else {
        BlockAdds(env, o1.s, slot, 0);
        BlockStored(env, o1.s, slot, 0, map[]);
        RefusalsStored(env, o1.s, slot, 0, {});
        var o2 := IngestBlock(env, o1.s, slot, 0);
        if o2.Next? {
          AllRefused(env, o2.s.store, slot);
          AdvancePasses(env, s, o2.s, slot, slots);
        }
      }
    }
  }

  lemma AdvancePasses(env: Env, s: State, t: State, slot: int, slots: seq<int>)
    requires slot in slots && s.mem.last < slot && forall x :: x in slots && s.mem.last < x ==> slot <= x
    requires Kept(s.store, t.store) && t.mem == s.mem && Settled(env, t.store, slot)
    requires forall k :: k in t.store.payloads && k !in s.store.payloads ==> k.slot == slot
    requires forall r :: r in t.store.refusals && r !in s.store.refusals ==> SlotOf(r) == Some(slot)
    ensures Passes(env, s, Advance(env, t, slot).s, slots)
  {
  }

  lemma {:induction false} TakePasses(env: Env, s: State, rest: seq<int>, first: int, slots: seq<int>)
    requires Ascending(rest) && (forall x :: x in rest ==> x in slots)
    requires forall x :: x in slots && s.mem.last < x ==> x in rest
    ensures Passes(env, s, TakeSlots(env, s, rest, first).s, slots)
    decreases |rest|
  {
    if rest != [] && !s.mem.halted {
      assert forall x :: x in rest <==> x == rest[0] || x in rest[1..];
      assert forall x :: x in rest[1..] ==> rest[0] < x;
      if rest[0] < first {
        IncidentPasses(env, s, StartupRetentionUnavailable, Some(rest[0]), slots);
      } else if rest[0] <= s.mem.last {
        TakePasses(env, s, rest[1..], first, slots);
      } else {
        SlotPasses(env, s, rest[0], slots);
        var o := IngestDiscoveredSlot(env, s, rest[0]);
        if o.Next? {
          TakePasses(env, o.s, rest[1..], first, slots);
          PassesOn(env, s, o.s, TakeSlots(env, o.s, rest[1..], first).s, slots);
        } else {
          RescuePasses(env, o.s, o.why, slots);
          PassesOn(env, s, o.s, Rescue(env, o.s, o.why).s, slots);
        }
      }
    }
  }

  lemma ProcessPasses(env: Env, s: State, slots: seq<int>, head: int)
    requires Ascending(slots)
    ensures Passes(env, s, ProcessSlotList(env, s, slots, head).s, slots)
  {
    var beyond := PendingBeyondWindow(env, s, slots, head);
    if !s.mem.bootstrap && beyond.Some? {
      IncidentPasses(env, s, CatchupWindowExceeded, beyond, slots);
    } else {
      var o := Call(env, s);
      QuietPasses(env, s, o.s, slots);
      if o.Next? {
        TakePasses(env, o.s, slots, o.v.firstAvailable, slots);
        PassesOn(env, s, o.s, TakeSlots(env, o.s, slots, o.v.firstAvailable).s, slots);
      } else {
        RescuePasses(env, o.s, o.why, slots);
        PassesOn(env, s, o.s, Rescue(env, o.s, o.why).s, slots);
      }
    }
  }

  // ---------------------------------------------------------------- a live tick

  lemma PassesSame(env: Env, s: State, t: State, a: seq<int>, b: seq<int>)
    requires Passes(env, s, t, a) && (forall x :: x in a ==> x in b) && forall x :: x in b && s.mem.last < x ==> x in a
    ensures Passes(env, s, t, b)
  {
  }

  lemma LagPasses(env: Env, s: State, lag: int, t: State, lag': int, slots: seq<int>)
    requires Passes(env, SetLag(s, lag), t, slots)
    ensures Passes(env, s, SetLag(t, lag'), slots) && Passes(env, s, t, slots)
  {
  }

  lemma PendingPasses(env: Env, s: State, pending: seq<int>, head: int)
    requires Ascending(pending)
    ensures Passes(env, s, FollowPending(env, s, pending, head).s, pending)
  {
    var lag := if pending != [] then head - pending[0] else 0;
    ProcessPasses(env, SetLag(s, lag), pending, head);
    LagPasses(env, s, lag, ProcessSlotList(env, SetLag(s, lag), pending, head).s, 0, pending);
  }

  lemma AbovePasses(env: Env, s: State, slots: seq<int>, head: int)
    requires Ascending(slots)
    ensures Passes(env, s, FollowPending(env, s, Above(slots, s.mem.last), head).s, slots)
  {
    var pending := Above(slots, s.mem.last);
    PendingPasses(env, s, pending, head);
    PassesSame(env, s, FollowPending(env, s, pending, head).s, pending, slots);
  }

  /** The discovery of a tick whose watermark moves. */
  ghost predicate TickOf(env: Env, s: State, t: State, d: Discovery) {
    && t.discoveries == s.discoveries + [d] && d.after == Some(s.mem.last)
    && FromPolls(env, d) && Ascending(d.slots) && t.mem.last in d.slots
  }

  lemma ClearPasses(env: Env, s: State, slots: seq<int>)
    ensures Passes(env, s, ClearRetriableIncident(env, s).s, slots)
  {
    QuietPasses(env, s, ClearRetriableIncident(env, s).s, slots);
  }

  lemma DiscoveryPasses(env: Env, s: State, after: Option<int>, slots: seq<int>)
    ensures Passes(env, s, DiscoverOrIncident(env, s, after).s, slots)
  {
    var o := PollPrograms(env, s, [], true);
    if o.Fail? {
      if o.why == Thrown(Other) {
        IncidentPasses(env, o.s, DiscoveryIncomplete, None, slots);
        var r := RecordIncident(env, o.s, DiscoveryIncomplete, None);
        if r.Fail? {
          RescuePasses(env, r.s, r.why, slots);
          PassesOn(env, o.s, r.s, Rescue(env, r.s, r.why).s, slots);
        }
      } else {
        RescuePasses(env, o.s, o.why, slots);
      }
    }
  }

  lemma FollowFromPasses(env: Env, s: State, head: int) returns (d: Discovery)
    ensures var t := FollowFrom(env, s, head).s;
      Passes(env, s, t, d.slots) && (s.mem.last < t.mem.last ==> TickOf(env, s, t, d))
  {
    var o1 := DiscoverOrIncident(env, s, Some(s.mem.last));
    d := if o1.Next? && o1.v.Some? then o1.v.value else Discovery(None, [], [], true);
    DiscoveryPasses(env, s, Some(s.mem.last), d.slots);
    if o1.Next? && o1.v.Some? {
      ClearPasses(env, o1.s, d.slots);
      var o2 := ClearRetriableIncident(env, o1.s);
      PassesOn(env, s, o1.s, o2.s, d.slots);
      if o2.Next? {
        AbovePasses(env, o2.s, d.slots, head);
        PassesOn(env, s, o2.s, FollowPending(env, o2.s, Above(d.slots, o2.s.mem.last), head).s, d.slots);
      }
    }
  }

  lemma TickPasses(env: Env, s: State) returns (d: Discovery)
    ensures var t := FollowOnce(env, s).s;
      Passes(env, s, t, d.slots) && (s.mem.last < t.mem.last ==> TickOf(env, s, t, d))
  {
    d := Discovery(None, [], [], true);
    if !s.mem.halted && !s.mem.bootstrap {
      var o := Call(env, s);
      if o.Next? {
        d := FollowFromPasses(env, o.s, o.v.head);
      } else {
        RescuePasses(env, o.s, o.why, d.slots);
      }
    }
  }

  /**
   Whatever the answers and failures of a live tick: of the slots the watermark has passed in it, the settled
   ones are those settled before and those its discovery listed.
   */
  lemma TickSettlesListed(env: Env, s: State) returns (d: Discovery)
    ensures var t := FollowOnce(env, s).s;
      && (s.mem.last < t.mem.last ==> TickOf(env, s, t, d))
      && (forall x :: s.mem.last < x <= t.mem.last ==>
            (Settled(env, t.store, x) <==> Settled(env, s.store, x) || x in d.slots))
  {
    d := TickPasses(env, s);
    PassedSettled(env, s, FollowOnce(env, s).s, d.slots);
  }

  /**
   A live tick that moves the watermark leaves everything up to it settled exactly when every hole of its
   discovery up to there was settled before.
   */
  lemma LiveTickIff(env: Env, s: State) returns (d: Discovery)
    requires env.startSlot - 1 <= s.mem.last && CompleteUpTo(env, s.store, s.mem.last)
    ensures var t := FollowOnce(env, s).s;
      s.mem.last < t.mem.last ==>
        && TickOf(env, s, t, d)
        && (CompleteUpTo(env, t.store, t.mem.last) <==>
              forall x :: Hole(env, d, x) && x <= t.mem.last ==> Settled(env, s.store, x))
  {
    d := TickPasses(env, s);
    var t := FollowOnce(env, s).s;
    if s.mem.last < t.mem.last {
      PassedSettled(env, s, t, d.slots);
      UnlistedAreHoles(env, d, s.mem.last, t.mem.last);
    }
  }

  lemma UnlistedAreHoles(env: Env, d: Discovery, last: int, newLast: int)
    requires FromPolls(env, d) && d.after == Some(last) && env.startSlot - 1 <= last < newLast && newLast in d.slots
    ensures forall x :: x <= newLast ==>
      (Hole(env, d, x) <==> env.Relevant(x) && last < x && x !in d.slots)
  {
    forall x | x <= newLast ensures Hole(env, d, x) <==> env.Relevant(x) && last < x && x !in d.slots {
      HoleIsRelevant(env, d, x);
      if env.Relevant(x) && last < x { HolesAreLeftOut(env, d, x); }
    }
  }

  /** Of the slots passed, the settled ones are those settled before and those taken. */
  lemma PassedSettled(env: Env, s: State, t: State, slots: seq<int>)
    requires Settles(env, s, t, slots)
    ensures forall x :: s.mem.last < x <= t.mem.last ==>
      (Settled(env, t.store, x) <==> Settled(env, s.store, x) || x in slots)
    ensures env.startSlot - 1 <= s.mem.last && CompleteUpTo(env, s.store, s.mem.last) ==>
      (CompleteUpTo(env, t.store, t.mem.last) <==>
         forall x :: env.Relevant(x) && s.mem.last < x <= t.mem.last && x !in slots ==> Settled(env, s.store, x))
  {
    forall x | s.mem.last < x <= t.mem.last && x !in slots && Settled(env, t.store, x)
      ensures Settled(env, s.store, x)
    {
      ReingestCompletes(env, map[], x);
    }
    forall x | Settled(env, s.store, x) ensures Settled(env, t.store, x) {}
  }

  // ---------------------------------------------------------------- a catch-up pass

  lemma {:induction false} TakenAll(env: Env, s: State, slots: seq<int>, first: int)
    requires Ascending(slots)
    ensures var o := TakeSlots(env, s, slots, first);
      o.Next? && o.v ==> o.s.mem.last == Last(s.mem.last, slots)
    decreases |slots|
  {
    if slots != [] && !s.mem.halted && first <= slots[0] {
      LastRest(s.mem.last, slots);
      if slots[0] <= s.mem.last {
        TakenAll(env, s, slots[1..], first);
      } else {
        var o := IngestDiscoveredSlot(env, s, slots[0]);
        if o.Next? { TakenAll(env, o.s, slots[1..], first); }
      }
    }
  }

  lemma ProcessedAll(env: Env, s: State, slots: seq<int>, head: int)
    requires Ascending(slots)
    ensures var o := ProcessSlotList(env, s, slots, head);
      o.Next? && o.v ==> o.s.mem.last == Last(s.mem.last, slots)
  {
    var o := Call(env, s);
    if o.Next? { TakenAll(env, o.s, slots, o.v.firstAvailable); }
  }

  /** What a pass takes: the slots of its first discovery, and what the second lists above the newest of them. */
  function Taken(last: int, ds: seq<Discovery>): seq<int> {
    if ds == [] then []
    else ds[0].slots + if |ds| == 1 then [] else Above(ds[1].slots, Last(last, ds[0].slots))
  }

  /** The discoveries made since. */
  function Since(s: State, t: State): seq<Discovery>
    requires s.discoveries <= t.discoveries
  {
    t.discoveries[|s.discoveries|..]
  }

  lemma BothPass(env: Env, s: State, t: State, u: State, a: seq<int>, b: seq<int>)
    requires Passes(env, s, t, a) && Passes(env, t, u, b)
    requires (forall x :: x in a ==> x <= t.mem.last) && (forall x :: x in b ==> t.mem.last < x)
    ensures Passes(env, s, u, a + b)
  {
  }

  lemma EnumeratePasses(env: Env, s: State, head: int, slots: seq<int>)
    ensures Passes(env, s, Enumerate(env, s, head).s, slots)
  {
    DiscoveryPasses(env, s, None, slots);
    var o := DiscoverOrIncident(env, s, None);
    if o.Next? && o.v.Some? && o.s.mem.bootstrap && !o.v.value.floors {
      IncidentPasses(env, o.s, BootstrapRangeNotEnumerated, None, slots);
      PassesOn(env, s, o.s, RecordIncident(env, o.s, BootstrapRangeNotEnumerated, None).s, slots);
    }
  }

  lemma ExtrasPass(env: Env, s: State, extras: seq<int>, head: int)
    requires Ascending(extras)
    ensures Passes(env, s, SettleExtras(env, s, extras, head).s, extras)
  {
    if extras != [] {
      ProcessPasses(env, s, extras, head);
      var o1 := ProcessSlotList(env, s, extras, head);
      if o1.Next? && o1.v {
        EnumeratePasses(env, o1.s, head, extras);
        var o2 := Enumerate(env, o1.s, head);
        PassesOn(env, s, o1.s, o2.s, extras);
        if o2.Next? && o2.v.Some? { StillPasses(env, s, o2.s, o2.v.value, extras); }
      }
    }
  }

  lemma StillPasses(env: Env, s: State, t: State, d: Discovery, slots: seq<int>)
    requires Passes(env, s, t, slots)
    ensures Above(d.slots, t.mem.last) != [] ==>
      Passes(env, s, RecordIncident(env, t, DiscoveryIncomplete, Some(Above(d.slots, t.mem.last)[0])).s, slots)
  {
    if Above(d.slots, t.mem.last) != [] {
      var at := Some(Above(d.slots, t.mem.last)[0]);
      IncidentPasses(env, t, DiscoveryIncomplete, at, slots);
      PassesOn(env, s, t, RecordIncident(env, t, DiscoveryIncomplete, at).s, slots);
    }
  }

  /** Completion moves the watermark further only when nothing was taken. */
  lemma CompletionSettles(env: Env, s: State, t: State, head: int, slots: seq<int>)
    requires Passes(env, s, t, slots) && env.startSlot - 1 <= s.mem.last
    ensures Settles(env, s, CompleteCatchUp(env, t, head, slots == []).s, slots)
  {
  }

  lemma SettledTakes(env: Env, s: State, t: State, slots: seq<int>, extras: seq<int>, head: int)
    requires Passes(env, s, t, slots) && env.startSlot - 1 <= s.mem.last && Ascending(extras)
    requires (forall x :: x in slots ==> x <= t.mem.last) && (forall x :: x in extras ==> t.mem.last < x)
    ensures Settles(env, s, SettleAndComplete(env, t, extras, head, slots == []).s, slots + extras)
  {
    ExtrasPass(env, t, extras, head);
    var o := SettleExtras(env, t, extras, head);
    BothPass(env, s, t, o.s, slots, extras);
    if o.Next? && o.v { CompletionSettles(env, s, o.s, head, slots + extras); }
  }

  lemma VerifyTakes(env: Env, s: State, t: State, d: Discovery, head: int)
    requires Passes(env, s, t, d.slots) && env.startSlot - 1 <= s.mem.last && Ascending(d.slots)
    requires t.discoveries == s.discoveries + [d] && t.mem.last == Last(s.mem.last, d.slots)
    ensures var u := VerifyCatchUp(env, t, head, d.slots == []).s;
      s.discoveries <= u.discoveries && Settles(env, s, u, Taken(s.mem.last, Since(s, u)))
  {
    var o := Enumerate(env, t, head);
    LastIsLast(s.mem.last, d.slots);
    EnumeratePasses(env, t, head, d.slots);
    PassesOn(env, s, t, o.s, d.slots);
    if o.Next? && o.v.Some? {
      var u := SettleAndComplete(env, o.s, Above(o.v.value.slots, t.mem.last), head, d.slots == []).s;
      SettledTakes(env, s, o.s, d.slots, Above(o.v.value.slots, t.mem.last), head);
      SecondTaken(env, s, u, d, o.v.value);
    } else {
      NoneTakenOn(env, s, o.s, d);
    }
  }

  lemma SecondTaken(env: Env, s: State, u: State, d: Discovery, e: Discovery)
    requires s.discoveries + [d] + [e] <= u.discoveries
    ensures Taken(s.mem.last, Since(s, u)) == d.slots + Above(e.slots, Last(s.mem.last, d.slots))
  {
  }

  /** A second discovery that is not used lists nothing the watermark has passed. */
  lemma NoneTakenOn(env: Env, s: State, u: State, d: Discovery)
    requires Passes(env, s, u, d.slots) && s.discoveries + [d] <= u.discoveries &&
      u.mem.last == Last(s.mem.last, d.slots)
    ensures Settles(env, s, u, Taken(s.mem.last, Since(s, u)))
  {
    var extras := if |Since(s, u)| == 1 then [] else Above(Since(s, u)[1].slots, u.mem.last);
    assert Taken(s.mem.last, Since(s, u)) == d.slots + extras;
  }

  lemma LastIsLast(last: int, slots: seq<int>)
    requires Ascending(slots)
    ensures last <= Last(last, slots) && forall x :: x in slots ==> x <= Last(last, slots)
  {
  }

  lemma ListingTakes(env: Env, s: State, t: State, d: Discovery, head: int)
    requires t.mem == s.mem && t.store == s.store && t.discoveries == s.discoveries + [d]
    requires env.startSlot - 1 <= s.mem.last && Ascending(d.slots)
    ensures var u := TakeListing(env, t, d.slots, head).s;
      s.discoveries <= u.discoveries && Settles(env, s, u, Taken(s.mem.last, Since(s, u)))
  {
    ProcessPasses(env, t, d.slots, head);
    ProcessedAll(env, t, d.slots, head);
    var o := ProcessSlotList(env, t, d.slots, head);
    if o.Next? && o.v { VerifyTakes(env, s, o.s, d, head); }
  }

  lemma CatchUpFromTakes(env: Env, s: State, head: int)
    requires env.startSlot - 1 <= s.mem.last
    ensures var u := CatchUpFrom(env, s, head).s;
      s.discoveries <= u.discoveries && Settles(env, s, u, Taken(s.mem.last, Since(s, u)))
  {
    var o := Enumerate(env, s, head);
    if o.Next? && o.v.Some? {
      ListingTakes(env, s, o.s, o.v.value, head);
    } else {
      var u := CatchUpFrom(env, s, head).s;
      EnumeratePasses(env, s, head, Taken(s.mem.last, Since(s, u)));
    }
  }

  lemma RetentionPasses(env: Env, s: State, head: int, slots: seq<int>)
    ensures Passes(env, s, AssertStartupRetention(env, s, head).s, slots)
  {
    var o := Call(env, s);
    QuietPasses(env, s, o.s, slots);
    if o.Next? { IncidentPasses(env, o.s, StartupRetentionUnavailable, Some(env.startSlot), slots); }
  }

  lemma CatchUpTakes(env: Env, s: State)
    requires env.startSlot - 1 <= s.mem.last
    ensures var u := CatchUpToHead(env, s).s;
      s.discoveries <= u.discoveries && Settles(env, s, u, Taken(s.mem.last, Since(s, u)))
  {
    var o1 := Call(env, s.(mem := Forgive(s.mem)));
    if o1.Fail? {
      RescuePasses(env, o1.s, o1.why, []);
    } else {
      RetentionPasses(env, o1.s, o1.v.head, []);
      var o2 := AssertStartupRetention(env, o1.s, o1.v.head);
      if o2.Fail? {
        RescuePasses(env, o2.s, o2.why, []);
        PassesOn(env, o1.s, o2.s, Rescue(env, o2.s, o2.why).s, []);
      } else {
        CatchUpFromTakes(env, o2.s, o1.v.head);
      }
    }
  }

  /**
   Whatever the answers and failures of a catch-up pass: of the slots the watermark has passed in it, the settled
   ones are those settled before and those it took, and nothing is left behind exactly when every other relevant
   one was settled before.
   */
  lemma CatchUpIff(env: Env, s: State) returns (taken: seq<int>)
    requires env.startSlot - 1 <= s.mem.last
    ensures var t := CatchUpToHead(env, s).s;
      && s.discoveries <= t.discoveries && taken == Taken(s.mem.last, Since(s, t))
      && (forall x :: s.mem.last < x <= t.mem.last ==>
            (Settled(env, t.store, x) <==> Settled(env, s.store, x) || x in taken))
      && (CompleteUpTo(env, s.store, s.mem.last) ==>
            (CompleteUpTo(env, t.store, t.mem.last) <==>
               forall x :: env.Relevant(x) && s.mem.last < x <= t.mem.last && x !in taken ==> Settled(env, s.store, x)))
  {
    CatchUpTakes(env, s);
    var t := CatchUpToHead(env, s).s;
    taken := Taken(s.mem.last, Since(s, t));
    PassedSettled(env, s, t, taken);
  }
}
