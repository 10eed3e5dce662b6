/**
 What one pass of svm-ingest achieves: when bootstrap may complete, that a pass against a healthy RPC
 does complete, and what a restart comes to.
 */
module IngestPasses {
  import opened Common
  import opened Ingest
  import opened IngestSlots
  import opened IngestDiscovery
  import opened IngestCatchUp

  // ---------------------------------------------------------------- bootstrap completion

  /** The discoveries a pass has consulted since `s`. */
  function Consulted(s: State, t: State): seq<Discovery>
    requires |s.discoveries| <= |t.discoveries|
  {
    t.discoveries[|s.discoveries|..]
  }

  /** Two discoveries or more were consulted, all of them to every floor, and the last left nothing to take. */
  ghost predicate EnumeratedPass(s: State, t: State) {
    && |s.discoveries| + 2 <= |t.discoveries| && t.discoveries[..|s.discoveries|] == s.discoveries
    && (forall d :: d in Consulted(s, t) ==> d.floors)
    && Above(t.discoveries[|t.discoveries| - 1].slots, t.mem.last) == []
  }

  /**
   A catch-up pass clears `historical_backfill` only after a first and a verifying discovery, every
   one of which reached every program floor, the last one leaving no slot above the watermark.
   */
  lemma BootstrapClearsOnlyWhenEnumerated(env: Env, s: State)
    ensures var t := CatchUpToHead(env, s).s;
      s.mem.bootstrap && !t.mem.bootstrap ==> EnumeratedPass(s, t) && t.mem.IsReady()
  {
    if s.mem.bootstrap && !CatchUpToHead(env, s).s.mem.bootstrap {
      var o1 := Call(env, s.(mem := Forgive(s.mem)));
      if o1.Next? {
        var o2 := AssertStartupRetention(env, o1.s, o1.v.head);
        if o2.Next? { BootstrapClears(env, o2.s, o1.v.head); }
      }
    }
  }

  lemma BootstrapPath(env: Env, s: State, head: int)
    returns (s1: State, d1: Discovery, s2: State, s3: State, d2: Discovery, s4: State)
    requires s.mem.bootstrap && !CatchUpFrom(env, s, head).s.mem.bootstrap
    ensures Enumerate(env, s, head) == Next(s1, Some(d1))
    ensures ProcessSlotList(env, s1, d1.slots, head) == Next(s2, true)
    ensures Enumerate(env, s2, head) == Next(s3, Some(d2))
    ensures SettleExtras(env, s3, Above(d2.slots, s3.mem.last), head) == Next(s4, true)
    ensures CatchUpFrom(env, s, head) ==
      CompleteCatchUp(env, s4, head, d1.slots == [] && Above(d2.slots, s3.mem.last) == [])
    ensures s4.mem.bootstrap && s3.mem.bootstrap && s1.mem.bootstrap && d1.floors && d2.floors
    ensures !s.mem.halted ==> !s4.mem.halted
  {
    s1, d1 := Enumerate(env, s, head).s, Enumerate(env, s, head).v.value;
    s2 := ProcessSlotList(env, s1, d1.slots, head).s;
    s3, d2 := Enumerate(env, s2, head).s, Enumerate(env, s2, head).v.value;
    s4 := SettleExtras(env, s3, Above(d2.slots, s3.mem.last), head).s;
  }

  lemma CompletionFacts(env: Env, s: State, head: int, nothingFound: bool)
    requires s.mem.bootstrap && !s.mem.halted
    ensures var t := CompleteCatchUp(env, s, head, nothingFound).s;
      t.discoveries == s.discoveries && s.mem.last <= t.mem.last && t.mem.IsReady()
  {
  }

  lemma BootstrapClears(env: Env, s: State, head: int)
    requires s.mem.bootstrap && !s.mem.halted && !CatchUpFrom(env, s, head).s.mem.bootstrap
    ensures EnumeratedPass(s, CatchUpFrom(env, s, head).s) && CatchUpFrom(env, s, head).s.mem.IsReady()
  {
    var s1, d1, s2, s3, d2, s4 := BootstrapPath(env, s, head);
    PathDiscoveries(env, s, head, s1, d1, s2, s3, d2);
    ClearsVia(env, s, s3, d1, d2, s4, head, d1.slots == [] && Above(d2.slots, s3.mem.last) == []);
  }

  lemma PathDiscoveries(env: Env, s: State, head: int, s1: State, d1: Discovery, s2: State, s3: State, d2: Discovery)
    requires Enumerate(env, s, head) == Next(s1, Some(d1)) && ProcessSlotList(env, s1, d1.slots, head) == Next(s2, true)
    requires Enumerate(env, s2, head) == Next(s3, Some(d2))
    ensures s3.discoveries == s.discoveries + [d1, d2]
  {
  }

  lemma ClearsVia(env: Env, s: State, s3: State, d1: Discovery, d2: Discovery, s4: State, head: int, nothingFound: bool)
    requires s3.discoveries == s.discoveries + [d1, d2] && d1.floors && d2.floors && s3.mem.bootstrap
    requires SettleExtras(env, s3, Above(d2.slots, s3.mem.last), head) == Next(s4, true) && s4.mem.bootstrap &&
      !s4.mem.halted
    ensures var t := CompleteCatchUp(env, s4, head, nothingFound).s; EnumeratedPass(s, t) && t.mem.IsReady()
  {
    CompletionFacts(env, s4, head, nothingFound);
    LastPollClear(env, s, s3, d1, d2, s4, CompleteCatchUp(env, s4, head, nothingFound).s, head);
  }

  lemma LastPollClear(env: Env, s: State, s3: State, d1: Discovery, d2: Discovery, s4: State, t: State, head: int)
    requires s3.discoveries == s.discoveries + [d1, d2] && d1.floors && d2.floors && s3.mem.bootstrap
    requires SettleExtras(env, s3, Above(d2.slots, s3.mem.last), head) == Next(s4, true)
    requires t.discoveries == s4.discoveries && s4.mem.last <= t.mem.last
    ensures EnumeratedPass(s, t)
  {
    if Above(d2.slots, s3.mem.last) == [] {
      AboveMonotone(d2.slots, s3.mem.last, t.mem.last);
      PassOf(s, t, [d1, d2]);
    } else {
      var d3 := ExtrasPoll(env, s3, Above(d2.slots, s3.mem.last), head, s4);
      AboveMonotone(d3.slots, s4.mem.last, t.mem.last);
      OneMore(s, d1, d2, d3);
      PassOf(s, t, [d1, d2, d3]);
    }
  }

  lemma OneMore(s: State, d1: Discovery, d2: Discovery, d3: Discovery)
    ensures (s.discoveries + [d1, d2]) + [d3] == s.discoveries + [d1, d2, d3]
  {
  }

  lemma ExtrasPoll(env: Env, s: State, extras: seq<int>, head: int, t: State) returns (d: Discovery)
    requires extras != [] && s.mem.bootstrap && SettleExtras(env, s, extras, head) == Next(t, true)
    ensures t.discoveries == s.discoveries + [d] && d.floors && Above(d.slots, t.mem.last) == []
  {
    d :| t.discoveries == s.discoveries + [d] && d.floors && Above(d.slots, t.mem.last) == [];
  }

  lemma PassOf(s: State, t: State, ds: seq<Discovery>)
    requires |ds| >= 2 && t.discoveries == s.discoveries + ds
    requires (forall d :: d in ds ==> d.floors) && Above(ds[|ds| - 1].slots, t.mem.last) == []
    ensures EnumeratedPass(s, t)
  {
    assert Consulted(s, t) == ds;
  }

  lemma AboveMonotone(slots: seq<int>, w: int, w': int)
    requires Above(slots, w) == [] && w <= w'
    ensures Above(slots, w') == []
  {
    if Above(slots, w') != [] {
      var x := Above(slots, w')[0];
      if x in Above(slots, w') && x in slots && w < x { assert false; }
    }
  }

  // ---------------------------------------------------------------- progress

  /** A healthy RPC and store: every call is answered, every list reaches the same slot and every floor. */
  ghost predicate Healthy(script: seq<Reply>, head: int, first: int, tip: int) {
    forall r :: r in script ==> r == Ok(Answer(head, first, {}, tip, true))
  }

  function EvenTips(env: Env, tip: int): (tips: seq<int>)
    ensures |tips| == |env.programs| && forall p :: 0 <= p < |tips| ==> tips[p] == tip
  {
    seq(|env.programs|, _ => tip)
  }

  /** Every relevant slot from the start slot to the tip. */
  function Full(env: Env, tip: int): (r: seq<int>)
    ensures Ascending(r) && forall x :: x in r ==> env.startSlot <= x
  {
    Listed(env, EvenTips(env, tip))
  }

  function EvenDiscovery(env: Env, after: Option<int>, tip: int): Discovery {
    Discovery(after, EvenTips(env, tip), ListedAfter(env, after, EvenTips(env, tip)), true)
  }

  /** Lists that all reach the same slot leave no hole. */
  lemma EvenIsGapFree(env: Env, tip: int)
    ensures GapFree(env, EvenDiscovery(env, None, tip))
  {
    var d := EvenDiscovery(env, None, tip);
    forall y | y in d.slots ensures y <= tip { assert Shown(env, d.tips, y); }
  }

  lemma EvenMissesNothing(env: Env, ds: seq<Discovery>, tip: int)
    ensures var e := EvenDiscovery(env, None, tip); forall x :: Missed(env, ds + [e, e], x) ==> Missed(env, ds, x)
  {
    EvenIsGapFree(env, tip);
  }

  lemma {:induction false} PollsProgress(env: Env, s: State, tips: seq<int>, head: int, first: int, tip: int)
    requires Healthy(s.script, head, first, tip) && |tips| <= |env.programs| && tips == EvenTips(env, tip)[..|tips|]
    ensures var o := PollPrograms(env, s, tips, true);
      Waits(o) && (o.Next? ==> o.v == (EvenTips(env, tip), true))
    decreases |env.programs| - |tips|
  {
    if |tips| < |env.programs| {
      var o := Call(env, s);
      assert tips + [tip] == EvenTips(env, tip)[..|tips| + 1];
      if o.Next? { PollsProgress(env, o.s, tips + [tip], head, first, tip); }
    } else {
      assert tips == EvenTips(env, tip);
    }
  }

  lemma {:induction false} PayloadsProgress(env: Env, s: State, slot: int, tx: nat, rows: seq<Payload>)
    requires Answered(s.script)
    ensures Waits(InsertPayloads(env, s, slot, tx, rows))
    decreases |rows|
  {
    if rows != [] && s.script != [] {
      PayloadsProgress(env, InsertPayload(env, s, slot, tx, rows[0]).s, slot, tx, rows[1..]);
    }
  }

  lemma {:induction false} RefusalsProgress(env: Env, s: State, slot: int, tx: nat, keys: seq<string>)
    requires Answered(s.script)
    ensures Waits(InsertParseRefusals(env, s, slot, tx, keys))
    decreases |keys|
  {
    if keys != [] && s.script != [] {
      RefusalsProgress(env, InsertRefusal(env, s, ParseRefusal(slot, tx, keys[0])).s, slot, tx, keys[1..]);
    }
  }

  lemma {:induction false} BlockProgress(env: Env, s: State, slot: int, tx: nat)
    requires Answered(s.script)
    ensures Waits(IngestBlock(env, s, slot, tx))
    decreases |env.block(slot)| - tx
  {
    var txs := env.block(slot);
    if tx < |txs| {
      PayloadsProgress(env, s, slot, tx, txs[tx].payloads);
      var o1 := InsertPayloads(env, s, slot, tx, txs[tx].payloads);
      if o1.Next? {
        var o2 := CaptureMetadata(env, o1.s);
        if o2.Next? {
          RefusalsProgress(env, o2.s, slot, tx, txs[tx].refusals);
          var o3 := InsertParseRefusals(env, o2.s, slot, tx, txs[tx].refusals);
          if o3.Next? {
            var o4 := Project(env, o3.s, txs[tx].payloads);
            if o4.Next? { BlockProgress(env, o4.s, slot, tx + 1); }
          }
        }
      }
    }
  }

  lemma SlotProgress(env: Env, s: State, slot: int, head: int, first: int, tip: int)
    requires Healthy(s.script, head, first, tip)
    ensures Waits(IngestDiscoveredSlot(env, s, slot))
  {
    var o1 := Call(env, s);
    if o1.Next? { BlockProgress(env, o1.s, slot, 0); }
  }

  function Last(w: int, slots: seq<int>): int {
    if slots == [] then w else Max(w, slots[|slots| - 1])
  }

  lemma LastRest(w: int, slots: seq<int>)
    requires Ascending(slots) && slots != []
    ensures slots[0] <= w ==> Last(w, slots[1..]) == Last(w, slots)
    ensures w < slots[0] ==> Last(slots[0], slots[1..]) == Last(w, slots)
    ensures Ascending(slots[1..]) && forall x :: x in slots[1..] ==> x in slots
  {
  }

  lemma {:induction false} TakeProgress(env: Env, s: State, slots: seq<int>, head: int, first: int, tip: int)
    requires Healthy(s.script, head, first, tip) && Ascending(slots) && (forall x :: x in slots ==> first <= x)
    requires !s.mem.halted
    ensures var o := TakeSlots(env, s, slots, first);
      && Waits(o)
      && (o.Next? ==> o.v && o.s.mem == s.mem.(last := Last(s.mem.last, slots), incident := o.s.mem.incident))
    decreases |slots|
  {
    if slots != [] {
      assert slots[0] in slots;
      LastRest(s.mem.last, slots);
      if slots[0] <= s.mem.last {
        TakeProgress(env, s, slots[1..], head, first, tip);
      } else {
        SlotProgress(env, s, slots[0], head, first, tip);
        var o := IngestDiscoveredSlot(env, s, slots[0]);
        if o.Next? { TakeProgress(env, o.s, slots[1..], head, first, tip); }
      }
    }
  }

  lemma ProcessProgress(env: Env, s: State, slots: seq<int>, head: int, first: int, tip: int)
    requires Healthy(s.script, head, first, tip) && Ascending(slots) && (forall x :: x in slots ==> first <= x)
    requires !s.mem.halted
    requires s.mem.bootstrap || forall x :: x in slots && s.mem.last < x ==> head - env.maxLagSlots <= x
    ensures var o := ProcessSlotList(env, s, slots, head);
      && Waits(o)
      && (o.Next? ==> o.v && o.s.mem == s.mem.(last := Last(s.mem.last, slots), incident := o.s.mem.incident))
  {
    var pending := Above(slots, s.mem.last);
    if pending != [] { assert pending[0] in pending; }
    var o1 := Call(env, s);
    if o1.Next? { TakeProgress(env, o1.s, slots, head, first, tip); }
  }

  lemma EnumerateProgress(env: Env, s: State, head: int, first: int, tip: int)
    requires Healthy(s.script, head, first, tip)
    ensures var o := Enumerate(env, s, head);
      && Waits(o)
      && (o.Next? ==>
            && o.v == Some(EvenDiscovery(env, None, tip)) && o.s.mem == s.mem
            && o.s.discoveries == s.discoveries + [EvenDiscovery(env, None, tip)])
  {
    PollsProgress(env, s, [], head, first, tip);
  }

  lemma NothingAbove(slots: seq<int>, w: int)
    requires Ascending(slots) && Last(w, slots) <= w
    ensures Above(slots, w) == []
  {
    if Above(slots, w) != [] {
      var x := Above(slots, w)[0];
      if x in Above(slots, w) && x in slots { assert false; }
    }
  }

  /**
   From any bootstrap state whose invariants hold, a catch-up pass against a healthy RPC ends ready,
   with the watermark at the newest listed slot (or at the head when nothing is listed) and every
   relevant slot up to it settled, but for holes of earlier discoveries.
   */
  lemma CatchUpProgress(env: Env, s: State, head: int, first: int, tip: int)
    requires Good(env, s) && Healthy(s.script, head, first, tip)
    requires s.mem.bootstrap && first <= env.startSlot
    ensures var o := CatchUpToHead(env, s);
      && Waits(o)
      && (o.Next? ==>
            && o.s.mem.IsReady() && o.s.mem.lag == 0
            && o.s.mem.last ==
              (if Full(env, tip) == [] then Max(s.mem.last, head) else Last(s.mem.last, Full(env, tip)))
            && AccountedUpTo(env, o.s.store, s.discoveries, o.s.mem.last))
  {
    CatchUpReaches(env, s, head, first, tip);
    EvenMissesNothing(env, s.discoveries, tip);
  }

  lemma CatchUpReaches(env: Env, s: State, head: int, first: int, tip: int)
    requires Healthy(s.script, head, first, tip) && env.startSlot - 1 <= s.mem.last
    requires s.mem.bootstrap && first <= env.startSlot
    ensures var o := CatchUpToHead(env, s);
      && Waits(o)
      && (o.Next? ==>
            && o.s.mem.IsReady() && o.s.mem.lag == 0
            && o.s.mem.last ==
              (if Full(env, tip) == [] then Max(s.mem.last, head) else Last(s.mem.last, Full(env, tip)))
            && o.s.discoveries == s.discoveries + [EvenDiscovery(env, None, tip), EvenDiscovery(env, None, tip)])
  {
    var o1 := Call(env, s.(mem := Forgive(s.mem)));
    if o1.Next? {
      var o2 := AssertStartupRetention(env, o1.s, head);
      if o2.Next? {
        CatchUpFromProgress(env, o2.s, head, first, tip);
        TakenIsReady(env, o2.s.mem, head, tip);
      }
    }
  }

  /** After every listed slot is taken the verification poll finds none above the watermark. */
  lemma SecondLookFindsNothing(env: Env, s: State, head: int, first: int, tip: int)
    requires Healthy(s.script, head, first, tip) && Last(s.mem.last, Full(env, tip)) <= s.mem.last
    ensures var o := Enumerate(env, s, head);
      && Waits(o)
      && (o.Next? ==>
            && o.v.Some? && Above(o.v.value.slots, o.s.mem.last) == [] && o.s.mem == s.mem && Answered(o.s.script)
            && o.s.discoveries == s.discoveries + [EvenDiscovery(env, None, tip)])
  {
    EnumerateProgress(env, s, head, first, tip);
    NothingAbove(Full(env, tip), s.mem.last);
  }

  lemma CompleteProgress(env: Env, s: State, head: int, nothingFound: bool)
    requires Answered(s.script)
    ensures var o := CompleteCatchUp(env, s, head, nothingFound);
      && Waits(o)
      && (o.Next? ==> o.s.mem == CompletedMem(env, s.mem, head, nothingFound).(lag := 0))
  {
  }

  lemma VerifyProgress(env: Env, s: State, head: int, first: int, tip: int, noneListed: bool)
    requires Healthy(s.script, head, first, tip) && Last(s.mem.last, Full(env, tip)) <= s.mem.last
    ensures var o := VerifyCatchUp(env, s, head, noneListed);
      && Waits(o)
      && (o.Next? ==>
            && o.s.mem == CompletedMem(env, s.mem, head, noneListed).(lag := 0)
            && o.s.discoveries == s.discoveries + [EvenDiscovery(env, None, tip)])
  {
    SecondLookFindsNothing(env, s, head, first, tip);
    var o := Enumerate(env, s, head);
    if o.Next? { CompleteProgress(env, o.s, head, noneListed); }
  }

  /** Memory when all listed slots are taken and the pass is complete. */
  function TakenMem(env: Env, m: Mem, head: int, tip: int): Mem {
    CompletedMem(env, m.(last := Last(m.last, Full(env, tip))), head, Full(env, tip) == []).(lag := 0)
  }

  lemma TakenIsReady(env: Env, m: Mem, head: int, tip: int)
    requires !m.halted && env.startSlot - 1 <= m.last
    ensures var t := TakenMem(env, m, head, tip);
      && t.IsReady()
      && t.last == if Full(env, tip) == [] && m.bootstrap then Max(m.last, head) else Last(m.last, Full(env, tip))
  {
  }

  lemma TakeListingProgress(env: Env, s: State, head: int, first: int, tip: int)
    requires Healthy(s.script, head, first, tip) && first <= env.startSlot && !s.mem.halted
    requires s.mem.bootstrap || InWindow(env, s.mem.last, head, Full(env, tip))
    ensures var o := TakeListing(env, s, Full(env, tip), head);
      && Waits(o)
      && (o.Next? ==>
            && o.s.mem == TakenMem(env, s.mem, head, tip)
            && o.s.discoveries == s.discoveries + [EvenDiscovery(env, None, tip)])
  {
    ProcessProgress(env, s, Full(env, tip), head, first, tip);
    var o := ProcessSlotList(env, s, Full(env, tip), head);
    if o.Next? { VerifyProgress(env, o.s, head, first, tip, Full(env, tip) == []); }
  }

  lemma CatchUpFromProgress(env: Env, s: State, head: int, first: int, tip: int)
    requires Healthy(s.script, head, first, tip) && first <= env.startSlot && !s.mem.halted
    requires s.mem.bootstrap || InWindow(env, s.mem.last, head, Full(env, tip))
    ensures var o := CatchUpFrom(env, s, head);
      && Waits(o)
      && (o.Next? ==>
            && o.s.mem == TakenMem(env, s.mem, head, tip)
            && o.s.discoveries == s.discoveries + [EvenDiscovery(env, None, tip), EvenDiscovery(env, None, tip)])
  {
    EnumerateProgress(env, s, head, first, tip);
    var o := Enumerate(env, s, head);
    if o.Next? { TakeListingProgress(env, o.s, head, first, tip); }
  }

  /** Every listed slot still to be taken is inside the lag window. */
  predicate InWindow(env: Env, watermark: int, head: int, listing: seq<int>) {
    forall x :: x in listing && watermark < x ==> head - env.maxLagSlots <= x
  }

  lemma OldestBeyond(env: Env, s: State, head: int, listing: seq<int>)
    requires Ascending(listing)
    ensures PendingBeyondWindow(env, s, listing, head).None? <==> InWindow(env, s.mem.last, head, listing)
  {
    var pending := Above(listing, s.mem.last);
    if pending != [] { assert pending[0] in pending; }
    forall x | x in listing && s.mem.last < x ensures pending != [] && pending[0] <= x {
      assert x in pending;
    }
  }

  /** Live, with the oldest pending slot outside the window: nothing is taken and the loop halts. */
  lemma CatchUpFromRefuses(env: Env, s: State, head: int, first: int, tip: int)
    requires Healthy(s.script, head, first, tip)
    requires !s.mem.halted && !s.mem.bootstrap && !InWindow(env, s.mem.last, head, Full(env, tip))
    ensures var o := CatchUpFrom(env, s, head);
      && Waits(o)
      && (o.Next? ==> o.s.mem.halted && o.s.mem.incident == Some(CatchupWindowExceeded) && o.s.mem.last == s.mem.last)
  {
    EnumerateProgress(env, s, head, first, tip);
    var o1 := Enumerate(env, s, head);
    if o1.Next? {
      OldestBeyond(env, o1.s, head, Full(env, tip));
      var beyond := PendingBeyondWindow(env, o1.s, Full(env, tip), head);
      WindowIncident(env, o1.s, beyond);
    }
  }

  lemma WindowIncident(env: Env, s: State, beyond: Option<int>)
    requires Answered(s.script)
    ensures var o := RecordIncident(env, s, CatchupWindowExceeded, beyond);
      Waits(o) && (o.Next? ==> o.s.mem == s.mem.(halted := true, incident := Some(CatchupWindowExceeded)))
  {
  }

  /**
   A process that restarts live, whatever halt its cursor carries, ends its first catch-up pass against a
   healthy RPC ready exactly when no pending slot is outside the lag window, and halted otherwise: a
   stored permanent incident by itself does not keep it halted.
   */
  lemma RestartOutcome(env: Env, s: State, head: int, first: int, tip: int)
    requires Healthy(s.script, head, first, tip) && env.startSlot - 1 <= s.mem.last && !s.mem.bootstrap
    requires first <= env.startSlot
    ensures var o := CatchUpToHead(env, s);
      && Waits(o)
      && (o.Next? ==> (o.s.mem.IsReady() <==> InWindow(env, s.mem.last, head, Full(env, tip))))
      && (o.Next? && o.s.mem.IsReady() ==> o.s.mem.last == Last(s.mem.last, Full(env, tip)))
      && (o.Next? && !o.s.mem.IsReady() ==>
        o.s.mem.halted && o.s.mem.incident == Some(CatchupWindowExceeded) && o.s.mem.last == s.mem.last)
  {
    var o1 := Call(env, s.(mem := Forgive(s.mem)));
    if o1.Next? {
      var o2 := AssertStartupRetention(env, o1.s, head);
      if o2.Next? {
        if InWindow(env, s.mem.last, head, Full(env, tip)) {
          CatchUpFromProgress(env, o2.s, head, first, tip);
          TakenIsReady(env, o2.s.mem, head, tip);
        } else {
          CatchUpFromRefuses(env, o2.s, head, first, tip);
        }
      }
    }
  }

  /** The incident a successful slot list leaves: none once a slot was taken, else the one before. */
  lemma {:induction false} TakeForgets(env: Env, s: State, slots: seq<int>, first: int)
    ensures var o := TakeSlots(env, s, slots, first);
      o.Next? && o.v ==> o.s.mem.incident == if Above(slots, s.mem.last) == [] then s.mem.incident else None
    decreases |slots|
  {
    if slots != [] && !s.mem.halted && first <= slots[0] {
      if slots[0] <= s.mem.last {
        TakeForgets(env, s, slots[1..], first);
      } else {
        var o := IngestDiscoveredSlot(env, s, slots[0]);
        if o.Next? { TakeForgets(env, o.s, slots[1..], first); }
      }
    }
  }

  /**
   A live tick against a healthy RPC takes every listed slot inside the lag window, and forgets an incident that
   is tried again, and any other once it takes a slot.
   */
  lemma FollowProgress(env: Env, s: State, head: int, first: int, tip: int)
    requires Healthy(s.script, head, first, tip)
    requires !s.mem.halted && !s.mem.bootstrap
    requires forall x :: x in Full(env, tip) && s.mem.last < x ==> first <= x && head - env.maxLagSlots <= x
    ensures var o := FollowOnce(env, s);
      && Waits(o)
      && (o.Next? ==>
            && !o.s.mem.halted && o.s.mem.last == Last(s.mem.last, Above(Full(env, tip), s.mem.last))
            && (o.s.mem.incident == if Above(Full(env, tip), s.mem.last) == [] && !IsRetriable(s.mem.incident)
                                    then s.mem.incident else None))
  {
    var o1 := Call(env, s);
    if o1.Next? { FollowFromProgress(env, o1.s, head, first, tip); }
  }

  lemma DiscoverProgress(env: Env, s: State, head: int, first: int, tip: int)
    requires Healthy(s.script, head, first, tip) && !s.mem.halted
    ensures var o := DiscoverOrIncident(env, s, Some(s.mem.last));
      Waits(o) && (o.Next? ==> o.v == Some(EvenDiscovery(env, Some(s.mem.last), tip)) && o.s.mem == s.mem)
  {
    PollsProgress(env, s, [], head, first, tip);
  }

  lemma ClearProgress(env: Env, s: State)
    requires Answered(s.script) && !s.mem.halted
    ensures Waits(ClearRetriableIncident(env, s))
  {
  }

  lemma FollowFromProgress(env: Env, s: State, head: int, first: int, tip: int)
    requires Healthy(s.script, head, first, tip)
    requires !s.mem.halted && !s.mem.bootstrap
    requires forall x :: x in Full(env, tip) && s.mem.last < x ==> first <= x && head - env.maxLagSlots <= x
    ensures var o := FollowFrom(env, s, head);
      && Waits(o)
      && (o.Next? ==>
            && !o.s.mem.halted && o.s.mem.last == Last(s.mem.last, Above(Full(env, tip), s.mem.last))
            && (o.s.mem.incident == if Above(Full(env, tip), s.mem.last) == [] && !IsRetriable(s.mem.incident)
                                    then s.mem.incident else None))
  {
    DiscoverProgress(env, s, head, first, tip);
    var o1 := DiscoverOrIncident(env, s, Some(s.mem.last));
    if o1.Next? {
      ClearProgress(env, o1.s);
      var o2 := ClearRetriableIncident(env, o1.s);
      if o2.Next? {
        AboveTwice(Full(env, tip), s.mem.last);
        PendingProgress(env, o2.s, Above(Full(env, tip), s.mem.last), head, first, tip);
      }
    }
  }

  lemma PendingProgress(env: Env, s: State, slots: seq<int>, head: int, first: int, tip: int)
    requires Healthy(s.script, head, first, tip) && Ascending(slots) && !s.mem.halted
    requires forall x :: x in slots ==> first <= x && head - env.maxLagSlots <= x
    ensures var o := FollowPending(env, s, slots, head);
      && Waits(o)
      && (o.Next? ==>
            && !o.s.mem.halted && o.s.mem.last == Last(s.mem.last, slots)
            && o.s.mem.incident == if Above(slots, s.mem.last) == [] then s.mem.incident else None)
  {
    var s1 := SetLag(s, if slots != [] then head - slots[0] else 0);
    ProcessProgress(env, s1, slots, head, first, tip);
    ProcessForgets(env, s1, slots, head);
  }

  lemma ProcessForgets(env: Env, s: State, slots: seq<int>, head: int)
    ensures var o := ProcessSlotList(env, s, slots, head);
      o.Next? && o.v ==> o.s.mem.incident == if Above(slots, s.mem.last) == [] then s.mem.incident else None
  {
    var o := Call(env, s);
    if o.Next? { TakeForgets(env, o.s, slots, o.v.firstAvailable); }
  }

  lemma {:induction false} AboveTwice(slots: seq<int>, w: int)
    ensures Above(Above(slots, w), w) == Above(slots, w)
    decreases |slots|
  {
    if slots != [] {
      AboveTwice(slots[1..], w);
      if w < slots[0] {
        assert Above(slots, w) == [slots[0]] + Above(slots[1..], w);
        assert Above(slots, w)[1..] == Above(slots[1..], w);
      }
    }
  }
}
