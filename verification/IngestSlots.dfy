/**
 Taking slots (svm-ingest/ingest-loop.ts, ingestFetchedBlock to processSlotList): one block, one discovered
 slot, a list of slots. Rows are stored before the watermark moves, oldest slot first.
 */
module IngestSlots {
  import opened Common
  import opened Ingest

  // ---------------------------------------------------------------- one slot

  function InsertPayload(env: Env, s: State, slot: int, tx: nat, row: Payload): (o: Out<()>)
    ensures After(s, o.s) && o.s.mem == s.mem && o.s.discoveries == s.discoveries
  {
    Write(s, s.store.(payloads := InsertIfAbsent(s.store.payloads, RowId(slot, tx, row.log), row.body)))
  }

  function InsertPayloads(env: Env, s: State, slot: int, tx: nat, rows: seq<Payload>): (o: Out<()>)
    ensures After(s, o.s) && o.s.mem == s.mem && o.s.discoveries == s.discoveries
    decreases |rows|
  {
    if rows == [] then Next(s, ()) else
    var (s1, _) :- InsertPayload(env, s, slot, tx, rows[0]);
    InsertPayloads(env, s1, slot, tx, rows[1..])
  }

  function InsertParseRefusals(env: Env, s: State, slot: int, tx: nat, keys: seq<string>): (o: Out<()>)
    ensures After(s, o.s) && o.s.mem == s.mem && o.s.discoveries == s.discoveries
    ensures o.s.store.payloads == s.store.payloads
    ensures Good(env, s) && (forall key :: key in keys ==> OfBlock(env, ParseRefusal(slot, tx, key))) ==> Good(env, o.s)
    ensures o.Next? ==> forall key :: key in keys ==> ParseRefusal(slot, tx, key) in o.s.store.refusals
    decreases |keys|
  {
    if keys == [] then Next(s, ()) else
    var (s1, _) :- InsertRefusal(env, s, ParseRefusal(slot, tx, keys[0]));
    assert forall key :: key in keys <==> key == keys[0] || key in keys[1..];
    InsertParseRefusals(env, s1, slot, tx, keys[1..])
  }

  /** Fetch and store of metadata snapshots; their rows are not modelled. */
  function CaptureMetadata(env: Env, s: State): (o: Out<()>)
    ensures After(s, o.s) && o.s == s.(script := o.s.script)
    ensures Good(env, s) ==> Good(env, o.s)
  {
    var (s1, _) :- Call(env, s);
    Write(s1, s1.store)
  }

  function Project(env: Env, s: State, rows: seq<Payload>): (o: Out<()>)
    ensures After(s, o.s) && o.s == s.(script := o.s.script)
    ensures Good(env, s) ==> Good(env, o.s)
  {
    if env.projector && rows != [] then Write(s, s.store) else Next(s, ())
  }

  /** One transaction: its rows, its snapshots, its refusals, its projection. */
  function IngestTx(env: Env, s: State, slot: int, tx: nat): (o: Out<()>)
    requires tx < |env.block(slot)|
    ensures After(s, o.s) && o.s.mem == s.mem && o.s.discoveries == s.discoveries
  {
    var parsed := env.block(slot)[tx];
    var (s1, _) :- InsertPayloads(env, s, slot, tx, parsed.payloads);
    var (s2, _) :- CaptureMetadata(env, s1);
    var (s3, _) :- InsertParseRefusals(env, s2, slot, tx, parsed.refusals);
    Project(env, s3, parsed.payloads)
  }

  function IngestBlock(env: Env, s: State, slot: int, tx: nat): (o: Out<()>)
    ensures After(s, o.s) && o.s.mem == s.mem && o.s.discoveries == s.discoveries
    decreases |env.block(slot)| - tx
  {
    if tx >= |env.block(slot)| then Next(s, ()) else
    var (s1, _) :- IngestTx(env, s, slot, tx);
    AfterTwice(s, s1, IngestBlock(env, s1, slot, tx + 1).s);
    IngestBlock(env, s1, slot, tx + 1)
  }

  lemma AfterTwice(s: State, t: State, u: State)
    requires After(s, t) && After(t, u)
    ensures After(s, u)
  {
  }

  ghost predicate Within(a: map<RowId, string>, b: map<RowId, string>) {
    forall k :: k in a ==> k in b && b[k] == a[k]
  }

  lemma {:induction false} InsertTxGrows(t: map<RowId, string>, slot: int, tx: nat, rows: seq<Payload>)
    ensures Within(t, InsertTx(t, slot, tx, rows))
    decreases |rows|
  {
    if rows != [] {
      InsertTxGrows(InsertIfAbsent(t, RowId(slot, tx, rows[0].log), rows[0].body), slot, tx, rows[1..]);
    }
  }

  lemma {:induction false} InsertBlockGrows(t: map<RowId, string>, slot: int, txs: seq<ParsedTx>, tx: nat)
    ensures Within(t, InsertBlock(t, slot, txs, tx))
    decreases |txs| - tx
  {
    if tx < |txs| {
      InsertTxGrows(t, slot, tx, txs[tx].payloads);
      InsertBlockGrows(InsertTx(t, slot, tx, txs[tx].payloads), slot, txs, tx + 1);
    }
  }

  /** A slot may be taken: relevant, above the watermark, and whatever is relevant between the two was missed. */
  ghost predicate MayTake(env: Env, s: State, slot: int) {
    && Good(env, s) && env.Relevant(slot) && s.mem.last < slot
    && (forall x :: env.Relevant(x) && env.startSlot <= x < slot ==> x <= s.mem.last || Missed(env, s.discoveries, x))
  }

  lemma SettledGrows(env: Env, s: State, t: State)
    requires After(s, t)
    ensures forall x :: Settled(env, s.store, x) ==> Settled(env, t.store, x)
  {
  }

  /** Storing one more row keeps everything, when the rows before it in the block are stored. */
  lemma InsertPayloadKeeps(env: Env, s: State, slot: int, tx: nat, row: Payload, acc: map<RowId, string>)
    requires MayTake(env, s, slot) && acc.Keys <= s.store.payloads.Keys
    requires Within(InsertIfAbsent(acc, RowId(slot, tx, row.log), row.body), SlotTable(env, slot))
    ensures var o := InsertPayload(env, s, slot, tx, row);
      && MayTake(env, o.s, slot)
      && (o.Next? ==> InsertIfAbsent(acc, RowId(slot, tx, row.log), row.body).Keys <= o.s.store.payloads.Keys)
  {
    var o := InsertPayload(env, s, slot, tx, row);
    SettledGrows(env, s, o.s);
    var k := RowId(slot, tx, row.log);
    assert k !in acc ==> k in InsertIfAbsent(acc, k, row.body);
    InsertSound(env, s.store, k, row.body);
    InsertOldestFirst(env, s.store, s.discoveries, k, row.body);
  }

  lemma InsertSound(env: Env, st: Store, k: RowId, body: string)
    requires Sound(env, st) && env.Relevant(k.slot) && env.startSlot <= k.slot
    requires k in SlotTable(env, k.slot) && (k !in st.payloads ==> SlotTable(env, k.slot)[k] == body)
    ensures Sound(env, st.(payloads := InsertIfAbsent(st.payloads, k, body)))
  {
  }

  lemma InsertOldestFirst(env: Env, st: Store, ds: seq<Discovery>, k: RowId, body: string)
    requires OldestFirst(env, st, ds)
    requires forall x :: env.Relevant(x) && env.startSlot <= x < k.slot ==> Accounted(env, st, ds, x)
    ensures OldestFirst(env, st.(payloads := InsertIfAbsent(st.payloads, k, body)), ds)
  {
    var t := st.(payloads := InsertIfAbsent(st.payloads, k, body));
    forall x | Settled(env, st, x) ensures Settled(env, t, x) {}
  }

  lemma {:induction false} InsertPayloadsKeeps(env: Env, s: State, slot: int, tx: nat, rows: seq<Payload>,
      acc: map<RowId, string>)
    requires MayTake(env, s, slot) && acc.Keys <= s.store.payloads.Keys
    requires Within(InsertTx(acc, slot, tx, rows), SlotTable(env, slot))
    ensures var o := InsertPayloads(env, s, slot, tx, rows);
      && MayTake(env, o.s, slot)
      && (o.Next? ==> InsertTx(acc, slot, tx, rows).Keys <= o.s.store.payloads.Keys)
    decreases |rows|
  {
    if rows != [] {
      var acc' := InsertIfAbsent(acc, RowId(slot, tx, rows[0].log), rows[0].body);
      InsertTxGrows(acc', slot, tx, rows[1..]);
      InsertPayloadKeeps(env, s, slot, tx, rows[0], acc);
      var o := InsertPayload(env, s, slot, tx, rows[0]);
      if o.Next? { InsertPayloadsKeeps(env, o.s, slot, tx, rows[1..], acc'); }
    }
  }

  lemma MayTakeKept(env: Env, s: State, t: State, slot: int)
    requires MayTake(env, s, slot) && Good(env, t) && After(s, t) && t.mem == s.mem && t.discoveries == s.discoveries
    ensures MayTake(env, t, slot)
  {
    SettledGrows(env, s, t);
  }

  lemma {:induction false} IngestBlockKeeps(env: Env, s: State, slot: int, tx: nat, acc: map<RowId, string>)
    requires MayTake(env, s, slot) && acc.Keys <= s.store.payloads.Keys
    requires InsertBlock(acc, slot, env.block(slot), tx) == SlotTable(env, slot) && RefusedTo(env, s.store, slot, tx)
    ensures var o := IngestBlock(env, s, slot, tx);
      && MayTake(env, o.s, slot)
      && (o.Next? ==> Settled(env, o.s.store, slot))
    decreases |env.block(slot)| - tx
  {
    var txs := env.block(slot);
    if tx < |txs| {
      var acc' := InsertTx(acc, slot, tx, txs[tx].payloads);
      InsertBlockGrows(acc', slot, txs, tx + 1);
      InsertPayloadsKeeps(env, s, slot, tx, txs[tx].payloads, acc);
      var o1 := InsertPayloads(env, s, slot, tx, txs[tx].payloads);
      if o1.Next? {
        var o2 := CaptureMetadata(env, o1.s);
        MayTakeKept(env, o1.s, o2.s, slot);
        if o2.Next? {
          var o3 := InsertParseRefusals(env, o2.s, slot, tx, txs[tx].refusals);
          MayTakeKept(env, o2.s, o3.s, slot);
          if o3.Next? {
            var o4 := Project(env, o3.s, txs[tx].payloads);
            MayTakeKept(env, o3.s, o4.s, slot);
            if o4.Next? { IngestBlockKeeps(env, o4.s, slot, tx + 1, acc'); }
          }
        }
      }
    }
  }

  // ---------------------------------------------------------------- discovered slots

  function Advance(env: Env, s: State, slot: int): (o: Out<()>)
    ensures Consumes(s, o.s) && o.s.discoveries == s.discoveries
    ensures o.s.mem == s.mem.(last := slot, incident := None)
    ensures o.Next? ==> o.s.store == s.store.(journal := s.store.journal + [CursorOf(o.s.mem)])
  {
    PersistCursor(env, s.(mem := s.mem.(last := slot, incident := None)))
  }

  function IngestDiscoveredSlot(env: Env, s: State, slot: int): (o: Out<()>)
    ensures Consumes(s, o.s) && o.s.discoveries == s.discoveries
    ensures o.s.mem == s.mem || o.s.mem == s.mem.(last := slot, incident := None)
    ensures o.Next? ==> o.s.mem.last == slot
  {
    var (s1, a) :- Call(env, s);
    var (s2, _) :- if slot in a.gone then InsertRefusal(env, s1, MissingBlock(slot)) else IngestBlock(env, s1, slot, 0);
    Advance(env, s2, slot)
  }

  lemma AdvanceKeeps(env: Env, s: State, slot: int)
    requires MayTake(env, s, slot) && Settled(env, s.store, slot) && !s.mem.halted
    ensures Good(env, Advance(env, s, slot).s)
  {
    var s1 := s.(mem := s.mem.(last := slot, incident := None));
    forall x | env.Relevant(x) && env.startSlot <= x <= slot ensures Accounted(env, s1.store, s1.discoveries, x) {}
    assert Good(env, s1);
  }

  /** Rows first, watermark second: a slot is settled before the watermark reaches it. */
  lemma IngestDiscoveredSlotKeeps(env: Env, s: State, slot: int)
    requires MayTake(env, s, slot) && !s.mem.halted
    ensures Good(env, IngestDiscoveredSlot(env, s, slot).s)
  {
    var o1 := Call(env, s);
    if o1.Next? {
      MayTakeKept(env, s, o1.s, slot);
      if slot in o1.v.gone {
        var o2 := InsertRefusal(env, o1.s, MissingBlock(slot));
        MayTakeKept(env, o1.s, o2.s, slot);
        if o2.Next? { AdvanceKeeps(env, o2.s, slot); }
      } else {
        var o2 := IngestBlock(env, o1.s, slot, 0);
        IngestBlockKeeps(env, o1.s, slot, 0, map[]);
        if o2.Next? { AdvanceKeeps(env, o2.s, slot); }
      }
    }
  }

  function SetLag(s: State, lag: int): State { s.(mem := s.mem.(lag := lag)) }

  lemma AscendingCons(xs: seq<int>, r: seq<int>)
    requires xs != [] && (forall x :: x in r ==> x in xs[1..])
    ensures Ascending(xs) ==> Ascending(xs[1..]) && (Ascending(r) ==> Ascending([xs[0]] + r))
  {
    if Ascending(xs) && Ascending(r) {
      forall j | 0 <= j < |r| ensures xs[0] < r[j] { assert r[j] in r; }
    }
  }

  /** The slots above a watermark. */
  function Above(slots: seq<int>, watermark: int): (r: seq<int>)
    ensures forall x :: x in r <==> x in slots && watermark < x
    ensures Ascending(slots) ==> Ascending(r)
  {
    if slots == [] then []
    else if watermark < slots[0] then
      AscendingCons(slots, Above(slots[1..], watermark));
      [slots[0]] + Above(slots[1..], watermark)
    else Above(slots[1..], watermark)
  }

  /** Oldest pending slot that is already outside the lag window, if any. */
  function PendingBeyondWindow(env: Env, s: State, slots: seq<int>, head: int): Option<int> {
    var pending := Above(slots, s.mem.last);
    if pending != [] && pending[0] < head - env.maxLagSlots then Some(pending[0]) else None
  }

  function TakeSlots(env: Env, s: State, slots: seq<int>, firstAvailable: int): (o: Out<bool>)
    ensures Consumes(s, o.s) && o.s.discoveries == s.discoveries
    ensures o.s.mem.bootstrap == s.mem.bootstrap
    ensures Good(env, s) && Pending(env, s.discoveries, s.mem.last, slots) ==> Good(env, o.s)
    ensures o.Next? && o.v ==> !o.s.mem.halted
    ensures HaltNamed(s) ==> HaltNamed(o.s)
    ensures StoreErrorsPlain(s.script) && HaltPermanent(s) && !s.mem.halted ==> HaltPermanent(o.s)
    decreases |slots|
  {
    if slots == [] then Next(s, !s.mem.halted)
    else if s.mem.halted then Next(s, false)
    else if slots[0] < firstAvailable then
      var (s1, _) :- RecordIncident(env, s, StartupRetentionUnavailable, Some(slots[0]));
      Next(s1, false)
    else if slots[0] <= s.mem.last then
      PendingRest(env, s, slots);
      TakeSlots(env, s, slots[1..], firstAvailable)
    else
      PendingMayTake(env, s, slots);
      match IngestDiscoveredSlot(env, s, slots[0])
      case Next(s1, _) => TakeSlots(env, s1, slots[1..], firstAvailable)
      case Fail(s1, why) =>
        var (s2, _) :- Rescue(env, s1, why);
        Next(s2, false)
  }

  lemma PendingRest(env: Env, s: State, slots: seq<int>)
    requires slots != []
    ensures Pending(env, s.discoveries, s.mem.last, slots) && slots[0] <= s.mem.last ==>
      Pending(env, s.discoveries, s.mem.last, slots[1..])
  {
    assert forall x :: x in slots <==> x == slots[0] || x in slots[1..];
    if Pending(env, s.discoveries, s.mem.last, slots) && slots[0] <= s.mem.last {
      forall x, y | y in slots[1..] && env.Relevant(x) && env.startSlot <= x <= y && s.mem.last < x
        ensures x in slots[1..] || Missed(env, s.discoveries, x)
      {
        assert y in slots; assert x in slots || Missed(env, s.discoveries, x);
      }
    }
  }

  lemma PendingMayTake(env: Env, s: State, slots: seq<int>)
    requires slots != [] && s.mem.last < slots[0] && !s.mem.halted
    ensures Good(env, s) && Pending(env, s.discoveries, s.mem.last, slots) ==>
      && MayTake(env, s, slots[0]) && Pending(env, s.discoveries, slots[0], slots[1..])
      && Good(env, IngestDiscoveredSlot(env, s, slots[0]).s)
  {
    if Good(env, s) && Pending(env, s.discoveries, s.mem.last, slots) {
      assert forall x :: x in slots <==> x == slots[0] || x in slots[1..];
      forall x, y | y in slots[1..] && env.Relevant(x) && env.startSlot <= x <= y && slots[0] < x
        ensures x in slots[1..] || Missed(env, s.discoveries, x)
      {
        assert y in slots; assert x in slots || Missed(env, s.discoveries, x);
      }
      assert slots[0] in slots;
      forall x | env.Relevant(x) && env.startSlot <= x < slots[0]
        ensures x <= s.mem.last || Missed(env, s.discoveries, x)
      {
        if s.mem.last < x && x in slots { assert false; }
      }
      IngestDiscoveredSlotKeeps(env, s, slots[0]);
    }
  }

  function ProcessSlotList(env: Env, s: State, slots: seq<int>, head: int): (o: Out<bool>)
    ensures Consumes(s, o.s) && o.s.discoveries == s.discoveries
    ensures o.s.mem.bootstrap == s.mem.bootstrap
    ensures Good(env, s) && Pending(env, s.discoveries, s.mem.last, slots) ==> Good(env, o.s)
    ensures o.Next? && o.v ==> !o.s.mem.halted
    ensures HaltNamed(s) ==> HaltNamed(o.s)
    ensures StoreErrorsPlain(s.script) && HaltPermanent(s) && !s.mem.halted ==> HaltPermanent(o.s)
  {
    var beyond := PendingBeyondWindow(env, s, slots, head);
    if !s.mem.bootstrap && beyond.Some? then
      var (s1, _) :- RecordIncident(env, s, CatchupWindowExceeded, beyond);
      Next(SetLag(s1, head - beyond.value), false)
    else
      match Call(env, s)
      case Next(s1, a) => TakeSlots(env, s1, slots, a.firstAvailable)
      case Fail(s1, why) =>
        var (s2, _) :- Rescue(env, s1, why);
        Next(s2, false)
  }
}
