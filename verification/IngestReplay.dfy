/**
 Insert-if-absent (svm-ingest/svm-raw-writer.ts): ingesting a slot again completes it, and what is stored of
 complete slots is what one uninterrupted pass over them stores.
 */
module IngestReplay {
  import opened Common
  import opened Ingest
  import opened IngestSlots

  // ---------------------------------------------------------------- re-ingesting

  lemma {:induction false} InsertTxIs(t: map<RowId, string>, u: map<RowId, string>, slot: int, tx: nat,
      rows: seq<Payload>)
    requires forall k :: k in u ==> k.slot == slot
    requires Compatible(t, u, InsertTx(u, slot, tx, rows))
    ensures InsertTx(t + u, slot, tx, rows) == t + InsertTx(u, slot, tx, rows)
    ensures forall k :: k in InsertTx(u, slot, tx, rows) ==> k.slot == slot
    decreases |rows|
  {
    if rows == [] {
    } else {
      var k := RowId(slot, tx, rows[0].log);
      var u' := InsertIfAbsent(u, k, rows[0].body);
      InsertTxGrows(u', slot, tx, rows[1..]);
      assert InsertIfAbsent(t + u, k, rows[0].body) == t + u';
      InsertTxIs(t, u', slot, tx, rows[1..]);
    }
  }

  /** What `t` holds under the ids of `full` is what `full` holds there. */
  ghost predicate Compatible(t: map<RowId, string>, u: map<RowId, string>, full: map<RowId, string>) {
    Within(u, full) && forall k :: k in t && k in full ==> t[k] == full[k]
  }

  lemma {:induction false} InsertBlockIs(t: map<RowId, string>, u: map<RowId, string>, slot: int, txs: seq<ParsedTx>,
      tx: nat)
    requires forall k :: k in u ==> k.slot == slot
    requires Compatible(t, u, InsertBlock(u, slot, txs, tx))
    ensures InsertBlock(t + u, slot, txs, tx) == t + InsertBlock(u, slot, txs, tx)
    ensures forall k :: k in InsertBlock(u, slot, txs, tx) ==> k.slot == slot
    decreases |txs| - tx
  {
    if tx < |txs| {
      var u' := InsertTx(u, slot, tx, txs[tx].payloads);
      InsertTxGrows(u, slot, tx, txs[tx].payloads);
      InsertBlockGrows(u', slot, txs, tx + 1);
      InsertTxIs(t, u, slot, tx, txs[tx].payloads);
      InsertBlockIs(t, u', slot, txs, tx + 1);
    }
  }

  /**
   Ingesting a slot into a table that already holds any part of it gives the table with the slot
   complete; ingesting a complete slot again changes nothing.
   */
  lemma ReingestCompletes(env: Env, t: map<RowId, string>, slot: int)
    requires forall k :: k in t && k in SlotTable(env, slot) ==> t[k] == SlotTable(env, slot)[k]
    ensures InsertBlock(t, slot, env.block(slot), 0) == t + SlotTable(env, slot)
    ensures SlotTable(env, slot).Keys <= t.Keys ==> InsertBlock(t, slot, env.block(slot), 0) == t
    ensures forall k :: k in SlotTable(env, slot) ==> k.slot == slot
  {
    InsertBlockIs(t, map[], slot, env.block(slot), 0);
    assert t + map[] == t;
  }

  // ---------------------------------------------------------------- replay

  /** Uninterrupted ingestion of the listed slots into an empty table. */
  function Replay(env: Env, slots: seq<int>): map<RowId, string> {
    if slots == [] then map[]
    else InsertBlock(Replay(env, slots[..|slots| - 1]), slots[|slots| - 1], env.block(slots[|slots| - 1]), 0)
  }

  /** The stored rows of the listed slots. */
  function RowsOf(st: Store, slots: set<int>): map<RowId, string> {
    map k | k in st.payloads && k.slot in slots :: st.payloads[k]
  }

  lemma {:induction false} ReplayIsStored(env: Env, st: Store, slots: seq<int>)
    requires Sound(env, st)
    requires forall x :: x in slots ==> SlotTable(env, x).Keys <= st.payloads.Keys
    ensures RowsOf(st, ToSet(slots)) == Replay(env, slots)
  {
    if slots == [] {
    } else {
      var init, last := slots[..|slots| - 1], slots[|slots| - 1];
      assert slots == init + [last];
      ReplayIsStored(env, st, init);
      assert ToSet(slots) == ToSet(init) + {last};
      AddSlot(env, st, ToSet(init), last);
    }
  }

  lemma AddSlot(env: Env, st: Store, slots: set<int>, last: int)
    requires Sound(env, st)
    requires SlotTable(env, last).Keys <= st.payloads.Keys
    ensures InsertBlock(RowsOf(st, slots), last, env.block(last), 0) == RowsOf(st, slots + {last})
  {
    assert forall k :: k in SlotTable(env, last) ==> k in st.payloads;
    InsertBlockIs(map[], map[], last, env.block(last), 0);
    ReingestCompletes(env, RowsOf(st, slots), last);
    RowsOfLast(env, st, slots, last);
  }

  lemma RowKeys(env: Env, st: Store, slots: set<int>, last: int, k: RowId)
    requires Sound(env, st) && SlotTable(env, last).Keys <= st.payloads.Keys
    requires forall m :: m in SlotTable(env, last) ==> m.slot == last
    ensures k in RowsOf(st, slots + {last}) <==> k in RowsOf(st, slots) || k in SlotTable(env, last)
  {
    assert k in SlotTable(env, last).Keys ==> k in st.payloads.Keys;
  }

  lemma SameRows(a: map<RowId, string>, b: map<RowId, string>, t: map<RowId, string>)
    requires forall k :: k in a <==> k in b || k in t
    requires forall k :: k in b ==> k in a && a[k] == b[k]
    requires forall k :: k in t ==> k in a && a[k] == t[k]
    ensures a == b + t
  {
  }

  lemma RowsOfLast(env: Env, st: Store, slots: set<int>, last: int)
    requires Sound(env, st)
    requires SlotTable(env, last).Keys <= st.payloads.Keys
    requires forall k :: k in SlotTable(env, last) ==> k.slot == last
    ensures RowsOf(st, slots + {last}) == RowsOf(st, slots) + SlotTable(env, last)
  {
    var a, t := RowsOf(st, slots + {last}), SlotTable(env, last);
    forall k ensures k in a <==> k in RowsOf(st, slots) || k in t { RowKeys(env, st, slots, last, k); }
    SameRows(a, RowsOf(st, slots), t);
  }
}
