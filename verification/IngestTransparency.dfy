/**
 Crash and retry transparency: what the payload table holds after any run, and on what it depends.
 */
module IngestTransparency {
  import opened Common
  import opened Ingest
  import opened IngestSlots
  import opened IngestReplay
  import opened IngestDiscovery
  import opened IngestCatchUp
  import opened IngestRuns
  import opened IngestHistory

  ghost predicate Complete(env: Env, st: Store, slot: int) {
    SlotTable(env, slot).Keys <= st.payloads.Keys
  }

  /** Some but not all rows of the slot are stored. */
  ghost predicate PartWay(env: Env, st: Store, slot: int) {
    !Complete(env, st, slot) && exists k :: k in st.payloads && k.slot == slot
  }

  ghost predicate OnePartWay(env: Env, st: Store) {
    forall x, y :: PartWay(env, st, x) && PartWay(env, st, y) ==> x == y
  }

  ghost predicate ServesAt(script: seq<Reply>, i: nat, slot: int) {
    i < |script| && script[i].Ok? && slot !in script[i].a.gone
  }

  ghost predicate MissesAt(script: seq<Reply>, i: nat, slot: int) {
    i < |script| && script[i].Ok? && slot in script[i].a.gone
  }

  /** getBlock serves the slot and reports it missing later. */
  ghost predicate Withdraws(script: seq<Reply>, slot: int) {
    exists i, j :: 0 <= i < j && ServesAt(script, i, slot) && MissesAt(script, j, slot)
  }

  /** getBlock reports the slot missing and serves it later. */
  ghost predicate Restores(script: seq<Reply>, slot: int) {
    exists i, j :: 0 <= i < j && MissesAt(script, i, slot) && ServesAt(script, j, slot)
  }

  ghost predicate SteadyBut(script: seq<Reply>, withdrawn: set<int>, restored: set<int>) {
    forall x :: (Withdraws(script, x) ==> x in withdrawn) && (Restores(script, x) ==> x in restored)
  }

  /** The slot was served at one time and missing at another. */
  ghost predicate Unsteady(script: seq<Reply>, slot: int) {
    Served(script, slot) && Denied(script, slot)
  }

  lemma UnsteadyIff(script: seq<Reply>, x: int)
    ensures Unsteady(script, x) <==> Withdraws(script, x) || Restores(script, x)
  {
    if Unsteady(script, x) {
      var r :| r in script && r.Ok? && x !in r.a.gone;
      var q :| q in script && q.Ok? && x in q.a.gone;
      var i :| 0 <= i < |script| && script[i] == r;
      var j :| 0 <= j < |script| && script[j] == q;
      assert ServesAt(script, i, x) && MissesAt(script, j, x);
    }
  }

  /** A slot that has rows and a missing block on record was served and was missing, in any run. */
  lemma RowsAndRefusal(env: Env, script: seq<Reply>, k: RowId)
    requires k in Observed(env, script).store.payloads && MissingBlock(k.slot) in Observed(env, script).store.refusals
    ensures Unsteady(script, k.slot)
  {
    ServiceGrows(env, Outset(env, script));
  }

  lemma ObservedDurable(env: Env, script: seq<Reply>)
    requires Faithful(script)
    ensures Durable(env, Observed(env, script).store, Observed(env, script).discoveries)
  {
    ServiceKeeps(env, Outset(env, script));
  }

  /** Below a slot with rows, a part-way slot has its missing block on record or was a hole. */
  lemma PartWayBelow(env: Env, st: Store, ds: seq<Discovery>, x: int, y: int) returns (k: RowId)
    requires Durable(env, st, ds) && PartWay(env, st, x) && PartWay(env, st, y) && x < y
    ensures k in st.payloads && k.slot == x
    ensures MissingBlock(x) in st.refusals || Missed(env, ds, x)
  {
    k :| k in st.payloads && k.slot == x;
    var j :| j in st.payloads && j.slot == y;
    assert env.Relevant(k.slot) && env.startSlot <= k.slot;
    assert x < j.slot && Accounted(env, st, ds, x);
  }

  /**
   In every run, of two part-way slots the older one got both answers from getBlock (in either order), or
   was a hole of a discovery.
   */
  lemma OlderPartWay(env: Env, script: seq<Reply>, x: int, y: int)
    requires Faithful(script) && x < y
    requires PartWay(env, Observed(env, script).store, x) && PartWay(env, Observed(env, script).store, y)
    ensures
      || (MissingBlock(x) in Observed(env, script).store.refusals && Unsteady(script, x))
      || Missed(env, Observed(env, script).discoveries, x)
  {
    ObservedDurable(env, script);
    var k := PartWayBelow(env, Observed(env, script).store, Observed(env, script).discoveries, x, y);
    if MissingBlock(x) in Observed(env, script).store.refusals { RowsAndRefusal(env, script, k); }
  }

  /** With steady answers and no hole at most one slot is part-way. */
  lemma SteadyRunsHaveOne(env: Env, script: seq<Reply>)
    requires SoundListing(env, script) && SteadyBut(script, {}, {})
    ensures OnePartWay(env, Observed(env, script).store)
  {
    var t := Observed(env, script);
    NoneMissed(env, t.discoveries);
    forall x, y | PartWay(env, t.store, x) && PartWay(env, t.store, y) ensures x == y {
      UnsteadyIff(script, x);
      UnsteadyIff(script, y);
      if x < y { OlderPartWay(env, script, x, y); }
      if y < x { OlderPartWay(env, script, y, x); }
    }
  }

  /**
   After any interleaving of incidents, errors, crashes and restarts the payload table is one uninterrupted
   pass over the complete slots plus some rows of part-way slots; all of these but the newest got both answers
   from getBlock or were holes of a discovery.
   */
  lemma CrashTransparency(env: Env, script: seq<Reply>) returns (slots: seq<int>, rest: set<int>)
    requires Faithful(script)
    ensures var t := Observed(env, script);
      && (forall x :: x in slots ==> Complete(env, t.store, x))
      && (forall x :: x in rest ==> PartWay(env, t.store, x) && Within(RowsOf(t.store, {x}), SlotTable(env, x)))
      && (forall x, y :: x in rest && y in rest && x < y ==> Unsteady(script, x) || Missed(env, t.discoveries, x))
      && t.store.payloads == Replay(env, slots) + RowsOf(t.store, rest)
  {
    ServiceKeeps(env, Outset(env, script));
    slots, rest := TableSplits(env, Observed(env, script).store);
    forall x, y | x in rest && y in rest && x < y
      ensures Unsteady(script, x) || Missed(env, Observed(env, script).discoveries, x)
    {
      OlderPartWay(env, script, x, y);
    }
  }

  lemma TableSplits(env: Env, st: Store) returns (slots: seq<int>, rest: set<int>)
    requires Sound(env, st)
    ensures forall x :: x in slots ==> Complete(env, st, x)
    ensures forall x :: x in rest ==> PartWay(env, st, x) && Within(RowsOf(st, {x}), SlotTable(env, x))
    ensures st.payloads == Replay(env, slots) + RowsOf(st, rest)
  {
    var stored := set k | k in st.payloads :: k.slot;
    var complete := set x | x in stored && Complete(env, st, x);
    rest := stored - complete;
    slots := Enumerated(complete);
    forall x | x in slots ensures Complete(env, st, x) { assert x in ToSet(slots); }
    ReplayIsStored(env, st, slots);
    SplitRows(st, ToSet(slots), rest);
    forall x | x in rest ensures PartWay(env, st, x) && Within(RowsOf(st, {x}), SlotTable(env, x)) {
      RestPartWay(env, st, x);
    }
  }

  lemma RestPartWay(env: Env, st: Store, x: int)
    requires Sound(env, st) && !Complete(env, st, x) && exists k :: k in st.payloads && k.slot == x
    ensures PartWay(env, st, x) && Within(RowsOf(st, {x}), SlotTable(env, x))
  {
  }

  lemma SplitRows(st: Store, a: set<int>, b: set<int>)
    requires forall k :: k in st.payloads ==> k.slot in a || k.slot in b
    ensures st.payloads == RowsOf(st, a) + RowsOf(st, b)
  {
  }
}
