/**
 Runs that end with two slots part-way: a block is served and missing later, or missing and served later, or
 a discovery has a gap. And that there is no other way.
 */
module IngestHalves {
  import opened Common
  import opened Ingest
  import opened IngestSlots
  import opened IngestDiscovery
  import opened IngestCatchUp
  import opened IngestRuns
  import opened IngestTransparency
  import opened IngestWitnesses

  // ---------------------------------------------------------------- half a slot

  function TwoRows(): seq<ParsedTx> { [ParsedTx([Payload(0, "a"), Payload(1, "b")], [])] }

  /** The store with the first row of the slot. */
  function WithRow(st: Store, slot: int): Store {
    st.(payloads := InsertIfAbsent(st.payloads, RowId(slot, 0, 0), "a"))
  }

  /** A reply by its place in the script. */
  function Nth(script: seq<Reply>, i: nat): Reply
    requires i < |script|
  {
    script[i]
  }

  /** The same reply from one place up to another. */
  ghost predicate Same(script: seq<Reply>, r: Reply, from: nat, to: nat) {
    to <= |script| && forall i :: from <= i < to ==> Nth(script, i) == r
  }

  lemma SameDrop(script: seq<Reply>, r: Reply, from: nat, to: nat, k: nat)
    requires Same(script, r, from, to) && k <= from && k <= |script|
    ensures from < to ==> Same(script[k..], r, from - k, to - k)
  {
    if from < to {
      forall i | from - k <= i < to - k ensures Nth(script[k..], i) == r { assert Nth(script, i + k) == r; }
    }
  }

  lemma HalfBlock(env: Env, s: State, slot: int, t: State)
    requires env.block(slot) == TwoRows() && s.script != [] && s.script[0].Ok?
    requires t == s.(store := WithRow(s.store, slot), script := t.script)
    requires if |s.script| == 1 then t.script == [] else s.script[1] == Crash(false) && t.script == s.script[2..]
    ensures IngestBlock(env, s, slot, 0) == Fail(t, Stopped)
  {
    var rows := [Payload(0, "a"), Payload(1, "b")];
    assert rows[1..] == [Payload(1, "b")];
    var s1 := s.(store := t.store, script := s.script[1..]);
    assert InsertPayload(env, s, slot, 0, rows[0]) == Next(s1, ());
    if |s.script| > 1 { assert s1.script[1..] == s.script[2..]; }
    assert InsertPayload(env, s1, slot, 0, rows[1]) == Fail(t, Stopped);
    assert InsertPayloads(env, s, slot, 0, rows) == Fail(t, Stopped);
  }

  /** The first slot of the list is served, and only its first row is stored. */
  lemma HalfTaken(env: Env, s: State, slots: seq<int>, first: int, t: State)
    requires slots != [] && first <= slots[0] && s.mem.last < slots[0] && !s.mem.halted
    requires env.block(slots[0]) == TwoRows()
    requires |s.script| >= 2 && s.script[0].Ok? && slots[0] !in s.script[0].a.gone && s.script[1].Ok?
    requires t == s.(store := WithRow(s.store, slots[0]), script := t.script)
    requires if |s.script| == 2 then t.script == [] else s.script[2] == Crash(false) && t.script == s.script[3..]
    ensures TakeSlots(env, s, slots, first) == Fail(t, Stopped)
  {
    var s1 := s.(script := s.script[1..]);
    assert Call(env, s) == Next(s1, s.script[0].a);
    if |s.script| > 2 { assert s1.script[2..] == s.script[3..]; }
    HalfBlock(env, s1, slots[0], t);
  }

  /** A pass whose first pending slot is half stored. */
  lemma HalfProcessed(env: Env, s: State, slots: seq<int>, rest: seq<int>, head: int, r: Reply, t: State)
    requires s.mem.bootstrap && !s.mem.halted && r.Ok? && |s.script| >= 3 && Same(s.script, r, 0, 3)
    requires rest != [] && r.a.firstAvailable <= rest[0] && s.mem.last < rest[0] && env.block(rest[0]) == TwoRows()
    requires rest[0] !in r.a.gone
    requires slots == rest || (|slots| > 1 && slots[1..] == rest && r.a.firstAvailable <= slots[0] <= s.mem.last)
    requires t == s.(store := WithRow(s.store, rest[0]), script := t.script)
    requires if |s.script| == 3 then t.script == [] else Nth(s.script, 3) == Crash(false) && t.script == s.script[4..]
    ensures ProcessSlotList(env, s, slots, head) == Fail(t, Stopped)
  {
    var s1, first := s.(script := s.script[1..]), r.a.firstAvailable;
    assert Nth(s.script, 0) == Nth(s.script, 1) == Nth(s.script, 2) == r;
    if |s.script| > 3 { assert s1.script[3..] == s.script[4..]; }
    HalfTaken(env, s1, rest, first, t);
    assert TakeSlots(env, s1, slots, first) == Fail(t, Stopped);
    ProcessBegins(env, s, slots, head, first, s1, Fail(t, Stopped));
  }

  lemma OneOfTwo(env: Env, st: Store, slot: int)
    requires env.block(slot) == TwoRows() && RowId(slot, 0, 0) in st.payloads && RowId(slot, 0, 1) !in st.payloads
    ensures PartWay(env, st, slot)
  {
    var rows := [Payload(0, "a"), Payload(1, "b")];
    var t1 := map[RowId(slot, 0, 0) := "a"];
    var t2 := t1[RowId(slot, 0, 1) := "b"];
    assert rows[1..] == [Payload(1, "b")] && rows[1..][1..] == [];
    assert InsertTx(t1, slot, 0, rows[1..]) == InsertTx(t2, slot, 0, []) == t2;
    assert InsertTx(map[], slot, 0, rows) == t2;
    assert InsertBlock(map[], slot, TwoRows(), 0) == InsertBlock(t2, slot, TwoRows(), 1) == t2;
    assert RowId(slot, 0, 1) in SlotTable(env, slot);
  }

  function Rows(slots: seq<int>): map<RowId, string> {
    if slots == [] then map[] else InsertIfAbsent(Rows(slots[..|slots| - 1]), RowId(slots[|slots| - 1], 0, 0), "a")
  }

  lemma RowsOfTwo(x: int, y: int)
    ensures Rows([]) == map[] && Rows([x]) == InsertIfAbsent(map[], RowId(x, 0, 0), "a")
    ensures Rows([x, y]) == InsertIfAbsent(Rows([x]), RowId(y, 0, 0), "a")
  {
    assert [x][..0] == [] && [x, y][..1] == [x];
  }

  lemma BothHalf(env: Env, st: Store, x: int, y: int)
    requires env.block(x) == env.block(y) == TwoRows() && st.payloads == Rows([x, y])
    ensures PartWay(env, st, x) && PartWay(env, st, y)
  {
    RowsOfTwo(x, y);
    OneOfTwo(env, st, x);
    OneOfTwo(env, st, y);
  }

  // ---------------------------------------------------------------- passes and lives

  /** One program, one reply after another: up to the slots listed. */
  lemma OneProgramPass(env: Env, s: State, r: Reply, d: Discovery, s3: State, t: State, why: Why)
    requires |env.programs| == 1 && r.Ok? && |s.script| >= 3 && Same(s.script, r, 0, 3)
    requires r.a.firstAvailable <= env.startSlot && r.a.floors
    requires d == Discovery(None, [r.a.tip], Listed(env, [r.a.tip]), true)
    requires s3 == State(s.store, Forgive(s.mem), s.script[3..], s.discoveries + [d])
    requires ProcessSlotList(env, s3, d.slots, r.a.head) == Fail(t, why)
    ensures CatchUpToHead(env, s) == Fail(t, why)
  {
    var s2 := s.(mem := Forgive(s.mem), script := s.script[2..]);
    assert Nth(s.script, 0) == Nth(s.script, 1) == Nth(s.script, 2) == r;
    assert s2.script[1..] == s3.script;
    PassBegins(env, s, r.a.head, s2);
    OnePolled(env, s2);
    PolledIsEnumerated(env, s2, s2.(script := s3.script), [r.a.tip], r.a.head);
    PassStops(env, s2, s3, d, t, why, r.a.head);
  }

  /** A process that starts on an empty store, and ends in its first pass. */
  lemma FreshLife(env: Env, s: State, s1: State, t: State)
    requires s == Outset(env, s.script) && |s.script| >= 2 && s.script[0].Ok? && s.script[1].Ok?
    requires s1 == State(Store(map[], {}, [Cursor(env.startSlot - 1, true, None)]), FreshMem(env), s.script[2..], [])
    requires CatchUpToHead(env, s1) == Fail(t, Stopped)
    ensures Lifetime(env, s) == t
  {
    FirstInit(env, s);
    OneLifetime(env, s, s1, t);
  }

  lemma RestartedLife(env: Env, s: State, incident: Option<Incident>, s1: State, t: State)
    requires s.script != [] && s.script[0].Ok? && (incident.None? || IsRetriable(incident))
    requires s.store.GetCursor() == Some(Cursor(env.startSlot - 1, true, incident))
    requires s1 == s.(mem := FreshMem(env).(incident := incident), script := s.script[1..])
    requires CatchUpToHead(env, s1) == Fail(t, Stopped)
    ensures Lifetime(env, s) == t
  {
    RestartBegins(env, s, incident, s1);
    OneLifetime(env, s, s1, t);
  }

  lemma TwoLives(env: Env, s: State, s1: State, t: State)
    requires s.script != [] && s1.script != [] && Lifetime(env, s) == s1 && Lifetime(env, s1) == t && t.script == []
    ensures Service(env, s) == t
  {
    ServiceOnce(env, s1);
  }

  // ---------------------------------------------------------------- two slots of one program

  /** A program signs in two slots running, each with two rows. */
  ghost predicate TwoSlotsOf(env: Env, x: int) {
    && env.startSlot == x && |env.programs| == 1
    && (forall y :: env.programs[0](y) <==> y == x || y == x + 1)
    && env.block(x) == env.block(x + 1) == TwoRows()
  }

  function TwoSlotsEnv(x: int): Env {
    Env(x, 100, false, _ => TwoRows(), [(y: int) => y == x || y == x + 1])
  }

  function Both(x: int): Discovery { Discovery(None, [x + 1], [x, x + 1], true) }

  /** Everything answered; the block of x is served or missing. */
  function Answered2(x: int, gone: set<int>): Reply { Ok(Answer(x + 1, x, gone, x + 1, true)) }

  lemma TwoMerged(x: int)
    ensures Merge([], [x, x + 1]) == [x, x + 1]
  {
    assert [x, x + 1][1..] == [x + 1] && [x + 1][1..] == [] && [x][1..] == [];
    assert InsertSlot([], x) == [x];
    assert InsertSlot([x], x + 1) == [x, x + 1];
    assert Merge([x], [x + 1]) == Merge([x, x + 1], []);
  }

  lemma TwoListed(env: Env, x: int)
    requires TwoSlotsOf(env, x)
    ensures Listed(env, [x + 1]) == [x, x + 1]
  {
    assert [x + 1][..0] == [];
    assert SlotsOf(env, 0, x - 1) == [];
    assert SlotsOf(env, 0, x) == [x];
    assert SlotsOf(env, 0, x + 1) == [x, x + 1];
    TwoMerged(x);
    assert Listed(env, []) == [];
  }

  lemma BothGapFree(env: Env, x: int)
    ensures GapFree(env, Both(x))
  {
  }

  /** A pass over the two slots, up to taking them. */
  lemma TwoSlotsPass(env: Env, x: int, s: State, gone: set<int>, s3: State, t: State, why: Why)
    requires TwoSlotsOf(env, x) && |s.script| >= 3 && Same(s.script, Answered2(x, gone), 0, 3)
    requires s3 == State(s.store, Forgive(s.mem), s.script[3..], s.discoveries + [Both(x)])
    requires ProcessSlotList(env, s3, [x, x + 1], x + 1) == Fail(t, why)
    ensures CatchUpToHead(env, s) == Fail(t, why)
  {
    TwoListed(env, x);
    OneProgramPass(env, s, Answered2(x, gone), Both(x), s3, t, why);
  }

  /** A pass that stores half of x and crashes or is left waiting. */
  lemma HalfOfFirst(env: Env, x: int, s: State, gone: set<int>, t: State)
    requires TwoSlotsOf(env, x) && x !in gone && |s.script| >= 6 && Same(s.script, Answered2(x, gone), 0, 6)
    requires Forgive(s.mem) == FreshMem(env)
    requires t == State(WithRow(s.store, x), FreshMem(env), t.script, s.discoveries + [Both(x)])
    requires if |s.script| == 6 then t.script == [] else Nth(s.script, 6) == Crash(false) && t.script == s.script[7..]
    ensures CatchUpToHead(env, s) == Fail(t, Stopped)
  {
    var s3 := State(s.store, Forgive(s.mem), s.script[3..], s.discoveries + [Both(x)]);
    SameDrop(s.script, Answered2(x, gone), 3, 6, 3);
    if |s.script| > 6 { assert s3.script[4..] == s.script[7..] && Nth(s3.script, 3) == Nth(s.script, 6); }
    HalfProcessed(env, s3, [x, x + 1], [x, x + 1], x + 1, Answered2(x, gone), t);
    TwoSlotsPass(env, x, s, gone, s3, t, Stopped);
  }

  // ---------------------------------------------------------------- served, then missing

  /** The first slot of the list is reported missing. */
  lemma MissingTaken(env: Env, s: State, slots: seq<int>, first: int, t: State, o: Out<bool>)
    requires slots != [] && first <= slots[0] && s.mem.last < slots[0] && !s.mem.halted && s.mem.incident == None
    requires |s.script| >= 3 && s.script[0].Ok? && slots[0] in s.script[0].a.gone
    requires s.script[1].Ok? && s.script[2].Ok?
    requires t.store ==
      Store(s.store.payloads, s.store.refusals + {MissingBlock(slots[0])}, s.store.journal + [CursorOf(t.mem)])
    requires t.mem == s.mem.(last := slots[0]) && t.script == s.script[3..] && t.discoveries == s.discoveries
    requires TakeSlots(env, t, slots[1..], first) == o
    ensures TakeSlots(env, s, slots, first) == o
  {
    var s1 := s.(script := s.script[1..]);
    assert Call(env, s) == Next(s1, s.script[0].a);
    assert s1.script[1..] == s.script[2..] && s.script[2..][1..] == t.script;
    assert IngestDiscoveredSlot(env, s, slots[0]) == Next(t, ());
  }

  /** x is missing and passed, and half of x + 1 is stored. */
  lemma MissingThenHalf(env: Env, x: int, s: State, m: Mem, st: Store, t: State)
    requires TwoSlotsOf(env, x) && s.mem == FreshMem(env) && m == s.mem.(last := x)
    requires |s.script| == 6 && Same(s.script, Answered2(x, {x}), 0, 6)
    requires st == Store(s.store.payloads, s.store.refusals + {MissingBlock(x)}, s.store.journal + [CursorOf(m)])
    requires t == State(WithRow(st, x + 1), m, [], s.discoveries)
    ensures ProcessSlotList(env, s, [x, x + 1], x + 1) == Fail(t, Stopped)
  {
    var s1, s2 := s.(script := s.script[1..]), State(st, m, s.script[4..], s.discoveries);
    assert forall i :: 0 <= i < 6 ==> Nth(s.script, i) == s.script[i];
    assert s1.script[3..] == s2.script && [x, x + 1][1..] == [x + 1];
    HalfTaken(env, s2, [x + 1], x, t);
    MissingTaken(env, s1, [x, x + 1], x, s2, Fail(t, Stopped));
    ProcessBegins(env, s, [x, x + 1], x + 1, x, s1, Fail(t, Stopped));
  }

  lemma MissingPass(env: Env, x: int, s: State, m: Mem, st: Store, t: State)
    requires TwoSlotsOf(env, x) && s.mem == FreshMem(env) && m == s.mem.(last := x)
    requires |s.script| == 9 && Same(s.script, Answered2(x, {x}), 0, 9)
    requires st == Store(s.store.payloads, s.store.refusals + {MissingBlock(x)}, s.store.journal + [CursorOf(m)])
    requires t == State(WithRow(st, x + 1), m, [], s.discoveries + [Both(x)])
    ensures CatchUpToHead(env, s) == Fail(t, Stopped)
  {
    var s3 := State(s.store, Forgive(s.mem), s.script[3..], s.discoveries + [Both(x)]);
    SameDrop(s.script, Answered2(x, {x}), 3, 9, 3);
    MissingThenHalf(env, x, s3, m, st, t);
    TwoSlotsPass(env, x, s, {x}, s3, t, Stopped);
  }

  lemma MissingLife(env: Env, x: int, s: State, s1: State, m: Mem, st: Store, t: State)
    requires TwoSlotsOf(env, x) && s.store.GetCursor() == Some(Cursor(env.startSlot - 1, true, None))
    requires |s.script| == 10 && Same(s.script, Answered2(x, {x}), 0, 10) && m == FreshMem(env).(last := x)
    requires s1 == s.(mem := FreshMem(env).(incident := None), script := s.script[1..])
    requires st == Store(s.store.payloads, s.store.refusals + {MissingBlock(x)}, s.store.journal + [CursorOf(m)])
    requires t == State(WithRow(st, x + 1), m, [], s.discoveries + [Both(x)])
    ensures Lifetime(env, s) == t
  {
    SameDrop(s.script, Answered2(x, {x}), 1, 10, 1);
    MissingPass(env, x, s1, m, st, t);
    assert Nth(s.script, 0) == Answered2(x, {x});
    RestartedLife(env, s, None, s1, t);
  }

  lemma HalfLife(env: Env, x: int, s: State, s1: State, t: State)
    requires TwoSlotsOf(env, x) && s == Outset(env, s.script)
    requires |s.script| >= 9 && Same(s.script, Answered2(x, {}), 0, 8) && Nth(s.script, 8) == Crash(false)
    requires s1 == State(Store(map[], {}, [Cursor(env.startSlot - 1, true, None)]), FreshMem(env), s.script[2..], [])
    requires t == State(WithRow(s1.store, x), FreshMem(env), s.script[9..], [] + [Both(x)])
    ensures Lifetime(env, s) == t
  {
    HalfPass(env, x, s.script, s1, t);
    assert Nth(s.script, 0) == Nth(s.script, 1) == Answered2(x, {});
    FreshLife(env, s, s1, t);
  }

  lemma HalfPass(env: Env, x: int, script: seq<Reply>, s1: State, t: State)
    requires TwoSlotsOf(env, x) && s1.mem == FreshMem(env)
    requires |script| >= 9 && Same(script, Answered2(x, {}), 0, 8) && Nth(script, 8) == Crash(false)
    requires s1.script == script[2..]
    requires t == State(WithRow(s1.store, x), FreshMem(env), script[9..], s1.discoveries + [Both(x)])
    ensures CatchUpToHead(env, s1) == Fail(t, Stopped)
  {
    assert Same(script, Answered2(x, {}), 2, 8);
    SameDrop(script, Answered2(x, {}), 2, 8, 2);
    assert Nth(s1.script, 6) == Nth(script, 8) && s1.script[7..] == t.script;
    HalfOfFirst(env, x, s1, {}, t);
  }

  /**
   A block served for its first row and reported missing after a crash: the refusal lets the watermark pass
   the slot, and the next slot is left part-way as well.
   */
  lemma MissingAfterServed(x: int) returns (env: Env, script: seq<Reply>)
    ensures SoundListing(env, script) && SteadyBut(script, {x}, {})
    ensures PartWay(env, Observed(env, script).store, x) && PartWay(env, Observed(env, script).store, x + 1)
  {
    env := TwoSlotsEnv(x);
    script := ServedThenMissing(x);
    MissingAfterServedRun(env, x, script);
  }

  lemma MissingAfterServedRun(env: Env, x: int, script: seq<Reply>)
    requires TwoSlotsOf(env, x) && |script| == 19 && Same(script, Answered2(x, {}), 0, 8)
    requires Nth(script, 8) == Crash(false) && Same(script, Answered2(x, {x}), 9, 19)
    ensures AllGapFree(env, Observed(env, script).discoveries)
    ensures PartWay(env, Observed(env, script).store, x) && PartWay(env, Observed(env, script).store, x + 1)
  {
    var m := FreshMem(env).(last := x);
    var s1 :=
      State(Store(Rows([x]), {}, [Cursor(env.startSlot - 1, true, None)]), FreshMem(env), script[9..], [Both(x)]);
    var st := Store(Rows([x]), {} + {MissingBlock(x)}, s1.store.journal + [CursorOf(m)]);
    var t := State(WithRow(st, x + 1), m, [], [Both(x)] + [Both(x)]);
    RowsOfTwo(x, x + 1);
    MissingAfterServedLives(env, x, script, s1, m, st, t);
    BothHalf(env, t.store, x, x + 1);
    BothGapFree(env, x);
  }

  lemma MissingAfterServedLives(env: Env, x: int, script: seq<Reply>, s1: State, m: Mem, st: Store, t: State)
    requires TwoSlotsOf(env, x) && |script| == 19 && Same(script, Answered2(x, {}), 0, 8)
    requires Nth(script, 8) == Crash(false) && Same(script, Answered2(x, {x}), 9, 19)
    requires s1.mem == FreshMem(env) && s1.script == script[9..] && s1.discoveries == [Both(x)]
    requires s1.store == WithRow(Store(map[], {}, [Cursor(env.startSlot - 1, true, None)]), x) &&
      m == FreshMem(env).(last := x)
    requires st == Store(s1.store.payloads, {} + {MissingBlock(x)}, s1.store.journal + [CursorOf(m)])
    requires t == State(WithRow(st, x + 1), m, [], [Both(x)] + [Both(x)])
    ensures Service(env, Outset(env, script)) == t
  {
    var s := Outset(env, script);
    SameDrop(script, Answered2(x, {x}), 9, 19, 9);
    assert [] + [Both(x)] == [Both(x)];
    HalfLife(env, x, s,
      State(Store(map[], {}, [Cursor(env.startSlot - 1, true, None)]), FreshMem(env), script[2..], []), s1);
    MissingLife(env, x, s1, s1.(mem := FreshMem(env).(incident := None), script := s1.script[1..]), m, st, t);
    TwoLives(env, s, s1, t);
  }

  lemma ServedThenMissing(x: int) returns (script: seq<Reply>)
    ensures |script| == 19 && Faithful(script) && SteadyBut(script, {x}, {})
    ensures Same(script, Answered2(x, {}), 0, 8) && Nth(script, 8) == Crash(false)
    ensures Same(script, Answered2(x, {x}), 9, 19)
  {
    script := seq(19, i => if i == 8 then Crash(false) else Answered2(x, if i < 8 then {} else {x}));
    forall i | 0 <= i < |script| && script[i].Ok?
      ensures script[i].a.head <= x + 1 <= script[i].a.tip && script[i].a.gone == if i < 8 then {} else {x}
    {
      assert script[i] == Answered2(x, if i < 8 then {} else {x});
    }
    HeadsReached(script, x + 1);
  }

  // ---------------------------------------------------------------- missing, then served

  /** The refusal of the missing slot is written, and the write of the watermark throws without effect. */
  lemma MissingThrown(env: Env, s: State, slots: seq<int>, first: int, t: State)
    requires slots != [] && first <= slots[0] && s.mem.last < slots[0] && !s.mem.halted && s.mem.incident == None
    requires |s.script| >= 3 && s.script[0].Ok? && slots[0] in s.script[0].a.gone
    requires s.script[1].Ok? && s.script[2] == Throw(Other, Other, false)
    requires t == State(s.store.(refusals := s.store.refusals + {MissingBlock(slots[0])}), s.mem.(last := slots[0]),
                        s.script[3..], s.discoveries)
    ensures TakeSlots(env, s, slots, first) == Fail(t, Thrown(Other))
  {
    var s1 := s.(script := s.script[1..]);
    assert Call(env, s) == Next(s1, s.script[0].a);
    assert s1.script[1..] == s.script[2..] && s.script[2..][1..] == t.script;
    assert IngestDiscoveredSlot(env, s, slots[0]) == Fail(t, Thrown(Other));
  }

  lemma MissingThrownPass(env: Env, x: int, s: State, m: Mem, t: State)
    requires TwoSlotsOf(env, x) && Forgive(s.mem) == FreshMem(env) && m == FreshMem(env).(last := x)
    requires |s.script| >= 7 && Same(s.script, Answered2(x, {x}), 0, 6) &&
      Nth(s.script, 6) == Throw(Other, Other, false)
    requires t == State(s.store.(refusals := s.store.refusals + {MissingBlock(x)}), m, s.script[7..],
                        s.discoveries + [Both(x)])
    ensures CatchUpToHead(env, s) == Fail(t, Thrown(Other))
  {
    var r := Answered2(x, {x});
    var s3 := State(s.store, Forgive(s.mem), s.script[3..], s.discoveries + [Both(x)]);
    var s4 := s3.(script := s.script[4..]);
    SameDrop(s.script, r, 3, 6, 3);
    assert Nth(s3.script, 0) == Nth(s3.script, 1) == Nth(s3.script, 2) == r && Nth(s3.script, 3) == Nth(s.script, 6);
    assert s3.script[1..] == s4.script && s4.script[3..] == t.script;
    MissingThrown(env, s4, [x, x + 1], x, t);
    ProcessBegins(env, s3, [x, x + 1], x + 1, x, s4, Fail(t, Thrown(Other)));
    TwoSlotsPass(env, x, s, {x}, s3, t, Thrown(Other));
  }

  /** With x passed in memory, half of x + 1 is stored before a crash. */
  lemma HalfOfSecond(env: Env, x: int, s: State, t: State)
    requires TwoSlotsOf(env, x) && s.mem == FreshMem(env).(last := x)
    requires |s.script| >= 7 && Same(s.script, Answered2(x, {x}), 0, 6) && Nth(s.script, 6) == Crash(false)
    requires t == State(WithRow(s.store, x + 1), s.mem, s.script[7..], s.discoveries + [Both(x)])
    ensures CatchUpToHead(env, s) == Fail(t, Stopped)
  {
    var s3 := State(s.store, Forgive(s.mem), s.script[3..], s.discoveries + [Both(x)]);
    SameDrop(s.script, Answered2(x, {x}), 3, 6, 3);
    assert s3.script[4..] == s.script[7..] && Nth(s3.script, 3) == Nth(s.script, 6);
    assert [x, x + 1][1..] == [x + 1];
    HalfProcessed(env, s3, [x, x + 1], [x + 1], x + 1, Answered2(x, {x}), t);
    TwoSlotsPass(env, x, s, {x}, s3, t, Stopped);
  }

  /** A tick that throws is survived, the next one meets a crash. */
  lemma LoopThrowsThenStops(env: Env, s: State, u: State, u1: State, v: State)
    requires s.mem.bootstrap && CatchUpToHead(env, s) == Fail(u, Thrown(Other))
    requires u.script != [] && u.script[0].Ok? && u1 == u.(script := u.script[1..])
    requires u1.mem.bootstrap && CatchUpToHead(env, u1) == Fail(v, Stopped)
    ensures FollowLoop(env, s) == v
  {
    assert Tick(env, s) == Fail(u, Thrown(Other));
    assert Call(env, u) == Next(u1, u.script[0].a);
    assert Sleep(env, u) == Next(u1, ());
    assert FollowLoop(env, u1) == v by { assert Tick(env, u1) == Fail(v, Stopped); }
  }

  /** Start-up against an unreachable RPC, up to the follow loop. */
  lemma UnreachableLife(env: Env, s: State, m: Mem, t: State)
    requires s == Outset(env, s.script) && |s.script| >= 4 && s.script[0].Ok? && s.script[1].Ok? && s.script[3].Ok?
    requires s.script[2].Throw? && s.script[2].onRpc == Transport
    requires m == FreshMem(env).(incident := Some(RpcUnreachable))
    requires t == State(Store(map[], {}, [Cursor(env.startSlot - 1, true, None)] + [CursorOf(m)]), m, s.script[4..], [])
    ensures Lifetime(env, s) == FollowLoop(env, t)
  {
    FirstInit(env, s);
    var s1 := InitCursor(env, s).s;
    assert s1.script[0] == s.script[2] && s1.script[1] == s.script[3] && s1.script[2..] == s.script[4..];
    UnreachableCatchUp(env, s1);
  }

  lemma MissingThrownLoop(env: Env, x: int, s: State, m: Mem, v: State)
    requires TwoSlotsOf(env, x) && Forgive(s.mem) == FreshMem(env) && s.mem.bootstrap && m == FreshMem(env).(last := x)
    requires |s.script| >= 15 && Same(s.script, Answered2(x, {x}), 0, 6) &&
      Nth(s.script, 6) == Throw(Other, Other, false)
    requires Same(s.script, Answered2(x, {x}), 7, 14) && Nth(s.script, 14) == Crash(false)
    requires v == State(WithRow(s.store.(refusals := s.store.refusals + {MissingBlock(x)}), x + 1), m, s.script[15..],
                        s.discoveries + [Both(x)] + [Both(x)])
    ensures FollowLoop(env, s) == v
  {
    var u := State(s.store.(refusals := s.store.refusals + {MissingBlock(x)}), m, s.script[7..],
                   s.discoveries + [Both(x)]);
    var u1 := u.(script := s.script[8..]);
    MissingThrownPass(env, x, s, m, u);
    SameDrop(s.script, Answered2(x, {x}), 8, 14, 8);
    assert Nth(u1.script, 6) == Nth(s.script, 14) && u1.script[7..] == v.script;
    HalfOfSecond(env, x, u1, v);
    assert Nth(s.script, 7) == Answered2(x, {x}) && u.script[1..] == u1.script;
    LoopThrowsThenStops(env, s, u, u1, v);
  }

  lemma RestoredLife(env: Env, x: int, s: State, s1: State, t: State)
    requires TwoSlotsOf(env, x) && |s.script| == 7 && Same(s.script, Answered2(x, {}), 0, 7)
    requires s.store.GetCursor() == Some(Cursor(env.startSlot - 1, true, Some(RpcUnreachable)))
    requires s1 == s.(mem := FreshMem(env).(incident := Some(RpcUnreachable)), script := s.script[1..])
    requires t == State(WithRow(s.store, x), FreshMem(env), [], s.discoveries + [Both(x)])
    ensures Lifetime(env, s) == t
  {
    SameDrop(s.script, Answered2(x, {}), 1, 7, 1);
    HalfOfFirst(env, x, s1, {}, t);
    assert Nth(s.script, 0) == Answered2(x, {});
    RestartedLife(env, s, Some(RpcUnreachable), s1, t);
  }

  lemma RestoredLives(env: Env, x: int, script: seq<Reply>, m0: Mem, s0: State, s1: State, t: State)
    requires TwoSlotsOf(env, x) && RestoredScript(script, x) && m0 == FreshMem(env).(incident := Some(RpcUnreachable))
    requires s0 ==
      State(Store(map[], {}, [Cursor(env.startSlot - 1, true, None)] + [CursorOf(m0)]), m0, script[4..], [])
    requires s1 == State(WithRow(s0.store.(refusals := {} + {MissingBlock(x)}), x + 1), FreshMem(env).(last := x),
                         script[19..], [] + [Both(x)] + [Both(x)])
    requires t == State(WithRow(s1.store, x), FreshMem(env), [], s1.discoveries + [Both(x)])
    ensures Service(env, Outset(env, script)) == t
  {
    var s := Outset(env, script);
    SameDrop(script, Answered2(x, {}), 19, 26, 19);
    LastCursor(s1.store, Cursor(env.startSlot - 1, true, None), m0);
    RestoredLife(env, x, s1, s1.(mem := m0, script := s1.script[1..]), t);
    RestoredFirst(env, x, script, m0, s0, s1);
    TwoLives(env, s, s1, t);
  }

  lemma LastCursor(st: Store, c: Cursor, m: Mem)
    requires st.journal == [c] + [CursorOf(m)]
    ensures st.GetCursor() == Some(CursorOf(m))
  {
  }

  lemma RestoredFirst(env: Env, x: int, script: seq<Reply>, m0: Mem, s0: State, s1: State)
    requires TwoSlotsOf(env, x) && RestoredScript(script, x) && m0 == FreshMem(env).(incident := Some(RpcUnreachable))
    requires s0 ==
      State(Store(map[], {}, [Cursor(env.startSlot - 1, true, None)] + [CursorOf(m0)]), m0, script[4..], [])
    requires s1 == State(WithRow(s0.store.(refusals := {} + {MissingBlock(x)}), x + 1), FreshMem(env).(last := x),
                         script[19..], [] + [Both(x)] + [Both(x)])
    ensures Lifetime(env, Outset(env, script)) == s1
  {
    var r := Answered2(x, {x});
    SameDrop(script, r, 4, 10, 4);
    SameDrop(script, r, 11, 18, 4);
    assert Nth(s0.script, 6) == Nth(script, 10) && Nth(s0.script, 14) == Nth(script, 18);
    assert s0.script[15..] == s1.script;
    MissingThrownLoop(env, x, s0, FreshMem(env).(last := x), s1);
    assert Nth(script, 0) == Nth(script, 1) == Nth(script, 3) == r;
    assert Nth(script, 2) == Throw(Transport, Other, false);
    UnreachableLife(env, Outset(env, script), m0, s0);
  }

  /** x is missing until place 19, and served from there on. */
  ghost predicate RestoredScript(script: seq<Reply>, x: int) {
    var r := Answered2(x, {x});
    && |script| == 26 && Same(script, r, 0, 2) && Nth(script, 2) == Throw(Transport, Other, false) &&
      Nth(script, 3) == r
    && Same(script, r, 4, 10) && Nth(script, 10) == Throw(Other, Other, false) && Same(script, r, 11, 18)
    && Nth(script, 18) == Crash(false) && Same(script, Answered2(x, {}), 19, 26)
  }

  lemma MissingThenServed(x: int) returns (script: seq<Reply>)
    ensures RestoredScript(script, x) && Faithful(script) && SteadyBut(script, {}, {x})
  {
    script := seq(26, i =>
      if i == 2 then Throw(Transport, Other, false)
      else if i == 10 then Throw(Other, Other, false)
      else if i == 18 then Crash(false)
      else Answered2(x, if i < 19 then {x} else {}));
    forall i | 0 <= i < |script| && script[i].Ok?
      ensures script[i].a.head <= x + 1 <= script[i].a.tip && script[i].a.gone == if i < 19 then {x} else {}
    {
      assert script[i] == Answered2(x, if i < 19 then {x} else {});
    }
    HeadsReached(script, x + 1);
  }

  /**
   A block reported missing and served later: the refusal is written, the write of the watermark fails, and the
   loop goes on to the next slot, half of which is stored before a crash. After the restart the first slot is
   taken up again.
   */
  lemma ServedAfterMissing(x: int) returns (env: Env, script: seq<Reply>)
    ensures SoundListing(env, script) && SteadyBut(script, {}, {x})
    ensures PartWay(env, Observed(env, script).store, x) && PartWay(env, Observed(env, script).store, x + 1)
  {
    env := TwoSlotsEnv(x);
    script := MissingThenServed(x);
    ServedAfterMissingRun(env, x, script);
  }

  lemma ServedAfterMissingRun(env: Env, x: int, script: seq<Reply>)
    requires TwoSlotsOf(env, x) && RestoredScript(script, x)
    ensures AllGapFree(env, Observed(env, script).discoveries)
    ensures PartWay(env, Observed(env, script).store, x) && PartWay(env, Observed(env, script).store, x + 1)
  {
    var m0 := FreshMem(env).(incident := Some(RpcUnreachable));
    var s0 := State(Store(map[], {}, [Cursor(env.startSlot - 1, true, None)] + [CursorOf(m0)]), m0, script[4..], []);
    var s1 := State(WithRow(s0.store.(refusals := {} + {MissingBlock(x)}), x + 1), FreshMem(env).(last := x),
                    script[19..], [] + [Both(x)] + [Both(x)]);
    var t := State(WithRow(s1.store, x), FreshMem(env), [], s1.discoveries + [Both(x)]);
    RestoredLives(env, x, script, m0, s0, s1, t);
    RowsOfTwo(x + 1, x);
    BothHalf(env, t.store, x + 1, x);
    BothGapFree(env, x);
  }

  // ---------------------------------------------------------------- a gap

  /** Each of two programs signs in one of two slots running, each with two rows. */
  ghost predicate TwoProgramsAt(env: Env, x: int) {
    && env.startSlot == x && |env.programs| == 2
    && (forall y :: (env.programs[0](y) <==> y == x) && (env.programs[1](y) <==> y == x + 1))
    && env.block(x) == env.block(x + 1) == TwoRows()
  }

  function TwoProgramsEnv(x: int): Env {
    Env(x, 100, false, _ => TwoRows(), [(y: int) => y == x, (y: int) => y == x + 1])
  }

  function Reaching(low: int, x: int, tip: int): Reply { Ok(Answer(low, x, {}, tip, true)) }

  lemma FirstProgramLists(env: Env, low: int, x: int)
    requires low < x && TwoProgramsAt(env, x)
    ensures Listed(env, [low]) == [] && Listed(env, [x + 1]) == [x]
  {
    assert [low][..0] == [] && [x + 1][..0] == [] && [x][1..] == [];
    assert SlotsOf(env, 0, low) == [] && SlotsOf(env, 0, x - 1) == [];
    assert SlotsOf(env, 0, x) == [x] && SlotsOf(env, 0, x + 1) == [x];
    assert InsertSlot([], x) == [x] && Listed(env, []) == [] && Merge([], [x]) == [x];
  }

  lemma SecondProgramSlots(env: Env, x: int)
    requires TwoProgramsAt(env, x)
    ensures SlotsOf(env, 1, x + 1) == [x + 1]
  {
    assert SlotsOf(env, 1, x - 1) == [] && SlotsOf(env, 1, x) == [];
  }

  lemma MergeOne(x: int)
    ensures Merge([], [x + 1]) == [x + 1] && Merge([x], [x + 1]) == [x, x + 1]
  {
    assert [x + 1][1..] == [] && [x][1..] == [];
    assert InsertSlot([], x + 1) == [x + 1] && InsertSlot([x], x + 1) == [x, x + 1];
    assert Merge([x], [x + 1]) == Merge([x, x + 1], []);
  }

  lemma TwoLists(env: Env, a: int, b: int)
    requires |env.programs| == 2
    ensures Listed(env, [a, b]) == Merge(Listed(env, [a]), SlotsOf(env, 1, b))
  {
    assert [a, b][..1] == [a];
  }

  lemma TwoProgramsListed(env: Env, low: int, x: int)
    requires low < x && TwoProgramsAt(env, x)
    ensures Listed(env, [low, x + 1]) == [x + 1] && Listed(env, [x + 1, x + 1]) == [x, x + 1]
  {
    FirstProgramLists(env, low, x);
    SecondProgramSlots(env, x);
    MergeOne(x);
    TwoLists(env, low, x + 1);
    TwoLists(env, x + 1, x + 1);
  }

  function Gapped(low: int, x: int): Discovery { Discovery(None, [low, x + 1], [x + 1], true) }
  function Whole(x: int): Discovery { Discovery(None, [x + 1, x + 1], [x, x + 1], true) }

  /** Two programs: the first list is read with the replies before it, the second one later. */
  lemma TwoProgramPass(env: Env, s: State, r: Reply, q: Reply, d: Discovery, s3: State, t: State)
    requires |env.programs| == 2 && r.Ok? && q.Ok? && |s.script| >= 4 && Same(s.script, r, 0, 3) &&
      Nth(s.script, 3) == q
    requires r.a.firstAvailable <= env.startSlot && r.a.floors && q.a.floors
    requires d == Discovery(None, [r.a.tip, q.a.tip], Listed(env, [r.a.tip, q.a.tip]), true)
    requires s3 == State(s.store, Forgive(s.mem), s.script[4..], s.discoveries + [d])
    requires ProcessSlotList(env, s3, d.slots, r.a.head) == Fail(t, Stopped)
    ensures CatchUpToHead(env, s) == Fail(t, Stopped)
  {
    var s2 := s.(mem := Forgive(s.mem), script := s.script[2..]);
    assert Nth(s.script, 0) == Nth(s.script, 1) == Nth(s.script, 2) == r;
    assert s2.script[2..] == s3.script;
    PassBegins(env, s, r.a.head, s2);
    TwoPolled(env, s2);
    PolledIsEnumerated(env, s2, s2.(script := s3.script), [r.a.tip, q.a.tip], r.a.head);
    PassStops(env, s2, s3, d, t, Stopped, r.a.head);
  }

  lemma GappedPass(env: Env, low: int, x: int, s: State, t: State)
    requires low < x && TwoProgramsAt(env, x) && s.mem == FreshMem(env) && |s.script| >= 8
    requires Same(s.script, Reaching(low, x, low), 0, 3) && Same(s.script, Reaching(low, x, x + 1), 3, 7)
    requires Nth(s.script, 7) == Crash(false)
    requires t == State(WithRow(s.store, x + 1), s.mem, s.script[8..], s.discoveries + [Gapped(low, x)])
    ensures CatchUpToHead(env, s) == Fail(t, Stopped)
  {
    var s3 := State(s.store, Forgive(s.mem), s.script[4..], s.discoveries + [Gapped(low, x)]);
    var d := Gapped(low, x);
    GappedTakes(env, low, x, s.script, d.slots, s3, t);
    GappedUpTo(env, low, x, s, d, s3, t);
  }

  lemma GappedUpTo(env: Env, low: int, x: int, s: State, d: Discovery, s3: State, t: State)
    requires low < x && TwoProgramsAt(env, x) && |s.script| >= 8
    requires Same(s.script, Reaching(low, x, low), 0, 3) && Same(s.script, Reaching(low, x, x + 1), 3, 7)
    requires d == Gapped(low, x) && s3 == State(s.store, Forgive(s.mem), s.script[4..], s.discoveries + [d])
    requires ProcessSlotList(env, s3, d.slots, low) == Fail(t, Stopped)
    ensures CatchUpToHead(env, s) == Fail(t, Stopped)
  {
    var r, q := Reaching(low, x, low), Reaching(low, x, x + 1);
    GappedIsListed(env, low, x, d, r.a.tip, q.a.tip);
    assert Nth(s.script, 3) == q;
    TwoProgramPass(env, s, r, q, d, s3, t);
  }

  lemma GappedIsListed(env: Env, low: int, x: int, d: Discovery, a: int, b: int)
    requires low < x && TwoProgramsAt(env, x) && d == Gapped(low, x) && a == low && b == x + 1
    ensures d == Discovery(None, [a, b], Listed(env, [a, b]), true)
  {
    TwoProgramsListed(env, low, x);
  }

  lemma GappedTakes(env: Env, low: int, x: int, script: seq<Reply>, slots: seq<int>, s3: State, t: State)
    requires slots == [x + 1] && env.block(x + 1) == TwoRows() && s3.mem == FreshMem(env) && env.startSlot == x
    requires |script| >= 8 && Same(script, Reaching(low, x, x + 1), 3, 7) && Nth(script, 7) == Crash(false)
    requires s3.script == script[4..] && t == s3.(store := WithRow(s3.store, x + 1), script := script[8..])
    ensures ProcessSlotList(env, s3, slots, low) == Fail(t, Stopped)
  {
    SameDrop(script, Reaching(low, x, x + 1), 4, 7, 4);
    assert Nth(s3.script, 3) == Nth(script, 7) && s3.script[4..] == t.script;
    HalfProcessed(env, s3, slots, slots, low, Reaching(low, x, x + 1), t);
  }

  lemma WholePass(env: Env, low: int, x: int, s: State, t: State)
    requires low < x && TwoProgramsAt(env, x) && s.mem == FreshMem(env)
    requires |s.script| == 7 && Same(s.script, Reaching(low, x, x + 1), 0, 7)
    requires t == State(WithRow(s.store, x), s.mem, [], s.discoveries + [Whole(x)])
    ensures CatchUpToHead(env, s) == Fail(t, Stopped)
  {
    var q := Reaching(low, x, x + 1);
    var s3 := State(s.store, Forgive(s.mem), s.script[4..], s.discoveries + [Whole(x)]);
    SameDrop(s.script, q, 4, 7, 4);
    TwoProgramsListed(env, low, x);
    HalfProcessed(env, s3, [x, x + 1], [x, x + 1], low, q, t);
    assert Nth(s.script, 3) == q;
    TwoProgramPass(env, s, q, q, Whole(x), s3, t);
  }

  ghost predicate GappedScript(script: seq<Reply>, low: int, x: int) {
    && |script| == 18 && Same(script, Reaching(low, x, low), 0, 5) && Same(script, Reaching(low, x, x + 1), 5, 9)
    && Nth(script, 9) == Crash(false) && Same(script, Reaching(low, x, x + 1), 10, 18)
  }

  lemma GappedLives(env: Env, low: int, x: int, script: seq<Reply>, s0: State, s1: State, s2: State, t: State)
    requires low < x && TwoProgramsAt(env, x) && GappedScript(script, low, x)
    requires s0 ==
      State(Store(map[], {}, [Cursor(env.startSlot - 1, true, None)]), FreshMem(env), script[2..], [])
    requires s1 == State(WithRow(s0.store, x + 1), FreshMem(env), script[10..], [] + [Gapped(low, x)])
    requires s2 == s1.(mem := FreshMem(env).(incident := None), script := s1.script[1..])
    requires t == State(WithRow(s1.store, x), FreshMem(env), [], s1.discoveries + [Whole(x)])
    ensures Service(env, Outset(env, script)) == t
  {
    GappedFirst(env, low, x, script, s0, s1);
    SameDrop(script, Reaching(low, x, x + 1), 10, 18, 10);
    GappedSecond(env, low, x, s1, s2, t);
    TwoLives(env, Outset(env, script), s1, t);
  }

  lemma GappedFirst(env: Env, low: int, x: int, script: seq<Reply>, s0: State, s1: State)
    requires low < x && TwoProgramsAt(env, x) && GappedScript(script, low, x)
    requires s0 ==
      State(Store(map[], {}, [Cursor(env.startSlot - 1, true, None)]), FreshMem(env), script[2..], [])
    requires s1 == State(WithRow(s0.store, x + 1), FreshMem(env), script[10..], [] + [Gapped(low, x)])
    ensures Lifetime(env, Outset(env, script)) == s1
  {
    SameDrop(script, Reaching(low, x, low), 2, 5, 2);
    SameDrop(script, Reaching(low, x, x + 1), 5, 9, 2);
    assert Nth(s0.script, 7) == Nth(script, 9) && s0.script[8..] == s1.script;
    GappedPass(env, low, x, s0, s1);
    assert Nth(script, 0) == Nth(script, 1) == Reaching(low, x, low);
    FreshLife(env, Outset(env, script), s0, s1);
  }

  lemma GappedSecond(env: Env, low: int, x: int, s1: State, s2: State, t: State)
    requires low < x && TwoProgramsAt(env, x) && |s1.script| == 8 && Same(s1.script, Reaching(low, x, x + 1), 0, 8)
    requires s1.store.GetCursor() == Some(Cursor(env.startSlot - 1, true, None))
    requires s2 == s1.(mem := FreshMem(env).(incident := None), script := s1.script[1..])
    requires t == State(WithRow(s1.store, x), FreshMem(env), [], s1.discoveries + [Whole(x)])
    ensures Lifetime(env, s1) == t
  {
    SameDrop(s1.script, Reaching(low, x, x + 1), 1, 8, 1);
    WholePass(env, low, x, s2, t);
    assert Nth(s1.script, 0) == Reaching(low, x, x + 1);
    RestartedLife(env, s1, None, s2, t);
  }

  lemma GappedAnswers(low: int, x: int) returns (script: seq<Reply>)
    requires low < x
    ensures GappedScript(script, low, x) && Faithful(script) && SteadyBut(script, {}, {})
  {
    script := seq(18, i => if i == 9 then Crash(false) else Reaching(low, x, if i < 5 then low else x + 1));
    forall i | 0 <= i < |script| && script[i].Ok?
      ensures script[i].a.head <= low <= script[i].a.tip && script[i].a.gone == {}
    {
      assert script[i] == Reaching(low, x, if i < 5 then low else x + 1);
    }
    HeadsReached(script, low);
  }

  /**
   A discovery with a gap lists the second slot only, half of which is stored before a crash; the next one lists
   both, and the first is taken up. Every answer of getBlock is steady.
   */
  lemma GapLeavesTwo(x: int) returns (env: Env, script: seq<Reply>)
    ensures Faithful(script) && SteadyBut(script, {}, {})
    ensures PartWay(env, Observed(env, script).store, x) && PartWay(env, Observed(env, script).store, x + 1)
  {
    var low := x - 1;
    env := TwoProgramsEnv(x);
    script := GappedAnswers(low, x);
    var s0 := State(Store(map[], {}, [Cursor(env.startSlot - 1, true, None)]), FreshMem(env), script[2..], []);
    var s1 := State(WithRow(s0.store, x + 1), FreshMem(env), script[10..], [] + [Gapped(low, x)]);
    var t := State(WithRow(s1.store, x), FreshMem(env), [], s1.discoveries + [Whole(x)]);
    GappedLives(env, low, x, script, s0, s1, s1.(mem := FreshMem(env).(incident := None), script := s1.script[1..]), t);
    RowsOfTwo(x + 1, x);
    BothHalf(env, t.store, x + 1, x);
  }

  // ---------------------------------------------------------------- exactly when one slot at most is part-way

  /**
   Whether every run leaves at most one slot part-way, when only these slots may be served and missing later,
   only these missing and served later, and discoveries may have gaps or not.
   */
  ghost predicate AlwaysOnePartWay(withdrawn: set<int>, restored: set<int>, gaps: bool) {
    forall env: Env, script ::
      Faithful(script) && SteadyBut(script, withdrawn, restored) && (gaps || SoundListing(env, script)) ==>
      OnePartWay(env, Observed(env, script).store)
  }

  lemma Member(xs: set<int>) returns (x: int)
    requires xs != {}
    ensures x in xs
  {
    var xss := Enumerated(xs);
    assert ToSet(xss) != ToSet([]);
    x := xss[0];
    assert x in ToSet(xss);
  }

  lemma SteadyButMore(script: seq<Reply>, a: set<int>, b: set<int>, c: set<int>, d: set<int>)
    requires SteadyBut(script, a, b) && a <= c && b <= d
    ensures SteadyBut(script, c, d)
  {
  }

  /**
   At most one slot is part-way in all runs exactly when no block may be withdrawn, none restored, and no
   discovery may have a gap: each of the three alone leaves two.
   */
  lemma OnePartWayIff(withdrawn: set<int>, restored: set<int>, gaps: bool)
    ensures AlwaysOnePartWay(withdrawn, restored, gaps) <==> withdrawn == {} && restored == {} && !gaps
  {
    if withdrawn == {} && restored == {} && !gaps {
      forall env: Env, script | SoundListing(env, script) && SteadyBut(script, {}, {})
        ensures OnePartWay(env, Observed(env, script).store)
      {
        SteadyRunsHaveOne(env, script);
      }
    } else {
      var env, script, x;
      if withdrawn != {} {
        x := Member(withdrawn);
        env, script := MissingAfterServed(x);
        SteadyButMore(script, {x}, {}, withdrawn, restored);
      } else if restored != {} {
        x := Member(restored);
        env, script := ServedAfterMissing(x);
        SteadyButMore(script, {}, {x}, withdrawn, restored);
      } else {
        x := 0;
        env, script := GapLeavesTwo(x);
      }
      assert !OnePartWay(env, Observed(env, script).store);
    }
  }
}
