/**
 A run that shows what completeness rests on: a discovery with a gap loses a slot. The steps a run is made of
 come first.
 */
module IngestWitnesses {
  import opened Common
  import opened Ingest
  import opened IngestSlots
  import opened IngestDiscovery
  import opened IngestCatchUp
  import opened IngestRuns
  import opened IngestTransparency

  // ---------------------------------------------------------------- steps of a run

  /** The calls before the first discovery of a bootstrap pass. */
  lemma PassBegins(env: Env, s: State, head: int, t: State)
    requires |s.script| >= 2 && s.script[0].Ok? && s.script[1].Ok?
    requires s.script[0].a.head == head && s.script[1].a.firstAvailable <= env.startSlot
    requires t == s.(mem := Forgive(s.mem), script := s.script[2..])
    ensures CatchUpToHead(env, s) == CatchUpFrom(env, t, head)
  {
    var s0 := s.(mem := t.mem);
    var s1 := s0.(script := s.script[1..]);
    assert s1.script[1..] == t.script;
    assert Call(env, s0) == Next(s1, s.script[0].a);
    assert Call(env, s1) == Next(t, s.script[1].a);
    assert AssertStartupRetention(env, s1, head) == Next(t, ());
  }

  lemma ProcessBegins(env: Env, s: State, slots: seq<int>, head: int, first: int, t: State, o: Out<bool>)
    requires s.mem.bootstrap && s.script != [] && s.script[0].Ok? && s.script[0].a.firstAvailable == first
    requires t == s.(script := s.script[1..]) && TakeSlots(env, t, slots, first) == o
    ensures ProcessSlotList(env, s, slots, head) == o
  {
  }

  lemma RestartBegins(env: Env, s: State, incident: Option<Incident>, t: State)
    requires s.script != [] && s.script[0].Ok? && (incident.None? || IsRetriable(incident))
    requires s.store.GetCursor() == Some(Cursor(env.startSlot - 1, true, incident))
    requires t == s.(mem := FreshMem(env).(incident := incident), script := s.script[1..])
    ensures InitCursor(env, s.(mem := FreshMem(env))) == Next(t, ())
  {
  }

  lemma TwoPolled(env: Env, s: State)
    requires |env.programs| == 2 && |s.script| >= 2 && s.script[0].Ok? && s.script[1].Ok?
    requires s.script[0].a.floors && s.script[1].a.floors
    ensures PollPrograms(env, s, [], true) ==
      Next(s.(script := s.script[2..]), ([s.script[0].a.tip, s.script[1].a.tip], true))
  {
    var s1, s2 := s.(script := s.script[1..]), s.(script := s.script[2..]);
    var a, b := s.script[0].a, s.script[1].a;
    assert s1.script[1..] == s2.script;
    assert Call(env, s) == Next(s1, a) && Call(env, s1) == Next(s2, b);
    assert [] + [a.tip] == [a.tip] && [a.tip] + [b.tip] == [a.tip, b.tip];
    assert PollPrograms(env, s2, [a.tip, b.tip], true) == Next(s2, ([a.tip, b.tip], true));
    assert PollPrograms(env, s1, [a.tip], true) == Next(s2, ([a.tip, b.tip], true));
  }

  lemma OnePolled(env: Env, s: State)
    requires |env.programs| == 1 && |s.script| >= 1 && s.script[0].Ok? && s.script[0].a.floors
    ensures PollPrograms(env, s, [], true) == Next(s.(script := s.script[1..]), ([s.script[0].a.tip], true))
  {
    var s1, a := s.(script := s.script[1..]), s.script[0].a;
    assert Call(env, s) == Next(s1, a);
    assert [] + [a.tip] == [a.tip];
    assert PollPrograms(env, s1, [a.tip], true) == Next(s1, ([a.tip], true));
  }

  lemma PolledIsEnumerated(env: Env, s: State, t: State, tips: seq<int>, head: int)
    requires PollPrograms(env, s, [], true) == Next(t, (tips, true)) && |tips| == |env.programs|
    ensures var d := Discovery(None, tips, Listed(env, tips), true);
      Enumerate(env, s, head) == Next(t.(discoveries := t.discoveries + [d]), Some(d))
  {
  }

  /** A pass whose listed slots are all taken, and which then has no reply to its verification poll. */
  lemma PassEnds(env: Env, s: State, s1: State, d: Discovery, t: State, head: int)
    requires Enumerate(env, s, head) == Next(s1, Some(d))
    requires ProcessSlotList(env, s1, d.slots, head) == Next(t, true) && t.script == [] && env.programs != []
    ensures CatchUpFrom(env, s, head) == Fail(t, Stopped)
  {
    assert Call(env, t) == Fail(t, Stopped);
    assert PollPrograms(env, t, [], true) == Fail(t, Stopped);
    assert VerifyCatchUp(env, t, head, d.slots == []) == Fail(t, Stopped);
  }

  /** A pass that ends while it takes its listed slots. */
  lemma PassStops(env: Env, s: State, s1: State, d: Discovery, t: State, why: Why, head: int)
    requires Enumerate(env, s, head) == Next(s1, Some(d))
    requires ProcessSlotList(env, s1, d.slots, head) == Fail(t, why)
    ensures CatchUpFrom(env, s, head) == Fail(t, why)
  {
  }

  lemma OneLifetime(env: Env, s: State, s1: State, t: State)
    requires InitCursor(env, s.(mem := FreshMem(env))) == Next(s1, ()) && CatchUpToHead(env, s1) == Fail(t, Stopped)
    ensures Lifetime(env, s) == t
  {
  }

  lemma {:induction false} HeadsReached(script: seq<Reply>, head: int)
    requires forall i :: 0 <= i < |script| && script[i].Ok? ==> script[i].a.head <= head <= script[i].a.tip
    ensures Faithful(script)
  {
    if script != [] { HeadsReached(script[1..], head); }
  }

  // ---------------------------------------------------------------- a discovery with a gap

  /** What is answered while the lists reach the tip; the first program is asked at 0, the second at 2. */
  function At(tip: int): Reply { Ok(Answer(0, 0, {}, tip, true)) }

  lemma GapListed(env: Env, d: Discovery)
    requires TwoPrograms(env) && d == Discovery(None, [0, 2], [2], true)
    ensures Listed(env, [0, 2]) == [2] && FromPolls(env, d) && Hole(env, d, 1)
  {
    assert [0, 2][..1] == [0] && [0][..0] == [];
    assert SlotsOf(env, 0, 0) == [] && SlotsOf(env, 1, 1) == [];
    assert SlotsOf(env, 1, 2) == [2];
    assert Listed(env, [0]) == [];
    assert [2][1..] == [] && InsertSlot([], 2) == [2];
    assert Merge([], [2]) == [2];
    assert env.programs[0](1) && d.tips[0] < 1 && Floor(env, d) < 1;
    assert 2 in d.slots && 1 !in d.slots;
    assert Hole(env, d, 1);
  }

  lemma EmptyTaken(env: Env, s: State, slot: int, t: State)
    requires env.block(slot) == [] && 0 <= slot && s.mem.last < slot && !s.mem.halted && s.mem.incident == None
    requires |s.script| == 2 && s.script[0].Ok? && s.script[1].Ok? && slot !in s.script[0].a.gone
    requires var m := s.mem.(last := slot);
      t == State(s.store.(journal := s.store.journal + [CursorOf(m)]), m, [], s.discoveries)
    ensures TakeSlots(env, s, [slot], 0) == Next(t, true)
  {
    var s1 := s.(script := s.script[1..]);
    assert Call(env, s) == Next(s1, s.script[0].a);
    assert IngestBlock(env, s1, slot, 0) == Next(s1, ());
    assert s1.script[1..] == [] && [slot][1..] == [];
  }

  lemma OneRow(env: Env, slot: int, body: string)
    requires env.block(slot) == [ParsedTx([Payload(0, body)], [])]
    ensures RowId(slot, 0, 0) in SlotTable(env, slot)
  {
    var rows := [Payload(0, body)];
    var t := map[RowId(slot, 0, 0) := body];
    assert InsertTx(map[], slot, 0, rows) == InsertTx(t, slot, 0, rows[1..]) == t;
    assert InsertBlock(map[], slot, env.block(slot), 0) == InsertBlock(t, slot, env.block(slot), 1) == t;
  }

  /** The first program signs in slot 1, which has a row, the second in slot 2. */
  ghost predicate TwoPrograms(env: Env) {
    && env.startSlot == 1 && |env.programs| == 2
    && (forall x :: (env.programs[0](x) <==> x == 1) && (env.programs[1](x) <==> x == 2))
    && env.block(1) == [ParsedTx([Payload(0, "row")], [])] && env.block(2) == []
  }

  lemma SomeTwoPrograms() returns (env: Env)
    ensures TwoPrograms(env)
  {
    var block := (x: int) => if x == 1 then [ParsedTx([Payload(0, "row")], [])] else [];
    env := Env(1, 100, false, block, [(x: int) => x == 1, (x: int) => x == 2]);
  }

  lemma GapScripted() returns (script: seq<Reply>)
    ensures |script| == 9 && forall i :: 0 <= i < 9 ==> script[i] == At(if i < 5 then 0 else 2)
    ensures Faithful(script) && forall r :: r in script ==> r.Ok?
  {
    script := seq(9, i => At(if i < 5 then 0 else 2));
    forall i | 0 <= i < |script| && script[i].Ok? ensures script[i].a.head <= 0 <= script[i].a.tip {
      assert script[i] == At(if i < 5 then 0 else 2);
    }
    HeadsReached(script, 0);
  }

  /**
   Two programs are asked in turn, and a slot of the first lands between the two calls, below one of the
   second: the stored watermark ends at 2 with slot 1 neither stored nor refused. Nothing crashed, and
   every list reached every head answered before it.
   */
  lemma GapLosesSlot() returns (env: Env, script: seq<Reply>, d: Discovery)
    ensures Faithful(script) && (forall r :: r in script ==> r.Ok?)
    ensures FromPolls(env, d) && Hole(env, d, 1) && Observed(env, script).discoveries == [d]
    ensures Observed(env, script).store.GetCursor() == Some(Cursor(2, true, None))
    ensures env.Relevant(1) && env.startSlot == 1 && !Settled(env, Observed(env, script).store, 1)
  {
    env := SomeTwoPrograms();
    d := Discovery(None, [0, 2], [2], true);
    script := GapScripted();
    assert env.programs[0](1);
    GapLost(env, d, script);
  }

  lemma GapLost(env: Env, d: Discovery, script: seq<Reply>)
    requires TwoPrograms(env) && d == Discovery(None, [0, 2], [2], true)
    requires |script| == 9 && forall i :: 0 <= i < 9 ==> script[i] == At(if i < 5 then 0 else 2)
    ensures FromPolls(env, d) && Hole(env, d, 1) && Observed(env, script).discoveries == [d]
    ensures Observed(env, script).store.GetCursor() == Some(Cursor(2, true, None))
    ensures !Settled(env, Observed(env, script).store, 1)
  {
    GapListed(env, d);
    OneRow(env, 1, "row");
    GapRun(env, d, Outset(env, script));
  }

  lemma GapRun(env: Env, d: Discovery, s: State)
    requires env.startSlot == 1 && env.block(2) == [] && |env.programs| == 2
    requires s == Outset(env, s.script) && |s.script| == 9 &&
      forall i :: 0 <= i < 9 ==> s.script[i] == At(if i < 5 then 0 else 2)
    requires d == Discovery(None, [0, 2], [2], true) && Listed(env, [0, 2]) == [2]
    ensures var t := Service(env, s);
      && t.store == Store(map[], {}, [Cursor(0, true, None), Cursor(2, true, None)]) && t.discoveries == [d]
  {
    FirstInit(env, s);
    var s1 := s.(store := Store(map[], {}, [Cursor(0, true, None)]), script := s.script[2..]);
    var s2 := s1.(script := s1.script[2..]);
    PassBegins(env, s1, 0, s2);
    var t := GapPass(env, d, s2);
    OneLifetime(env, s, s1, t);
    ServiceOnce(env, s);
  }

  lemma GapEnumerated(env: Env, d: Discovery, s: State, s1: State)
    requires |env.programs| == 2 && |s.script| >= 2 && s.script[0] == At(0) && s.script[1] == At(2) &&
      s.discoveries == []
    requires d == Discovery(None, [0, 2], [2], true) && Listed(env, [0, 2]) == [2]
    requires s1 == s.(script := s.script[2..], discoveries := [d])
    ensures Enumerate(env, s, 0) == Next(s1, Some(d))
  {
    TwoPolled(env, s);
    PolledIsEnumerated(env, s, s.(script := s.script[2..]), [0, 2], 0);
    assert [] + [d] == [d];
  }

  lemma GapTaken(env: Env, s: State) returns (t: State)
    requires env.block(2) == [] && |s.script| == 3 && s.script[0] == s.script[1] == s.script[2] == At(2)
    requires s.mem == Mem(false, 0, true, None, 0)
    ensures ProcessSlotList(env, s, [2], 0) == Next(t, true)
    ensures t.script == [] && t.discoveries == s.discoveries
    ensures t.store == s.store.(journal := s.store.journal + [Cursor(2, true, None)])
  {
    var s1 := s.(script := s.script[1..]);
    var m := s.mem.(last := 2);
    t := State(s.store.(journal := s.store.journal + [CursorOf(m)]), m, [], s.discoveries);
    EmptyTaken(env, s1, 2, t);
    ProcessBegins(env, s, [2], 0, 0, s1, Next(t, true));
  }

  lemma GapPass(env: Env, d: Discovery, s: State) returns (t: State)
    requires env.startSlot == 1 && env.block(2) == [] && |env.programs| == 2
    requires |s.script| == 5 && forall i :: 0 <= i < 5 ==> s.script[i] == At(if i < 1 then 0 else 2)
    requires d == Discovery(None, [0, 2], [2], true) && Listed(env, [0, 2]) == [2]
    requires s.mem == FreshMem(env) && s.store == Store(map[], {}, [Cursor(0, true, None)]) && s.discoveries == []
    ensures CatchUpFrom(env, s, 0) == Fail(t, Stopped) && t.script == [] && t.discoveries == [d]
    ensures t.store == Store(map[], {}, [Cursor(0, true, None), Cursor(2, true, None)])
  {
    var s3 := s.(script := s.script[2..], discoveries := [d]);
    GapEnumerated(env, d, s, s3);
    t := GapTaken(env, s3);
    PassEnds(env, s, s3, d, t, 0);
    assert [Cursor(0, true, None)] + [Cursor(2, true, None)] == [Cursor(0, true, None), Cursor(2, true, None)];
  }
}
