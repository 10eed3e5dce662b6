/**
 Whole runs of svm-ingest: start-up, the serial follow loop, crash and restart
 (svm-ingest/main.ts, svm-ingest/follow-loop.ts), the /ready surface (svm-ingest/http-health.ts),
 and what holds in every state of every run.
 */
module IngestRuns {
  import opened Common
  import opened Ingest
  import opened IngestSlots
  import opened IngestDiscovery
  import opened IngestCatchUp

  // ---------------------------------------------------------------- the service

  function FreshMem(env: Env): Mem { Mem(false, env.startSlot - 1, true, None, 0) }

  /** Restart rebuilds memory, and the halt, from the stored cursor; a first start stores one. */
  function InitCursor(env: Env, s: State): (o: Out<()>)
    ensures Consumes(s, o.s) && o.s.discoveries == s.discoveries
    ensures s.script != [] ==> |o.s.script| < |s.script|
    ensures Durable(env, s.store, s.discoveries) && Faithful(s.script) && s.mem == FreshMem(env) ==>
      Durable(env, o.s.store, o.s.discoveries) && Faithful(o.s.script) && (o.Next? ==> Good(env, o.s))
    ensures s.mem == FreshMem(env) ==> HaltNamed(o.s) && HaltPermanent(o.s)
  {
    var (s1, _) :- Write(s, s.store);
    match s1.store.GetCursor()
    case Some(c) =>
      var halted := s1.mem.halted || (c.incident.Some? && !IsRetriable(c.incident));
      Next(s1.(mem := s1.mem.(last := c.last, bootstrap := c.bootstrap, incident := c.incident, halted := halted)), ())
    case None =>
      var (s2, _) :- PersistCursor(env, s1);
      Next(s2.(mem := s2.mem.(last := env.startSlot - 1)), ())
  }

  /** Bootstrap incomplete: catch up again; live: discover above the watermark. */
  function Tick(env: Env, s: State): (o: Out<()>)
    ensures Consumes(s, o.s) && s.discoveries <= o.s.discoveries
    ensures Good(env, s) ==> Good(env, o.s)
    ensures HaltNamed(s) ==> HaltNamed(o.s)
    ensures StoreErrorsPlain(s.script) && HaltPermanent(s) ==> HaltPermanent(o.s)
  {
    if s.mem.bootstrap then CatchUpToHead(env, s) else FollowOnce(env, s)
  }

  /** The pause between ticks; only the end of the process interrupts it. */
  function Sleep(env: Env, s: State): (o: Out<()>)
    ensures Consumes(s, o.s) && o.s == s.(script := o.s.script)
    ensures o.Next? ==> |o.s.script| < |s.script|
    ensures Good(env, s) ==> Good(env, o.s)
  {
    match Call(env, s)
    case Fail(s1, Thrown(_)) => Next(s1, ())
    case Fail(s1, Stopped) => Fail(s1, Stopped)
    case Next(s1, _) => Next(s1, ())
  }

  /** One tick at a time; a thrown tick is logged and the loop goes on; a sleep follows each tick. */
  function FollowLoop(env: Env, s: State): (t: State)
    ensures Consumes(s, t) && s.discoveries <= t.discoveries
    ensures Good(env, s) ==> Good(env, t)
    ensures HaltNamed(s) ==> HaltNamed(t)
    ensures StoreErrorsPlain(s.script) && HaltPermanent(s) ==> HaltPermanent(t)
    decreases |s.script|
  {
    var o := Tick(env, s);
    if o.Fail? && o.why.Stopped? then o.s else
    match Sleep(env, o.s)
    case Fail(s1, _) => s1
    case Next(s1, _) => FollowLoop(env, s1)
  }

  /** One process: an error before the follow loop ends it. */
  function Lifetime(env: Env, s: State): (t: State)
    ensures Consumes(s, t) && s.discoveries <= t.discoveries
    ensures s.script != [] ==> |t.script| < |s.script|
    ensures Durable(env, s.store, s.discoveries) && Faithful(s.script) ==>
      Durable(env, t.store, t.discoveries) && Faithful(t.script)
    ensures HaltNamed(t)
    ensures StoreErrorsPlain(s.script) ==> HaltPermanent(t)
  {
    match InitCursor(env, s.(mem := FreshMem(env)))
    case Fail(s1, _) => s1
    case Next(s1, _) =>
      match CatchUpToHead(env, s1)
      case Fail(s2, _) => s2
      case Next(s2, _) => FollowLoop(env, s2)
  }

  /** Restarts until the script is used up: the state observed at that await. */
  function Service(env: Env, s: State): (t: State)
    ensures s.discoveries <= t.discoveries
    decreases |s.script|
  {
    if s.script == [] then s else Service(env, Lifetime(env, s))
  }

  /** Nothing stored, nothing running, and what is going to be answered. */
  function Outset(env: Env, script: seq<Reply>): State {
    State(Store(map[], {}, []), FreshMem(env), script, [])
  }

  function Observed(env: Env, script: seq<Reply>): State { Service(env, Outset(env, script)) }

  /** Signature lists reach the heads answered before them, and no discovery of the run has a gap. */
  ghost predicate SoundListing(env: Env, script: seq<Reply>) {
    Faithful(script) && AllGapFree(env, Observed(env, script).discoveries)
  }

  // ---------------------------------------------------------------- every run

  /** The durable invariant holds at every await of every run. */
  lemma {:induction false} ServiceKeeps(env: Env, s: State)
    requires Durable(env, s.store, s.discoveries) && Faithful(s.script)
    ensures Durable(env, Service(env, s).store, Service(env, s).discoveries)
    decreases |s.script|
  {
    if s.script != [] { ServiceKeeps(env, Lifetime(env, s)); }
  }

  /**
   Whatever crashes, throws or restarts happen at whatever await: a relevant slot at or below the stored
   watermark has all its rows and parse refusals, or its missing block is on record, or it was a hole of a discovery
   of the run.
   */
  lemma DurableCompleteness(env: Env, script: seq<Reply>, slot: int)
    requires Faithful(script)
    requires Observed(env, script).store.GetCursor().Some? && env.Relevant(slot)
    requires env.startSlot <= slot <= Observed(env, script).store.GetCursor().value.last
    ensures var t := Observed(env, script);
      || MissingBlock(slot) in t.store.refusals
      || (&& SlotTable(env, slot).Keys <= t.store.payloads.Keys
          && forall tx: nat, key ::
               tx < |env.block(slot)| && key in env.block(slot)[tx].refusals ==>
               ParseRefusal(slot, tx, key) in t.store.refusals)
      || Missed(env, t.discoveries, slot)
  {
    ServiceKeeps(env, Outset(env, script));
    DurableAccounts(env, Observed(env, script), slot);
  }

  lemma DurableAccounts(env: Env, t: State, slot: int)
    requires Durable(env, t.store, t.discoveries) && t.store.GetCursor().Some? && env.Relevant(slot)
    requires env.startSlot <= slot <= t.store.GetCursor().value.last
    ensures Settled(env, t.store, slot) || Missed(env, t.discoveries, slot)
  {
    assert Accounted(env, t.store, t.discoveries, slot);
  }

  /** So a run has lost nothing up to its stored watermark exactly when every hole up to there is settled. */
  lemma CompleteRunIff(env: Env, script: seq<Reply>)
    requires Faithful(script) && Observed(env, script).store.GetCursor().Some?
    ensures var t := Observed(env, script);
      var last := t.store.GetCursor().value.last;
      CompleteUpTo(env, t.store, last) <==>
      forall d, x :: d in t.discoveries && Hole(env, d, x) && x <= last ==> Settled(env, t.store, x)
  {
    ServiceKeeps(env, Outset(env, script));
    CompleteIff(env, Observed(env, script));
  }

  lemma CompleteIff(env: Env, t: State)
    requires Durable(env, t.store, t.discoveries) && t.store.GetCursor().Some?
    ensures var last := t.store.GetCursor().value.last;
      CompleteUpTo(env, t.store, last) <==>
      forall d, x :: d in t.discoveries && Hole(env, d, x) && x <= last ==> Settled(env, t.store, x)
  {
    forall d, x | d in t.discoveries && Hole(env, d, x) ensures env.Relevant(x) && env.startSlot <= x {
      HoleIsRelevant(env, d, x);
    }
  }

  // ---------------------------------------------------------------- halting and /ready

  datatype ReadyPayload = ReadyPayload(ready: bool, bootstrap: bool, incident: Option<Incident>, lag: int, last: int)
  datatype Surface = CaughtUp | BootstrapIncomplete | IncidentSurface | Fallback

  function BuildReadyPayload(m: Mem): ReadyPayload {
    ReadyPayload(m.IsReady(), m.bootstrap, m.incident, m.lag, m.last)
  }

  /** `Fallback` is the source's last branch, which answers "bootstrap_incomplete" without a bootstrap. */
  function ClassifyReadySurface(p: ReadyPayload): Surface {
    if p.ready then CaughtUp
    else if p.bootstrap then BootstrapIncomplete
    else if p.incident.Some? then IncidentSurface
    else Fallback
  }

  lemma {:induction false} ServiceHaltNamed(env: Env, s: State)
    requires HaltNamed(s)
    ensures HaltNamed(Service(env, s))
    decreases |s.script|
  {
    if s.script != [] { ServiceHaltNamed(env, Lifetime(env, s)); }
  }

  /** In every state of every run a halt is explained, so the surface never falls through. */
  lemma ReadySurfaceIsNamed(env: Env, script: seq<Reply>)
    ensures var m := Observed(env, script).mem;
      && ClassifyReadySurface(BuildReadyPayload(m)) != Fallback
      && (ClassifyReadySurface(BuildReadyPayload(m)) == CaughtUp <==> !m.halted && !m.bootstrap && m.incident == None)
  {
    ServiceHaltNamed(env, Outset(env, script));
  }

  lemma {:induction false} ServiceHaltPermanent(env: Env, s: State)
    requires StoreErrorsPlain(s.script) && HaltPermanent(s)
    ensures HaltPermanent(Service(env, s))
    decreases |s.script|
  {
    if s.script != [] { ServiceHaltPermanent(env, Lifetime(env, s)); }
  }

  ghost predicate StoreErrorsIn(script: seq<Reply>, classes: set<Err>) {
    forall r :: r in script && r.Throw? ==> r.onStore in classes
  }

  ghost predicate HaltsArePermanent(classes: set<Err>) {
    forall env: Env, script :: StoreErrorsIn(script, classes) ==> HaltPermanent(Observed(env, script))
  }

  function Answering(head: int, firstAvailable: int): Reply { Ok(Answer(head, firstAvailable, {}, 0, false)) }

  lemma FirstInit(env: Env, s: State)
    requires s.store.journal == [] && s.mem == FreshMem(env)
    requires |s.script| >= 2 && s.script[0].Ok? && s.script[1].Ok?
    ensures InitCursor(env, s) ==
      Next(s.(store := s.store.(journal := [Cursor(env.startSlot - 1, true, None)]), script := s.script[2..]), ())
  {
    var s1 := s.(script := s.script[1..]);
    assert Write(s, s.store) == Next(s1, ());
    assert [] + [CursorOf(s.mem)] == [Cursor(env.startSlot - 1, true, None)];
    assert s1.script[1..] == s.script[2..];
    assert PersistCursor(env, s1) ==
      Next(s.(store := s.store.(journal := [Cursor(env.startSlot - 1, true, None)]), script := s.script[2..]), ());
  }

  lemma UnreachableCatchUp(env: Env, s: State)
    requires !s.mem.halted && s.mem.incident == None
    requires |s.script| >= 2 && s.script[0].Throw? && s.script[0].onRpc == Transport && s.script[1].Ok?
    ensures var m := s.mem.(incident := Some(RpcUnreachable));
      var st := s.store.(journal := s.store.journal + [CursorOf(m)]);
      CatchUpToHead(env, s) == Next(State(st, m, s.script[2..], s.discoveries), ())
  {
    var s1 := s.(script := s.script[1..]);
    assert Call(env, s) == Fail(s1, Thrown(Transport));
    assert CatchUpToHead(env, s) == Rescue(env, s1, Thrown(Transport));
    assert Rescue(env, s1, Thrown(Transport)) == RecordIncident(env, s1, RpcUnreachable, None);
    assert s1.script[1..] == s.script[2..];
  }

  lemma RetentionFails(env: Env, s: State, e: Err)
    requires 5 > env.startSlot && s.script == [Answering(0, 5), Throw(Other, e, false), Answering(0, 0)]
    ensures AssertStartupRetention(env, s, 5) ==
      Fail(s.(mem := s.mem.(halted := true, incident := Some(StartupRetentionUnavailable)), script := s.script[2..]),
        Thrown(e))
  {
    var s1 := s.(script := s.script[1..]);
    assert Call(env, s) == Next(s1, Answer(0, 5, {}, 0, false));
    var s2 := s1.(mem := s.mem.(halted := true, incident := Some(StartupRetentionUnavailable)));
    assert s1.mem.(incident := Some(StartupRetentionUnavailable)).(halted := true) == s2.mem;
    var id := IncidentRefusal(StartupRetentionUnavailable, Some(env.startSlot));
    assert Write(s2, s2.store.(refusals := s2.store.refusals + {id})) == Fail(s2.(script := s.script[2..]), Thrown(e));
  }

  lemma RescueRecords(env: Env, s: State, e: Err)
    requires e != Other && s.script == [Answering(0, 0)]
    ensures var o := Rescue(env, s, Thrown(e));
      o.Next? && o.s.script == [] && o.s.mem == s.mem.(incident := Classify(e))
  {
  }

  /** A retention refusal whose own write fails with a class the RPC classifier recognises. */
  lemma MisclassifiedTick(env: Env, s: State, e: Err)
    requires e != Other && s.mem.bootstrap && IsRetriable(s.mem.incident) && 5 > env.startSlot
    requires s.script == [Answering(5, 0), Answering(0, 5), Throw(Other, e, false), Answering(0, 0)]
    ensures var t := FollowLoop(env, s); t.mem.halted && t.mem.incident == Classify(e) && t.script == []
  {
    MisclassifiedCatchUp(env, s, e);
    var o := Tick(env, s);
    assert Sleep(env, o.s) == Fail(o.s, Stopped);
  }

  lemma MisclassifiedCatchUp(env: Env, s: State, e: Err)
    requires e != Other && s.mem.bootstrap && IsRetriable(s.mem.incident) && 5 > env.startSlot
    requires s.script == [Answering(5, 0), Answering(0, 5), Throw(Other, e, false), Answering(0, 0)]
    ensures var o := Tick(env, s); o.Next? && o.s.mem.halted && o.s.mem.incident == Classify(e) && o.s.script == []
  {
    var s0 := s.(mem := Forgive(s.mem));
    var s1 := s0.(script := s.script[1..]);
    assert Call(env, s0) == Next(s1, Answer(5, 0, {}, 0, false));
    RetentionFails(env, s1, e);
    var s2 := AssertStartupRetention(env, s1, 5).s;
    RescueRecords(env, s2, e);
    assert Tick(env, s) == Rescue(env, s2, Thrown(e));
  }

  /** Start-up against an unreachable RPC leaves a live loop with a retriable incident. */
  lemma UnreachableStart(env: Env, s: State) returns (t: State)
    requires s.store.journal == [] && s.mem == FreshMem(env)
    requires |s.script| >= 4 && s.script[0].Ok? && s.script[1].Ok? && s.script[3].Ok?
    requires s.script[2].Throw? && s.script[2].onRpc == Transport
    ensures Lifetime(env, s) == FollowLoop(env, t)
    ensures t.mem.bootstrap && IsRetriable(t.mem.incident) && t.script == s.script[4..]
  {
    FirstInit(env, s);
    var s1 := InitCursor(env, s).s;
    UnreachableCatchUp(env, s1);
    t := CatchUpToHead(env, s1).s;
  }

  /** So the loop can stay halted on a retriable incident. */
  lemma RetentionWriteMisclassified(e: Err) returns (script: seq<Reply>)
    requires e != Other
    ensures StoreErrorsIn(script, {e})
    ensures !HaltPermanent(Observed(QuietEnv(), script))
  {
    script := MisleadingScript(e);
    MisleadingErrors(e);
    MisleadingRun(QuietEnv(), e);
  }

  lemma MisleadingErrors(e: Err)
    ensures StoreErrorsIn(MisleadingScript(e), {e})
  {
  }

  /** A chain without followed transactions. */
  function QuietEnv(): Env { Env(1, 100, false, _ => [], []) }

  function MisleadingScript(e: Err): seq<Reply> {
    [Answering(0, 0), Answering(0, 0), Throw(Transport, e, false), Answering(0, 0),
     Answering(5, 0), Answering(0, 5), Throw(Other, e, false), Answering(0, 0)]
  }

  lemma MisleadingRun(env: Env, e: Err)
    requires e != Other && env.startSlot < 5
    ensures !HaltPermanent(Observed(env, MisleadingScript(e)))
  {
    var s := Outset(env, MisleadingScript(e));
    var t := UnreachableStart(env, s);
    MisclassifiedTick(env, t, e);
    ServiceOnce(env, s);
  }

  lemma ServiceOnce(env: Env, s: State)
    requires s.script != [] && Lifetime(env, s).script == []
    ensures Service(env, s) == Lifetime(env, s)
  {
  }

  /** Halts are permanent in every run exactly when the store throws no class the RPC classifier recognises. */
  lemma HaltsArePermanentIff(classes: set<Err>)
    ensures HaltsArePermanent(classes) <==> Budget !in classes && Transport !in classes
  {
    if Budget !in classes && Transport !in classes {
      forall env: Env, script | StoreErrorsIn(script, classes) ensures HaltPermanent(Observed(env, script)) {
        ServiceHaltPermanent(env, Outset(env, script));
      }
    } else {
      var e := if Budget in classes then Budget else Transport;
      var script := RetentionWriteMisclassified(e);
      assert StoreErrorsIn(script, classes);
    }
  }
}
