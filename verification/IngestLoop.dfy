/**
 The ingest loop in the source's own form: an object whose fields are updated step by step
 (`createIngestLoop` in svm-ingest/ingest-loop.ts over the writer of svm-ingest/svm-raw-writer.ts).
 Every method is proved equal to the function of the same name in the ingest modules, so what is proved
 there about all runs holds of these methods.
 */
module IngestLoopObject {
  import opened Common
  import opened Ingest
  import opened IngestSlots
  import opened IngestDiscovery
  import opened IngestCatchUp
  import IngestRuns

  /** The result of an async method: a value, or why there is none. */
  datatype Flow<+T> = Return(value: T) | Raise(why: Why)
  {
    predicate IsFailure() { Raise? }
    function PropagateFailure<U>(): Flow<U> requires Raise? { Raise(why) }
    function Extract(): T requires Return? { value }
  }

  function Lift<T>(s: State, f: Flow<T>): Out<T> {
    match f
    case Return(v) => Next(s, v)
    case Raise(why) => Fail(s, why)
  }

  class IngestLoop {
    const env: Env
    var payloads: map<RowId, string>
    var refusals: set<RefusalId>
    var journal: seq<Cursor>
    var halted: bool
    var last: int
    var bootstrap: bool
    var incident: Option<Incident>
    var lag: int
    var script: seq<Reply>
    var discoveries: seq<Discovery>

    ghost function St(): State
      reads this
    {
      State(Store(payloads, refusals, journal), Mem(halted, last, bootstrap, incident, lag), script, discoveries)
    }

    constructor (env: Env, st: Store, script: seq<Reply>)
      ensures this.env == env
      ensures St() == State(st, Mem(false, env.startSlot - 1, true, None, 0), script, [])
    {
      this.env, this.script, discoveries := env, script, [];
      payloads, refusals, journal := st.payloads, st.refusals, st.journal;
      halted, last, bootstrap, incident, lag := false, env.startSlot - 1, true, None, 0;
    }

    // -------------------------------------------------------------- awaits

    method Call() returns (f: Flow<Answer>)
      modifies this
      ensures Lift(St(), f) == Ingest.Call(env, old(St()))
    {
      if script == [] { return Raise(Stopped); }
      var r := script[0];
      script := script[1..];
      match r {
        case Ok(a) => f := Return(a);
        case Throw(e, _, _) => f := Raise(Thrown(e));
        case Crash(_) => f := Raise(Stopped);
      }
    }

    method Write(p: map<RowId, string>, q: set<RefusalId>, j: seq<Cursor>) returns (f: Flow<()>)
      modifies this
      ensures Lift(St(), f) == Ingest.Write(old(St()), Store(p, q, j))
    {
      if script == [] { return Raise(Stopped); }
      var r := script[0];
      script := script[1..];
      var applied := r.Ok? || r.applied;
      if applied { payloads, refusals, journal := p, q, j; }
      match r {
        case Ok(_) => f := Return(());
        case Throw(_, e, _) => f := Raise(Thrown(e));
        case Crash(_) => f := Raise(Stopped);
      }
    }

    method PersistCursor() returns (f: Flow<()>)
      modifies this
      ensures Lift(St(), f) == Ingest.PersistCursor(env, old(St()))
    {
      f := Write(payloads, refusals, journal + [Cursor(last, bootstrap, incident)]);
    }

    method InsertRefusal(id: RefusalId) returns (f: Flow<()>)
      modifies this
      ensures Lift(St(), f) == Ingest.InsertRefusal(env, old(St()), id)
    {
      f := Write(payloads, refusals + {id}, journal);
    }

    method InsertPayload(slot: int, tx: nat, row: Payload) returns (f: Flow<()>)
      modifies this
      ensures Lift(St(), f) == IngestSlots.InsertPayload(env, old(St()), slot, tx, row)
    {
      var k := RowId(slot, tx, row.log);
      f := Write(if k in payloads then payloads else payloads[k := row.body], refusals, journal);
    }

    // -------------------------------------------------------------- incidents

    method RecordIncident(i: Incident, at: Option<int>) returns (f: Flow<()>)
      modifies this
      ensures Lift(St(), f) == Ingest.RecordIncident(env, old(St()), i, at)
    {
      incident := Some(i);
      if !IsRetriable(Some(i)) {
        halted := true;
        var _ :- InsertRefusal(IncidentRefusal(i, at));
      }
      f := PersistCursor();
    }

    method Rescue(why: Why) returns (f: Flow<()>)
      modifies this
      ensures Lift(St(), f) == Ingest.Rescue(env, old(St()), why)
    {
      if why.Stopped? { return Raise(why); }
      var c := Classify(why.e);
      if c.None? { return Raise(why); }
      f := RecordIncident(c.value, None);
    }

    method ClearRetriableIncident() returns (f: Flow<()>)
      modifies this
      ensures Lift(St(), f) == Ingest.ClearRetriableIncident(env, old(St()))
    {
      if !IsRetriable(incident) { return Return(()); }
      incident := None;
      f := PersistCursor();
    }

    // -------------------------------------------------------------- one slot

    method InsertPayloads(slot: int, tx: nat, rows: seq<Payload>) returns (f: Flow<()>)
      modifies this
      ensures Lift(St(), f) == IngestSlots.InsertPayloads(env, old(St()), slot, tx, rows)
    {
      for i := 0 to |rows|
        invariant IngestSlots.InsertPayloads(env, St(), slot, tx, rows[i..]) ==
          IngestSlots.InsertPayloads(env, old(St()), slot, tx, rows)
      {
        assert rows[i..][1..] == rows[i + 1..];
        var _ :- InsertPayload(slot, tx, rows[i]);
      }
      f := Return(());
    }

    method InsertParseRefusals(slot: int, tx: nat, keys: seq<string>) returns (f: Flow<()>)
      modifies this
      ensures Lift(St(), f) == IngestSlots.InsertParseRefusals(env, old(St()), slot, tx, keys)
    {
      for i := 0 to |keys|
        invariant IngestSlots.InsertParseRefusals(env, St(), slot, tx, keys[i..]) ==
          IngestSlots.InsertParseRefusals(env, old(St()), slot, tx, keys)
      {
        assert keys[i..][1..] == keys[i + 1..];
        var _ :- InsertRefusal(ParseRefusal(slot, tx, keys[i]));
      }
      f := Return(());
    }

    method CaptureMetadata() returns (f: Flow<()>)
      modifies this
      ensures Lift(St(), f) == IngestSlots.CaptureMetadata(env, old(St()))
    {
      var _ :- Call();
      f := Write(payloads, refusals, journal);
    }

    method Project(rows: seq<Payload>) returns (f: Flow<()>)
      modifies this
      ensures Lift(St(), f) == IngestSlots.Project(env, old(St()), rows)
    {
      if env.projector && rows != [] { f := Write(payloads, refusals, journal); } else { f := Return(()); }
    }

    method IngestBlock(slot: int) returns (f: Flow<()>)
      modifies this
      ensures Lift(St(), f) == IngestSlots.IngestBlock(env, old(St()), slot, 0)
    {
      var txs := env.block(slot);
      for i := 0 to |txs|
        invariant IngestSlots.IngestBlock(env, St(), slot, i) == IngestSlots.IngestBlock(env, old(St()), slot, 0)
      {
        var _ :- InsertPayloads(slot, i, txs[i].payloads);
        var _ :- CaptureMetadata();
        var _ :- InsertParseRefusals(slot, i, txs[i].refusals);
        var _ :- Project(txs[i].payloads);
      }
      f := Return(());
    }

    method IngestDiscoveredSlot(slot: int) returns (f: Flow<()>)
      modifies this
      ensures Lift(St(), f) == IngestSlots.IngestDiscoveredSlot(env, old(St()), slot)
    {
      var outcome :- Call();
      if slot in outcome.gone {
        var _ :- InsertRefusal(MissingBlock(slot));
      } else {
        var _ :- IngestBlock(slot);
      }
      last, incident := slot, None;
      f := PersistCursor();
    }

    // -------------------------------------------------------------- slot lists

    method TakeSlots(slots: seq<int>, firstAvailable: int) returns (f: Flow<bool>)
      modifies this
      ensures Lift(St(), f) == IngestSlots.TakeSlots(env, old(St()), slots, firstAvailable)
    {
      for i := 0 to |slots|
        invariant IngestSlots.TakeSlots(env, St(), slots[i..], firstAvailable) ==
          IngestSlots.TakeSlots(env, old(St()), slots, firstAvailable)
      {
        assert slots[i..][1..] == slots[i + 1..];
        if halted { return Return(false); }
        if slots[i] < firstAvailable {
          var _ :- RecordIncident(StartupRetentionUnavailable, Some(slots[i]));
          return Return(false);
        }
        if slots[i] <= last { continue; }
        var r := IngestDiscoveredSlot(slots[i]);
        if r.Raise? {
          var _ :- Rescue(r.why);
          return Return(false);
        }
      }
      f := Return(!halted);
    }

    method ProcessSlotList(slots: seq<int>, head: int) returns (f: Flow<bool>)
      modifies this
      ensures Lift(St(), f) == IngestSlots.ProcessSlotList(env, old(St()), slots, head)
    {
      if !bootstrap {
        var pending := Above(slots, last);
        if pending != [] && pending[0] < head - env.maxLagSlots {
          var _ :- RecordIncident(CatchupWindowExceeded, Some(pending[0]));
          lag := head - pending[0];
          return Return(false);
        }
      }
      var first := Call();
      if first.Raise? {
        var _ :- Rescue(first.why);
        return Return(false);
      }
      f := TakeSlots(slots, first.value.firstAvailable);
    }

    // -------------------------------------------------------------- discovery

    /** One call a program; the slots of all of them, sorted and without repeats. */
    method DiscoverSlots(after: Option<int>) returns (f: Flow<Discovery>)
      modifies this
      ensures St() == IngestDiscovery.PollPrograms(env, old(St()), [], true).s
      ensures f == (
        match IngestDiscovery.PollPrograms(env, old(St()), [], true)
        case Next(_, (tips, floors)) => Return(Discovery(after, tips, ListedAfter(env, after, tips), floors))
        case Fail(_, why) => Raise(why))
    {
      var tips, slots, floors := [], [], true;
      for p := 0 to |env.programs|
        invariant |tips| == p && slots == Listed(env, tips)
        invariant IngestDiscovery.PollPrograms(env, St(), tips, floors) ==
          IngestDiscovery.PollPrograms(env, old(St()), [], true)
      {
        var page :- Call();
        slots := Merge(slots, SlotsOf(env, p, page.tip));
        assert (tips + [page.tip])[..p] == tips;
        tips, floors := tips + [page.tip], floors && page.floors;
      }
      f := Return(Discovery(after, tips, if after.Some? then Above(slots, after.value) else slots, floors));
    }

    method DiscoverOrIncident(after: Option<int>) returns (f: Flow<Option<Discovery>>)
      modifies this
      ensures Lift(St(), f) == IngestCatchUp.DiscoverOrIncident(env, old(St()), after)
    {
      var r := DiscoverSlots(after);
      if r.Return? {
        discoveries := discoveries + [r.value];
        return Return(Some(r.value));
      }
      var why := r.why;
      if why == Thrown(Other) {
        var recorded := RecordIncident(DiscoveryIncomplete, None);
        if recorded.Return? { return Return(None); }
        why := recorded.why;
      }
      var _ :- Rescue(why);
      f := Return(None);
    }

    method Enumerate(head: int) returns (f: Flow<Option<Discovery>>)
      modifies this
      ensures Lift(St(), f) == IngestCatchUp.Enumerate(env, old(St()), head)
    {
      var d :- DiscoverOrIncident(None);
      if d.None? {
        lag := head - last;
        return Return(None);
      }
      if bootstrap && !d.value.floors {
        var _ :- RecordIncident(BootstrapRangeNotEnumerated, None);
        lag := head - last;
        return Return(None);
      }
      f := Return(d);
    }

    // -------------------------------------------------------------- catch-up

    method AssertStartupRetention(head: int) returns (f: Flow<()>)
      modifies this
      ensures Lift(St(), f) == IngestCatchUp.AssertStartupRetention(env, old(St()), head)
    {
      var a :- Call();
      if env.startSlot > head || env.startSlot >= a.firstAvailable { return Return(()); }
      var _ :- RecordIncident(StartupRetentionUnavailable, Some(env.startSlot));
      f := Raise(Thrown(Other));
    }

    method SettleExtras(extras: seq<int>, head: int) returns (f: Flow<bool>)
      modifies this
      ensures Lift(St(), f) == IngestCatchUp.SettleExtras(env, old(St()), extras, head)
    {
      if extras == [] { return Return(true); }
      var ok :- ProcessSlotList(extras, head);
      if !ok {
        lag := head - last;
        return Return(false);
      }
      var again :- Enumerate(head);
      if again.None? { return Return(false); }
      var still := Above(again.value.slots, last);
      if still == [] { return Return(true); }
      var _ :- RecordIncident(DiscoveryIncomplete, Some(still[0]));
      lag := head - last;
      f := Return(false);
    }

    method CompleteCatchUp(head: int, nothingFound: bool) returns (f: Flow<()>)
      modifies this
      ensures Lift(St(), f) == IngestCatchUp.CompleteCatchUp(env, old(St()), head, nothingFound)
    {
      if bootstrap {
        if last < env.startSlot - 1 { last := env.startSlot - 1; }
        if nothingFound { last := Max(last, head); }
        bootstrap := false;
      }
      incident := None;
      assert St() == old(St()).(mem := IngestCatchUp.CompletedMem(env, old(St()).mem, head, nothingFound));
      var _ :- PersistCursor();
      lag := 0;
      f := Return(());
    }

    method CatchUpFrom(head: int) returns (f: Flow<()>)
      modifies this
      ensures Lift(St(), f) == IngestCatchUp.CatchUpFrom(env, old(St()), head)
    {
      var primary :- Enumerate(head);
      if primary.None? { return Return(()); }
      var slots := primary.value.slots;
      var ok :- ProcessSlotList(slots, head);
      if !ok {
        lag := head - last;
        return Return(());
      }
      var verify :- Enumerate(head);
      if verify.None? { return Return(()); }
      var extras := Above(verify.value.slots, last);
      var settled :- SettleExtras(extras, head);
      if !settled { return Return(()); }
      f := CompleteCatchUp(head, slots == [] && extras == []);
    }

    method CatchUpToHead() returns (f: Flow<()>)
      modifies this
      ensures Lift(St(), f) == IngestCatchUp.CatchUpToHead(env, old(St()))
    {
      halted := false;
      if incident == Some(StartupRetentionUnavailable) || IsRetriable(incident) { incident := None; }
      var head := Call();
      if head.Raise? {
        f := Rescue(head.why);
        return;
      }
      var retained := AssertStartupRetention(head.value.head);
      if retained.Raise? {
        f := Rescue(retained.why);
        return;
      }
      f := CatchUpFrom(head.value.head);
    }

    // -------------------------------------------------------------- live follow

    method FollowOnce() returns (f: Flow<()>)
      modifies this
      ensures Lift(St(), f) == IngestCatchUp.FollowOnce(env, old(St()))
    {
      if halted || bootstrap { return Return(()); }
      var r := Call();
      if r.Raise? {
        f := Rescue(r.why);
        return;
      }
      f := FollowFrom(r.value.head);
    }

    method FollowFrom(head: int) returns (f: Flow<()>)
      modifies this
      ensures Lift(St(), f) == IngestCatchUp.FollowFrom(env, old(St()), head)
    {
      var d :- DiscoverOrIncident(Some(last));
      if d.None? {
        lag := head - last;
        return Return(());
      }
      var _ :- ClearRetriableIncident();
      f := FollowPending(Above(d.value.slots, last), head);
    }

    method FollowPending(pending: seq<int>, head: int) returns (f: Flow<()>)
      modifies this
      ensures Lift(St(), f) == IngestCatchUp.FollowPending(env, old(St()), pending, head)
    {
      lag := if pending != [] then head - pending[0] else 0;
      var _ :- ProcessSlotList(pending, head);
      if !halted && pending == [] { lag := 0; }
      f := Return(());
    }

    // -------------------------------------------------------------- service

    method InitCursor() returns (f: Flow<()>)
      modifies this
      ensures Lift(St(), f) == IngestRuns.InitCursor(env, old(St()))
    {
      var _ :- Write(payloads, refusals, journal);
      if journal != [] {
        var existing := journal[|journal| - 1];
        last, bootstrap, incident := existing.last, existing.bootstrap, existing.incident;
        if incident.Some? && !IsRetriable(incident) { halted := true; }
        return Return(());
      }
      var _ :- PersistCursor();
      last := env.startSlot - 1;
      f := Return(());
    }

    method Tick() returns (f: Flow<()>)
      modifies this
      ensures Lift(St(), f) == IngestRuns.Tick(env, old(St()))
    {
      if bootstrap { f := CatchUpToHead(); } else { f := FollowOnce(); }
    }

    method Sleep() returns (f: Flow<()>)
      modifies this
      ensures Lift(St(), f) == IngestRuns.Sleep(env, old(St()))
    {
      var r := Call();
      f := if r.Raise? && r.why.Stopped? then Raise(Stopped) else Return(());
    }

    method FollowLoop()
      modifies this
      ensures St() == IngestRuns.FollowLoop(env, old(St()))
    {
      while true
        invariant IngestRuns.FollowLoop(env, St()) == IngestRuns.FollowLoop(env, old(St()))
        decreases |script|
      {
        var tick := Tick();
        if tick.Raise? && tick.why.Stopped? { return; }
        var slept := Sleep();
        if slept.Raise? { return; }
      }
    }

    /** One process, from start-up on. */
    method RunProcess() returns (f: Flow<()>)
      requires St().mem == IngestRuns.FreshMem(env)
      modifies this
      ensures St() == IngestRuns.Lifetime(env, old(St()))
    {
      var _ :- InitCursor();
      var _ :- CatchUpToHead();
      FollowLoop();
      f := Return(());
    }
  }
}
