/**
 Discovery, the bootstrap pass with its verification polls, and the live tick
 (svm-ingest/ingest-loop.ts, discoverOrIncident, catchUpToHead and followOnce).
 */
module IngestCatchUp {
  import opened Common
  import opened Ingest
  import opened IngestSlots
  import opened IngestDiscovery

  // ---------------------------------------------------------------- discovery

  /** Live follow passes the watermark and lists only slots above it; bootstrap passes none. */
  function DiscoverOrIncident(env: Env, s: State, after: Option<int>): (o: Out<Option<Discovery>>)
    ensures Consumes(s, o.s)
    ensures Good(env, s) ==> Good(env, o.s)
    ensures o.s.mem == s.mem.(incident := o.s.mem.incident)
    ensures o.Next? && o.v.Some? ==>
      && o.s.mem == s.mem && o.s.store == s.store
      && o.s.discoveries == s.discoveries + [o.v.value]
      && FromPolls(env, o.v.value) && o.v.value.after == after
      && (forall h :: AllCover(s.script, h) ==> Reach(o.v.value.tips, h))
    ensures o.Fail? || o.v.None? ==> o.s.discoveries == s.discoveries
    ensures HaltNamed(s) ==> HaltNamed(o.s)
    ensures StoreErrorsPlain(s.script) && HaltPermanent(s) && !s.mem.halted ==> HaltPermanent(o.s)
  {
    match PollPrograms(env, s, [], true)
    case Next(s1, (tips, floors)) =>
      assert forall h :: AllCover(s.script, h) ==> Reach(tips, h) by {
        forall h | AllCover(s.script, h) ensures Reach(tips, h) { PollsReach(env, s, [], true, h); }
      }
      var d := Discovery(after, tips, ListedAfter(env, after, tips), floors);
      assert Good(env, s1) ==> Good(env, s1.(discoveries := s1.discoveries + [d])) by {
        if Good(env, s1) { GoodWithMore(env, s1, d); }
      }
      Next(s1.(discoveries := s1.discoveries + [d]), Some(d))
    case Fail(s1, why) =>
      // paging failed half-way: the discovery owner answers ok:false instead of throwing
      var r := if why == Thrown(Other) then RecordIncident(env, s1, DiscoveryIncomplete, None) else Fail(s1, why);
      match r
      case Next(s2, _) => Next(s2, None)
      case Fail(s2, why2) =>
        var (s3, _) :- Rescue(env, s2, why2);
        Next(s3, None)
  }

  /** A bootstrap discovery: without every program floor it ends the pass with a named incident. */
  function Enumerate(env: Env, s: State, head: int): (o: Out<Option<Discovery>>)
    ensures Consumes(s, o.s) && s.discoveries <= o.s.discoveries
    ensures Good(env, s) ==> Good(env, o.s)
    ensures o.s.mem == s.mem.(incident := o.s.mem.incident, lag := o.s.mem.lag)
    ensures o.Next? && o.v.Some? ==>
      && o.s.mem == s.mem && o.s.store == s.store
      && (s.mem.bootstrap ==> o.v.value.floors)
      && o.s.discoveries == s.discoveries + [o.v.value]
      && FromPolls(env, o.v.value) && o.v.value.after == None
      && (forall h :: AllCover(s.script, h) ==> Reach(o.v.value.tips, h))
    ensures HaltNamed(s) ==> HaltNamed(o.s)
    ensures StoreErrorsPlain(s.script) && HaltPermanent(s) && !s.mem.halted ==> HaltPermanent(o.s)
  {
    var (s1, d) :- DiscoverOrIncident(env, s, None);
    if d.None? then Next(SetLag(s1, head - s1.mem.last), None)
    else if s1.mem.bootstrap && !d.value.floors then
      var (s2, _) :- RecordIncident(env, s1, BootstrapRangeNotEnumerated, None);
      Next(SetLag(s2, head - s2.mem.last), None)
    else Next(s1, d)
  }

  // ---------------------------------------------------------------- catch-up

  /** A required slot at or before the tip must still be served. */
  function AssertStartupRetention(env: Env, s: State, head: int): (o: Out<()>)
    ensures Consumes(s, o.s) && o.s.discoveries == s.discoveries
    ensures Good(env, s) ==> Good(env, o.s)
    ensures o.s.mem.bootstrap == s.mem.bootstrap && (o.Next? ==> o.s.mem == s.mem)
    ensures o.Fail? && !s.mem.halted && o.s.mem.halted && StoreErrorsPlain(s.script) ==> o.why.Thrown? ==>
      o.why.e == Other
    ensures HaltNamed(s) ==> HaltNamed(o.s)
    ensures StoreErrorsPlain(s.script) && HaltPermanent(s) && !s.mem.halted ==> HaltPermanent(o.s)
  {
    var (s1, a) :- Call(env, s);
    if env.startSlot > head || env.startSlot >= a.firstAvailable then Next(s1, ()) else
    var (s2, _) :- RecordIncident(env, s1, StartupRetentionUnavailable, Some(env.startSlot));
    Fail(s2, Thrown(Other))
  }

  /** Slots the verification re-poll still found are taken, and one more poll must find none. */
  function SettleExtras(env: Env, s: State, extras: seq<int>, head: int): (o: Out<bool>)
    ensures Consumes(s, o.s) && s.discoveries <= o.s.discoveries
    ensures o.s.mem.bootstrap == s.mem.bootstrap
    ensures Good(env, s) && Pending(env, s.discoveries, s.mem.last, extras) ==> Good(env, o.s)
    ensures o.Next? && o.v && extras != [] ==>
      exists d ::
        o.s.discoveries == s.discoveries + [d] && (s.mem.bootstrap ==> d.floors) && Above(d.slots, o.s.mem.last) == []
    ensures extras == [] ==> o == Next(s, true)
    ensures o.Next? && o.v && !s.mem.halted ==> !o.s.mem.halted
    ensures HaltNamed(s) ==> HaltNamed(o.s)
    ensures StoreErrorsPlain(s.script) && HaltPermanent(s) && !s.mem.halted ==> HaltPermanent(o.s)
  {
    if extras == [] then Next(s, true) else
    var (s1, ok) :- ProcessSlotList(env, s, extras, head);
    if !ok then Next(SetLag(s1, head - s1.mem.last), false) else
    var (s2, again) :- Enumerate(env, s1, head);
    if again.None? then Next(s2, false) else
    var still := Above(again.value.slots, s2.mem.last);
    if still == [] then Next(s2, true) else
    var (s3, _) :- RecordIncident(env, s2, DiscoveryIncomplete, Some(still[0]));
    Next(SetLag(s3, head - s3.mem.last), false)
  }

  function CompletedMem(env: Env, m: Mem, head: int, nothingFound: bool): Mem {
    var floor := if m.bootstrap then Max(m.last, env.startSlot - 1) else m.last;
    var last := if m.bootstrap && nothingFound then Max(floor, head) else floor;
    m.(last := last, bootstrap := false, incident := None)
  }

  function CompleteCatchUp(env: Env, s: State, head: int, nothingFound: bool): (o: Out<()>)
    ensures Consumes(s, o.s) && o.s.discoveries == s.discoveries
    ensures Good(env, s) && !s.mem.halted && (nothingFound ==> NoneUpTo(env, head)) ==> Good(env, o.s)
    ensures o.s.mem.(lag := 0) == CompletedMem(env, s.mem, head, nothingFound).(lag := 0)
    ensures o.Next? ==> o.s.mem.lag == 0 && o.s.store == s.store.(journal := s.store.journal + [CursorOf(o.s.mem)])
  {
    var (s1, _) :- PersistCursor(env, s.(mem := CompletedMem(env, s.mem, head, nothingFound)));
    Next(SetLag(s1, 0), ())
  }

  /** What a full listing says of the head, and of the slots above a watermark. */
  lemma FullListing(env: Env, ds: seq<Discovery>, d: Discovery, head: int, watermark: int)
    requires FromPolls(env, d) && d.after == None && d in ds
    ensures Reach(d.tips, head) && d.slots == [] ==> NoneUpTo(env, head)
    ensures env.startSlot - 1 <= watermark ==>
      Pending(env, ds, watermark, Above(d.slots, watermark)) && Pending(env, ds, watermark, d.slots)
  {
    if Reach(d.tips, head) && d.slots == [] { EmptyMeansNone(env, d, head); }
    if env.startSlot - 1 <= watermark { PendingAbove(env, ds, d, watermark); }
  }

  /** The slots the verification poll still finds, and completion. */
  function SettleAndComplete(env: Env, s: State, extras: seq<int>, head: int, noneListed: bool): (o: Out<()>)
    ensures Consumes(s, o.s) && s.discoveries <= o.s.discoveries
    ensures
      && Good(env, s) && !s.mem.halted && Pending(env, s.discoveries, s.mem.last, extras) &&
        (noneListed ==> NoneUpTo(env, head))
      ==> Good(env, o.s)
    ensures !s.mem.halted ==> HaltNamed(o.s)
    ensures StoreErrorsPlain(s.script) && HaltPermanent(s) && !s.mem.halted ==> HaltPermanent(o.s)
  {
    var (s1, settled) :- SettleExtras(env, s, extras, head);
    if !settled then Next(s1, ()) else CompleteCatchUp(env, s1, head, noneListed && extras == [])
  }

  /** The verification poll, and what is done with its answer. */
  function VerifyCatchUp(env: Env, s: State, head: int, noneListed: bool): (o: Out<()>)
    ensures Consumes(s, o.s) && s.discoveries <= o.s.discoveries
    ensures
      && Good(env, s) && !s.mem.halted && (noneListed ==> NoneUpTo(env, head))
      ==> Good(env, o.s)
    ensures !s.mem.halted ==> HaltNamed(o.s)
    ensures StoreErrorsPlain(s.script) && HaltPermanent(s) && !s.mem.halted ==> HaltPermanent(o.s)
  {
    var (s1, verify) :- Enumerate(env, s, head);
    if verify.None? then Next(s1, ()) else
    assert verify.value in s1.discoveries;
    FullListing(env, s1.discoveries, verify.value, head, s1.mem.last);
    SettleAndComplete(env, s1, Above(verify.value.slots, s1.mem.last), head, noneListed)
  }

  /** The slots the first discovery listed are taken, then verified. */
  function TakeListing(env: Env, s: State, slots: seq<int>, head: int): (o: Out<()>)
    ensures Consumes(s, o.s) && s.discoveries <= o.s.discoveries
    ensures
      && Good(env, s) && !s.mem.halted && Pending(env, s.discoveries, s.mem.last, slots) &&
        (slots == [] ==> NoneUpTo(env, head))
     
      ==> Good(env, o.s)
    ensures HaltNamed(s) ==> HaltNamed(o.s)
    ensures StoreErrorsPlain(s.script) && HaltPermanent(s) && !s.mem.halted ==> HaltPermanent(o.s)
  {
    var (s1, ok) :- ProcessSlotList(env, s, slots, head);
    if !ok then Next(SetLag(s1, head - s1.mem.last), ()) else VerifyCatchUp(env, s1, head, slots == [])
  }

  function CatchUpFrom(env: Env, s: State, head: int): (o: Out<()>)
    ensures Consumes(s, o.s) && s.discoveries <= o.s.discoveries
    ensures Good(env, s) && !s.mem.halted && AllCover(s.script, head) ==>
      Good(env, o.s)
    ensures HaltNamed(s) ==> HaltNamed(o.s)
    ensures StoreErrorsPlain(s.script) && HaltPermanent(s) && !s.mem.halted ==> HaltPermanent(o.s)
  {
    var (s1, primary) :- Enumerate(env, s, head);
    if primary.None? then Next(s1, ()) else
    assert primary.value in s1.discoveries;
    FullListing(env, s1.discoveries, primary.value, head, s1.mem.last);
    TakeListing(env, s1, primary.value.slots, head)
  }

  /** A pass starts un-halted; a retention refusal or a retriable incident is forgotten. */
  function Forgive(m: Mem): Mem {
    if m.incident == Some(StartupRetentionUnavailable) || IsRetriable(m.incident)
    then m.(halted := false, incident := None) else m.(halted := false)
  }

  function CatchUpToHead(env: Env, s: State): (o: Out<()>)
    ensures Consumes(s, o.s) && s.discoveries <= o.s.discoveries
    ensures s.script != [] ==> |o.s.script| < |s.script|
    ensures Good(env, s) ==> Good(env, o.s)
    ensures HaltNamed(s) ==> HaltNamed(o.s)
    ensures StoreErrorsPlain(s.script) && HaltPermanent(s) ==> HaltPermanent(o.s)
  {
    match Call(env, s.(mem := Forgive(s.mem)))
    case Fail(s1, why) => Rescue(env, s1, why)
    case Next(s1, a) =>
      match AssertStartupRetention(env, s1, a.head)
      case Fail(s2, why) => Rescue(env, s2, why)
      case Next(s2, _) => CatchUpFrom(env, s2, a.head)
  }

  // ---------------------------------------------------------------- live follow

  function FollowPending(env: Env, s: State, pending: seq<int>, head: int): (o: Out<()>)
    ensures Consumes(s, o.s) && o.s.discoveries == s.discoveries
    ensures Good(env, s) && !s.mem.halted && Pending(env, s.discoveries, s.mem.last, pending) ==> Good(env, o.s)
    ensures HaltNamed(s) && !s.mem.halted ==> HaltNamed(o.s)
    ensures StoreErrorsPlain(s.script) && HaltPermanent(s) && !s.mem.halted ==> HaltPermanent(o.s)
  {
    var s1 := SetLag(s, if pending != [] then head - pending[0] else 0);
    var (s2, _) :- ProcessSlotList(env, s1, pending, head);
    Next(if !s2.mem.halted && pending == [] then SetLag(s2, 0) else s2, ())
  }

  function FollowFrom(env: Env, s: State, head: int): (o: Out<()>)
    ensures Consumes(s, o.s) && s.discoveries <= o.s.discoveries
    ensures Good(env, s) && !s.mem.halted ==> Good(env, o.s)
    ensures HaltNamed(s) && !s.mem.halted ==> HaltNamed(o.s)
    ensures StoreErrorsPlain(s.script) && HaltPermanent(s) && !s.mem.halted ==> HaltPermanent(o.s)
  {
    var (s1, d) :- DiscoverOrIncident(env, s, Some(s.mem.last));
    if d.None? then Next(SetLag(s1, head - s1.mem.last), ()) else
    var (s2, _) :- ClearRetriableIncident(env, s1);
    assert d.value in s2.discoveries;
    assert Good(env, s2) ==> Pending(env, s2.discoveries, s2.mem.last, Above(d.value.slots, s2.mem.last)) by {
      if Good(env, s2) { PendingAbove(env, s2.discoveries, d.value, s2.mem.last); }
    }
    FollowPending(env, s2, Above(d.value.slots, s2.mem.last), head)
  }

  function FollowOnce(env: Env, s: State): (o: Out<()>)
    ensures Consumes(s, o.s) && s.discoveries <= o.s.discoveries
    ensures Good(env, s) ==> Good(env, o.s)
    ensures HaltNamed(s) ==> HaltNamed(o.s)
    ensures StoreErrorsPlain(s.script) && HaltPermanent(s) ==> HaltPermanent(o.s)
  {
    if s.mem.halted || s.mem.bootstrap then Next(s, ())
    else
      match Call(env, s)
      case Fail(s1, why) => Rescue(env, s1, why)
      case Next(s1, a) =>
        FollowFrom(env, s1, a.head)
  }
}
