/**
 The svm-ingest catch-up and follow state machine (svm-ingest/ingest-loop.ts), as functions from
 one state to the next: its tables, invariants, awaits and incidents. Modules IngestSlots and
 IngestCatchUp hold the passes; IngestLoop.dfy holds the loop itself, proved equal to these functions.

 Every `await` of the source takes one reply from a script. A reply answers the call, throws, or
 ends the process; the script running out is an observation at that await. Quantifying over all
 scripts therefore covers a crash or an exception at every await, and every state visible between
 two awaits.
 */
module Ingest {
  import opened Common

  // ---------------------------------------------------------------- vocabulary

  datatype Incident =
    | CatchupWindowExceeded
    | SequenceGap
    | StartupRetentionUnavailable
    | DiscoveryIncomplete
    | BootstrapRangeNotEnumerated
    | RpcBudgetExhausted
    | RpcUnreachable

  predicate IsRetriable(incident: Option<Incident>) {
    incident.Some? &&
    incident.value in {DiscoveryIncomplete, BootstrapRangeNotEnumerated, RpcBudgetExhausted, RpcUnreachable}
  }

  /** What a thrown error is to the classifier: 429 budget, transport (DOMException/TypeError), other. */
  datatype Err = Budget | Transport | Other

  function Classify(e: Err): Option<Incident> {
    match e
    case Budget => Some(RpcBudgetExhausted)
    case Transport => Some(RpcUnreachable)
    case Other => None
  }

  datatype RowId = RowId(slot: int, tx: nat, log: nat)
  datatype Payload = Payload(log: nat, body: string)
  datatype ParsedTx = ParsedTx(payloads: seq<Payload>, refusals: seq<string>)

  datatype RefusalId =
    | MissingBlock(slot: int)
    | IncidentRefusal(incident: Incident, at: Option<int>)
    | ParseRefusal(slot: int, tx: nat, key: string)

  /**
   Options of the loop, and the chain: what each block parses to, and for each followed program the slots
   at or above its deploy slot that hold one of its signatures.
   */
  datatype Env = Env(startSlot: int, maxLagSlots: int, projector: bool,
                     block: int -> seq<ParsedTx>, programs: seq<int -> bool>)
  {
    ghost predicate Relevant(slot: int) {
      exists p :: 0 <= p < |programs| && programs[p](slot)
    }
  }

  datatype Cursor = Cursor(last: int, bootstrap: bool, incident: Option<Incident>)

  /** The durable tables. `journal` is every cursor row ever written, oldest first. */
  datatype Store = Store(payloads: map<RowId, string>, refusals: set<RefusalId>, journal: seq<Cursor>)
  {
    function GetCursor(): Option<Cursor> {
      if journal == [] then None else Some(journal[|journal| - 1])
    }
  }

  datatype Mem = Mem(halted: bool, last: int, bootstrap: bool, incident: Option<Incident>, lag: int)
  {
    predicate IsReady() { !halted && !bootstrap && incident.None? }
  }

  /**
   What the RPC answers at one moment, whichever question is put to it: the head, the first available
   block, the slots whose block it reports missing, the newest slot its signature lists reach, and whether
   a program's list reaches its floor.
   */
  datatype Answer = Answer(head: int, firstAvailable: int, gone: set<int>, tip: int, floors: bool)

  /** `applied` says whether a store write took effect although its await failed. */
  datatype Reply =
    | Ok(a: Answer)
    | Throw(onRpc: Err, onStore: Err, applied: bool)
    | Crash(applied: bool)

  /** One discovery: the watermark it was given, how far each program's list reached, and the slots listed. */
  datatype Discovery = Discovery(after: Option<int>, tips: seq<int>, slots: seq<int>, floors: bool)

  datatype State = State(store: Store, mem: Mem, script: seq<Reply>, discoveries: seq<Discovery>)

  datatype Why = Thrown(e: Err) | Stopped

  /** The state after an async call, with its value or the reason it has none. */
  datatype Out<+T> = Fail(s: State, why: Why) | Next(s: State, v: T)
  {
    predicate IsFailure() { Fail? }
    function PropagateFailure<U>(): Out<U> requires Fail? { Fail(s, why) }
    function Extract(): (State, T) requires Next? { (s, v) }
  }

  // ---------------------------------------------------------------- the tables

  function InsertIfAbsent(t: map<RowId, string>, k: RowId, body: string): map<RowId, string> {
    if k in t then t else t[k := body]
  }

  function InsertTx(t: map<RowId, string>, slot: int, tx: nat, rows: seq<Payload>): map<RowId, string>
    decreases |rows|
  {
    if rows == [] then t
    else InsertTx(InsertIfAbsent(t, RowId(slot, tx, rows[0].log), rows[0].body), slot, tx, rows[1..])
  }

  /** One uninterrupted pass over the transactions of a slot, from `tx` on. */
  function InsertBlock(t: map<RowId, string>, slot: int, txs: seq<ParsedTx>, tx: nat): map<RowId, string>
    decreases |txs| - tx
  {
    if tx >= |txs| then t else InsertBlock(InsertTx(t, slot, tx, txs[tx].payloads), slot, txs, tx + 1)
  }

  /** The rows of one slot, as one pass over an empty table leaves them. */
  function SlotTable(env: Env, slot: int): map<RowId, string> {
    InsertBlock(map[], slot, env.block(slot), 0)
  }

  // ---------------------------------------------------------------- invariants

  /** What parsing refused in the first transactions of the slot is on record. */
  ghost predicate RefusedTo(env: Env, st: Store, slot: int, n: nat) {
    forall tx: nat, key ::
      tx < n && tx < |env.block(slot)| && key in env.block(slot)[tx].refusals ==>
      ParseRefusal(slot, tx, key) in st.refusals
  }

  /** A slot is settled once all its rows and parse refusals are stored, or its absence is on record. */
  ghost predicate Settled(env: Env, st: Store, slot: int) {
    || MissingBlock(slot) in st.refusals
    || (SlotTable(env, slot).Keys <= st.payloads.Keys && RefusedTo(env, st, slot, |env.block(slot)|))
  }

  /** The slot a refusal is about, if any. */
  function SlotOf(r: RefusalId): Option<int> {
    match r
    case MissingBlock(slot) => Some(slot)
    case ParseRefusal(slot, _, _) => Some(slot)
    case IncidentRefusal(_, _) => None
  }

  /** A parse refusal is one of its block. */
  ghost predicate OfBlock(env: Env, r: RefusalId) {
    r.ParseRefusal? ==> r.tx < |env.block(r.slot)| && r.key in env.block(r.slot)[r.tx].refusals
  }

  ghost predicate CompleteUpTo(env: Env, st: Store, watermark: int) {
    forall x :: env.Relevant(x) && env.startSlot <= x <= watermark ==> Settled(env, st, x)
  }

  /** The slot below the first one this discovery is to list. */
  function Floor(env: Env, d: Discovery): int {
    if d.after.Some? then Max(d.after.value, env.startSlot - 1) else env.startSlot - 1
  }

  /**
   A slot of one program that landed after that program's list was read, is in no other list, and lies below
   a slot that is listed.
   */
  ghost predicate Hole(env: Env, d: Discovery, x: int) {
    exists p, y ::
      0 <= p < |d.tips| && p < |env.programs| && env.programs[p](x) && d.tips[p] < x && Floor(env, d) < x
      && x !in d.slots && y in d.slots && x < y
  }

  /** A hole of one of the discoveries. */
  ghost predicate Missed(env: Env, ds: seq<Discovery>, x: int) {
    exists d :: d in ds && Hole(env, d, x)
  }

  /** A slot is accounted for once it is settled, or was a hole of a discovery. */
  ghost predicate Accounted(env: Env, st: Store, ds: seq<Discovery>, slot: int) {
    Settled(env, st, slot) || Missed(env, ds, slot)
  }

  ghost predicate AccountedUpTo(env: Env, st: Store, ds: seq<Discovery>, watermark: int) {
    forall x :: env.Relevant(x) && env.startSlot <= x <= watermark ==> Accounted(env, st, ds, x)
  }

  /**
   Every stored row is the row that one uninterrupted pass over its slot stores under that id, and every parse
   refusal is one of its block.
   */
  ghost predicate Sound(env: Env, st: Store) {
    && (forall k :: k in st.payloads ==>
          env.Relevant(k.slot) && env.startSlot <= k.slot &&
          k in SlotTable(env, k.slot) && SlotTable(env, k.slot)[k] == st.payloads[k])
    && (forall r :: r in st.refusals ==> OfBlock(env, r))
  }

  /** Slots are taken oldest first: below any slot that has rows, everything is accounted for. */
  ghost predicate OldestFirst(env: Env, st: Store, ds: seq<Discovery>) {
    forall k, x :: k in st.payloads && env.Relevant(x) && env.startSlot <= x < k.slot ==> Accounted(env, st, ds, x)
  }

  ghost predicate Durable(env: Env, st: Store, ds: seq<Discovery>) {
    && Sound(env, st)
    && OldestFirst(env, st, ds)
    && (st.GetCursor().Some? ==>
          env.startSlot - 1 <= st.GetCursor().value.last && AccountedUpTo(env, st, ds, st.GetCursor().value.last))
  }

  /** Everything up to the watermark in memory is accounted for, and a halt always has a named incident. */
  ghost predicate Synced(env: Env, s: State) {
    && env.startSlot - 1 <= s.mem.last
    && AccountedUpTo(env, s.store, s.discoveries, s.mem.last)
    && (s.mem.halted ==> s.mem.incident.Some?)
  }

  ghost predicate AllCover(script: seq<Reply>, head: int) {
    forall r :: r in script && r.Ok? ==> head <= r.a.tip
  }

  /** Signature lists reach every head answered before them. */
  ghost predicate Faithful(script: seq<Reply>) {
    script == [] ||
    (&& (script[0].Ok? ==> AllCover(script[1..], script[0].a.head))
     && Faithful(script[1..]))
  }

  ghost predicate Good(env: Env, s: State) {
    Durable(env, s.store, s.discoveries) && Synced(env, s) && Faithful(s.script)
  }

  /** What is still to be taken: below the list's end only holes are missing above the watermark. */
  ghost predicate Pending(env: Env, ds: seq<Discovery>, watermark: int, slots: seq<int>) {
    && Ascending(slots)
    && (forall x :: x in slots ==> env.Relevant(x))
    && (forall x, y :: y in slots && env.Relevant(x) && env.startSlot <= x <= y && watermark < x ==>
          x in slots || Missed(env, ds, x))
  }

  // ---------------------------------------------------------------- what a step may do

  /** Replies are only consumed. */
  ghost predicate Consumes(s: State, t: State) {
    |t.script| <= |s.script| && forall r :: r in t.script ==> r in s.script
  }

  /** Rows, refusals and cursors are only added. */
  ghost predicate Kept(a: Store, b: Store) {
    && a.refusals <= b.refusals
    && a.journal <= b.journal
    && (forall k :: k in a.payloads ==> k in b.payloads && b.payloads[k] == a.payloads[k])
  }

  ghost predicate After(s: State, t: State) {
    Consumes(s, t) && Kept(s.store, t.store)
  }

  /** A halt always has a named incident. */
  ghost predicate HaltNamed(s: State) {
    s.mem.halted ==> s.mem.incident.Some?
  }

  /** The store driver never throws what the classifier takes for an RPC failure. */
  ghost predicate StoreErrorsPlain(script: seq<Reply>) {
    forall r :: r in script && r.Throw? ==> r.onStore == Other
  }

  ghost predicate HaltPermanent(s: State) {
    s.mem.halted ==> s.mem.incident.Some? && !IsRetriable(s.mem.incident)
  }

  /** Every call is answered. */
  ghost predicate Answered(script: seq<Reply>) {
    forall r :: r in script ==> r.Ok?
  }

  /** An operation that can only be waiting for its next reply. */
  ghost predicate Waits<T>(o: Out<T>) {
    o.Fail? ==> o.why == Stopped && o.s.script == []
  }

  // ---------------------------------------------------------------- awaits

  /** An RPC call. */
  function Call(env: Env, s: State): (o: Out<Answer>)
    ensures After(s, o.s) && o.s == s.(script := o.s.script)
    ensures s.script != [] ==> |o.s.script| < |s.script|
    ensures Good(env, s) ==> Good(env, o.s)
    ensures o.Next? ==> Ok(o.v) in s.script && (Faithful(s.script) ==> AllCover(o.s.script, o.v.head))
    ensures Answered(s.script) ==> Waits(o)
  {
    if s.script == [] then Fail(s, Stopped) else
    assert s.script[0] in s.script;
    var rest := s.(script := s.script[1..]);
    match s.script[0]
    case Ok(a) => Next(rest, a)
    case Throw(e, _, _) => Fail(rest, Thrown(e))
    case Crash(_) => Fail(rest, Stopped)
  }

  /** A store write: its effect may or may not survive a failed await. */
  function Write(s: State, st: Store): (o: Out<()>)
    ensures |o.s.script| <= |s.script|
    ensures forall r :: r in o.s.script ==> r in s.script
    ensures Faithful(s.script) ==> Faithful(o.s.script)
    ensures o.s.mem == s.mem && o.s.discoveries == s.discoveries
    ensures o.s.store == st || (o.Fail? && o.s.store == s.store)
    ensures Answered(s.script) ==> Waits(o)
  {
    if s.script == [] then Fail(s, Stopped) else
    assert s.script[0] in s.script;
    var rest := s.(script := s.script[1..]);
    match s.script[0]
    case Ok(_) => Next(rest.(store := st), ())
    case Throw(_, e, applied) => Fail(rest.(store := if applied then st else s.store), Thrown(e))
    case Crash(applied) => Fail(rest.(store := if applied then st else s.store), Stopped)
  }

  function CursorOf(m: Mem): Cursor { Cursor(m.last, m.bootstrap, m.incident) }

  function PersistCursor(env: Env, s: State): (o: Out<()>)
    ensures After(s, o.s) && o.s.mem == s.mem && o.s.discoveries == s.discoveries
    ensures Good(env, s) ==> Good(env, o.s)
    ensures o.Next? ==> o.s.store == s.store.(journal := s.store.journal + [CursorOf(s.mem)])
  {
    Write(s, s.store.(journal := s.store.journal + [CursorOf(s.mem)]))
  }

  function InsertRefusal(env: Env, s: State, id: RefusalId): (o: Out<()>)
    ensures After(s, o.s) && o.s.mem == s.mem && o.s.discoveries == s.discoveries
    ensures Good(env, s) && OfBlock(env, id) ==> Good(env, o.s)
    ensures o.Next? ==> id in o.s.store.refusals
    ensures o.s.store.payloads == s.store.payloads
  {
    Write(s, s.store.(refusals := s.store.refusals + {id}))
  }

  // ---------------------------------------------------------------- incidents

  /** A permanent incident halts and leaves a refusal row; a retriable one does neither. */
  function RecordIncident(env: Env, s: State, incident: Incident, at: Option<int>): (o: Out<()>)
    ensures Consumes(s, o.s) && o.s.discoveries == s.discoveries
    ensures Good(env, s) ==> Good(env, o.s)
    ensures IsRetriable(Some(incident)) ==>
      o.s.store.refusals == s.store.refusals && o.s.mem.halted == s.mem.halted
    ensures o.s.mem == s.mem.(incident := Some(incident), halted := o.s.mem.halted)
    ensures !IsRetriable(Some(incident)) ==> o.s.mem.halted
    ensures o.s.store.payloads == s.store.payloads
    ensures o.Next? ==> o.s.store.journal == s.store.journal + [CursorOf(o.s.mem)]
    ensures o.Next? && !IsRetriable(Some(incident)) ==>
      o.s.store.refusals == s.store.refusals + {IncidentRefusal(incident, at)}
    ensures HaltNamed(s) ==> HaltNamed(o.s)
    ensures StoreErrorsPlain(s.script) && HaltPermanent(s) && (!s.mem.halted || !IsRetriable(Some(incident))) ==>
      HaltPermanent(o.s)
  {
    var s1 := s.(mem := s.mem.(incident := Some(incident)));
    if IsRetriable(Some(incident)) then PersistCursor(env, s1)
    else
      var (s2, _) :- InsertRefusal(env, s1.(mem := s1.mem.(halted := true)), IncidentRefusal(incident, at));
      PersistCursor(env, s2)
  }

  /** The catch clause of every RPC call: a classified failure is recorded, any other is thrown on. */
  function Rescue(env: Env, s: State, why: Why): (o: Out<()>)
    ensures Consumes(s, o.s) && o.s.discoveries == s.discoveries
    ensures Good(env, s) ==> Good(env, o.s)
    ensures o.s.mem == s.mem.(incident := o.s.mem.incident)
    ensures o.s.mem == s.mem || o.s.mem.incident.Some?
    ensures s.mem.halted && why.Thrown? && why.e == Other ==> o == Fail(s, why)
    ensures o.s.store.refusals == s.store.refusals
  {
    match why
    case Stopped => Fail(s, why)
    case Thrown(e) =>
      var c := Classify(e);
      if c.None? then Fail(s, why) else RecordIncident(env, s, c.value, None)
  }

  function ClearRetriableIncident(env: Env, s: State): (o: Out<()>)
    ensures Consumes(s, o.s) && o.s.discoveries == s.discoveries
    ensures Good(env, s) && !s.mem.halted ==> Good(env, o.s)
    ensures o.s.mem == s.mem.(incident := if IsRetriable(s.mem.incident) then None else s.mem.incident)
    ensures o.Next? && IsRetriable(s.mem.incident) ==>
      o.s.store == s.store.(journal := s.store.journal + [CursorOf(o.s.mem)])
  {
    if !IsRetriable(s.mem.incident) then Next(s, ())
    else PersistCursor(env, s.(mem := s.mem.(incident := None)))
  }
}
