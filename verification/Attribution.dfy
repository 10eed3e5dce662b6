/**
 Same-transaction claim attribution (src/commerce-handlers.ts). A payout logs ClaimRecorded before
 the event that explains it, so a credit that nothing explains yet is parked with its transaction and
 back-filled by the first later cause that fits. Transactions are kept in a bounded
 first-in-first-out map.
 */
module Attribution {
  import opened Common

  const MAX_PENDING_TX_ENTRIES := 2000

  /** The reason codes of the cause builders; none of them is "unknown". */
  datatype Reason =
    | OutbidRefund | OwnerPayout | AgentPayout | PlatformPayout
    | BondReturned | BondRouted | ReversalRefund

  datatype Cause = Cause(reason: Reason, event: string, account: string, amount: Option<nat>, logIndex: int)

  datatype CreditId = CreditId(tx: string, logIndex: int)
  datatype Why = Why(reason: Reason, event: string)
  /** `why` is None while the reason code is "unknown". */
  datatype Credit = Credit(account: string, amount: nat, why: Option<Why>)
  datatype Parked = Parked(id: CreditId, account: string, amount: nat)
  datatype TxState = TxState(causes: seq<Cause>, parked: seq<Parked>)

  /** `order` is the insertion order of the map's keys. */
  datatype State = State(order: seq<string>, entries: map<string, TxState>, credits: map<CreditId, Credit>)

  datatype Log =
    | ClaimRecorded(tx: string, logIndex: int, account: string, amount: nat)
    | CauseLogged(tx: string, cause: Cause)

  function Key(log: Log): string { Lower(log.tx) }
  function IdOf(log: Log): CreditId requires log.ClaimRecorded? { CreditId(Key(log), log.logIndex) }

  // ---------------------------------------------------------------- what explains a credit

  predicate Fits(c: Cause, account: string, amount: nat) {
    Lower(c.account) == Lower(account) && (c.amount.None? || c.amount.value == amount)
  }

  /** Stable descending insertion by log index. */
  function InsertDesc(cs: seq<Cause>, c: Cause): seq<Cause> {
    if cs == [] || cs[0].logIndex < c.logIndex then [c] + cs else [cs[0]] + InsertDesc(cs[1..], c)
  }

  function PriorDesc(cs: seq<Cause>, before: int): seq<Cause> {
    if cs == [] then []
    else
      var rest := PriorDesc(cs[..|cs| - 1], before);
      if cs[|cs| - 1].logIndex < before then InsertDesc(rest, cs[|cs| - 1]) else rest
  }

  function Find(cs: seq<Cause>, account: string, amount: Option<nat>): Option<Cause> {
    if cs == [] then None
    else if Lower(cs[0].account) == Lower(account) && (amount.None? || cs[0].amount == amount) then Some(cs[0])
    else Find(cs[1..], account, amount)
  }

  function Explain(c: Option<Cause>): Option<Why> {
    if c.Some? then Some(Why(c.value.reason, c.value.event)) else None
  }

  /** Newest earlier cause with account and amount, else newest earlier cause with the account. */
  function Correlate(cs: seq<Cause>, account: string, amount: nat, logIndex: int): Option<Why> {
    var prior := PriorDesc(cs, logIndex);
    var exact := Find(prior, account, Some(amount));
    if exact.Some? then Explain(exact) else Explain(Find(prior, account, None))
  }

  // ---------------------------------------------------------------- the handlers

  /** `cap` is the size bound of the map; None is a map without one. */
  function Touch(cap: Option<nat>, s: State, key: string): State {
    if key in s.entries then s
    else
      var order := s.order + [key];
      var entries := s.entries[key := TxState([], [])];
      if cap.Some? && |order| > cap.value
      then s.(order := order[1..], entries := entries - {order[0]})
      else s.(order := order, entries := entries)
  }

  /** The credit is written with what explains it so far; unexplained, it is parked. */
  function RecordIn(s: State, log: Log): State
    requires log.ClaimRecorded? && Key(log) in s.entries
  {
    var tx := s.entries[Key(log)];
    var why := Correlate(tx.causes, log.account, log.amount, log.logIndex);
    var s2 := s.(credits := s.credits[IdOf(log) := Credit(log.account, log.amount, why)]);
    if why.Some? then s2
    else s2.(entries := s2.entries[Key(log) := tx.(parked := tx.parked + [Parked(IdOf(log), log.account, log.amount)])])
  }

  function Record(cap: Option<nat>, s: State, log: Log): State
    requires log.ClaimRecorded?
  {
    var s1 := Touch(cap, s, Key(log));
    if Key(log) in s1.entries then RecordIn(s1, log) else s1
  }

  function Backfill(credits: map<CreditId, Credit>, parked: seq<Parked>, c: Cause): map<CreditId, Credit> {
    if parked == [] then credits
    else
      var u := parked[0];
      var credits' := if Fits(c, u.account, u.amount) && u.id in credits
                      then credits[u.id := credits[u.id].(why := Explain(Some(c)))] else credits;
      Backfill(credits', parked[1..], c)
  }

  function StillParked(parked: seq<Parked>, c: Cause): seq<Parked> {
    if parked == [] then []
    else (if Fits(c, parked[0].account, parked[0].amount) then [] else [parked[0]]) + StillParked(parked[1..], c)
  }

  /** The cause is kept, and every parked credit it fits is written and un-parked. */
  function PushIn(s: State, key: string, c: Cause): State
    requires key in s.entries
  {
    var tx := s.entries[key];
    s.(credits := Backfill(s.credits, tx.parked, c),
       entries := s.entries[key := TxState(tx.causes + [c], StillParked(tx.parked, c))])
  }

  function Push(cap: Option<nat>, s: State, key: string, c: Cause): State {
    var s1 := Touch(cap, s, key);
    if key in s1.entries then PushIn(s1, key, c) else s1
  }

  function Step(cap: Option<nat>, s: State, log: Log): State {
    match log
    case ClaimRecorded(_, _, _, _) => Record(cap, s, log)
    case CauseLogged(_, c) => Push(cap, s, Key(log), c)
  }

  function Run(cap: Option<nat>, s: State, logs: seq<Log>): State
    decreases |logs|
  {
    if logs == [] then s else Run(cap, Step(cap, s, logs[0]), logs[1..])
  }

  const Empty := State([], map[], map[])

  // ---------------------------------------------------------------- offline meaning

  /** Reason of a credit read off the whole log: an earlier cause, else the first later one that fits. */
  function FirstFit(key: string, account: string, amount: nat, later: seq<Log>): Option<Cause> {
    if later == [] then None
    else if later[0].CauseLogged? && Key(later[0]) == key && Fits(later[0].cause, account, amount) then
      Some(later[0].cause)
    else FirstFit(key, account, amount, later[1..])
  }

  function CausesIn(key: string, logs: seq<Log>): seq<Cause> {
    if logs == [] then []
    else
      var last := logs[|logs| - 1];
      CausesIn(key, logs[..|logs| - 1]) + (if last.CauseLogged? && Key(last) == key then [last.cause] else [])
  }

  function Offline(logs: seq<Log>, i: nat): Option<Why>
    requires i < |logs| && logs[i].ClaimRecorded?
  {
    var log := logs[i];
    var early := Correlate(CausesIn(Key(log), logs[..i]), log.account, log.amount, log.logIndex);
    if early.Some? then early else Explain(FirstFit(Key(log), log.account, log.amount, logs[i + 1..]))
  }

  // ---------------------------------------------------------------- the map

  ghost predicate Distinct(order: seq<string>) {
    forall i, j :: 0 <= i < j < |order| ==> order[i] != order[j]
  }

  function Keys(order: seq<string>): set<string> { set k | k in order }

  /** The keys of the map are its insertion order. */
  ghost predicate OrderValid(s: State) {
    Distinct(s.order) && s.entries.Keys == Keys(s.order)
  }

  /** A parked credit is a row of its own transaction, still unexplained. */
  ghost predicate ParkedOk(credits: map<CreditId, Credit>, key: string, u: Parked) {
    u.id.tx == key && u.id in credits && credits[u.id] == Credit(u.account, u.amount, None)
  }

  ghost predicate EntryOk(credits: map<CreditId, Credit>, key: string, tx: TxState) {
    forall u :: u in tx.parked ==> ParkedOk(credits, key, u)
  }

  ghost predicate ParkedValid(s: State) {
    forall k :: k in s.entries ==> EntryOk(s.credits, k, s.entries[k])
  }

  ghost predicate Valid(s: State) { OrderValid(s) && ParkedValid(s) }

  lemma AppendDistinct(order: seq<string>, key: string)
    requires Distinct(order) && key !in order
    ensures Distinct(order + [key]) && Keys(order + [key]) == Keys(order) + {key}
  {
  }

  lemma TailDistinct(order: seq<string>)
    requires Distinct(order) && order != []
    ensures Distinct(order[1..]) && Keys(order[1..]) == Keys(order) - {order[0]}
  {
    assert order == [order[0]] + order[1..];
    assert order[0] !in order[1..];
  }

  /** Touching creates at most the touched entry, evicts at most the oldest, and never the one it created. */
  lemma TouchKeeps(cap: Option<nat>, s: State, key: string)
    requires OrderValid(s) && (cap.Some? ==> cap.value >= 1)
    ensures var t := Touch(cap, s, key);
      && OrderValid(t) && t.credits == s.credits
      && key in t.entries
      && t.entries[key] == (if key in s.entries then s.entries[key] else TxState([], []))
      && (forall k :: k in t.entries && k != key ==> k in s.entries && t.entries[k] == s.entries[k])
  {
    if key !in s.entries {
      AppendDistinct(s.order, key);
      TailDistinct(s.order + [key]);
      var t := Touch(cap, s, key);
      assert cap.Some? && |s.order| + 1 > cap.value ==> (s.order + [key])[0] == s.order[0] && s.order[0] in s.order;
    }
  }

  lemma TouchParked(cap: Option<nat>, s: State, key: string)
    requires Valid(s) && (cap.Some? ==> cap.value >= 1)
    ensures Valid(Touch(cap, s, key))
  {
    TouchKeeps(cap, s, key);
  }

  // ---------------------------------------------------------------- one step

  lemma {:induction false} BackfillAt(credits: map<CreditId, Credit>, parked: seq<Parked>, c: Cause, id: CreditId)
    requires id in credits
    ensures Backfill(credits, parked, c).Keys == credits.Keys
    ensures Backfill(credits, parked, c)[id] ==
      if exists u :: u in parked && u.id == id && Fits(c, u.account, u.amount)
      then credits[id].(why := Explain(Some(c))) else credits[id]
    decreases |parked|
  {
    if parked != [] {
      var u := parked[0];
      var credits' := if Fits(c, u.account, u.amount) && u.id in credits
                      then credits[u.id := credits[u.id].(why := Explain(Some(c)))] else credits;
      BackfillAt(credits', parked[1..], c, id);
      assert forall v :: v in parked <==> v == u || v in parked[1..];
    }
  }

  lemma {:induction false} BackfillKeys(credits: map<CreditId, Credit>, parked: seq<Parked>, c: Cause)
    ensures Backfill(credits, parked, c).Keys == credits.Keys
    decreases |parked|
  {
    if parked != [] {
      var u := parked[0];
      var credits' := if Fits(c, u.account, u.amount) && u.id in credits
                      then credits[u.id := credits[u.id].(why := Explain(Some(c)))] else credits;
      BackfillKeys(credits', parked[1..], c);
    }
  }

  lemma {:induction false} StillParkedAre(parked: seq<Parked>, c: Cause)
    ensures forall u :: u in StillParked(parked, c) <==> u in parked && !Fits(c, u.account, u.amount)
  {
    if parked != [] {
      StillParkedAre(parked[1..], c);
      assert forall v :: v in parked <==> v == parked[0] || v in parked[1..];
    }
  }

  /** Each credit is recorded by one log. */
  ghost predicate WellFormed(logs: seq<Log>) {
    forall i, j ::
      0 <= i < j < |logs| && logs[i].ClaimRecorded? && logs[j].ClaimRecorded? ==> IdOf(logs[i]) != IdOf(logs[j])
  }

  /** The logs can follow state `s`: none of them records a credit that is already there. */
  ghost predicate Follows(s: State, logs: seq<Log>) {
    WellFormed(logs) && forall i :: 0 <= i < |logs| && logs[i].ClaimRecorded? ==> IdOf(logs[i]) !in s.credits
  }

  lemma StepKeys(cap: Option<nat>, s: State, log: Log)
    requires Valid(s) && (cap.Some? ==> cap.value >= 1)
    ensures Step(cap, s, log).credits.Keys == s.credits.Keys + (if log.ClaimRecorded? then {IdOf(log)} else {})
  {
    TouchKeeps(cap, s, Key(log));
    if log.CauseLogged? {
      BackfillKeys(s.credits, Touch(cap, s, Key(log)).entries[Key(log)].parked, log.cause);
    }
  }

  lemma StepFollows(cap: Option<nat>, s: State, logs: seq<Log>)
    requires Valid(s) && Follows(s, logs) && logs != [] && (cap.Some? ==> cap.value >= 1)
    ensures Follows(Step(cap, s, logs[0]), logs[1..])
  {
    StepKeys(cap, s, logs[0]);
  }

  lemma RecordKeeps(cap: Option<nat>, s: State, log: Log)
    requires Valid(s) && (cap.Some? ==> cap.value >= 1)
    requires log.ClaimRecorded? && IdOf(log) !in s.credits
    ensures Valid(Record(cap, s, log))
  {
    TouchKeeps(cap, s, Key(log));
    TouchParked(cap, s, Key(log));
    var s1 := Touch(cap, s, Key(log));
    var why := Correlate(s1.entries[Key(log)].causes, log.account, log.amount, log.logIndex);
    var s2 := s1.(credits := s1.credits[IdOf(log) := Credit(log.account, log.amount, why)]);
    AddCreditKeeps(s1, IdOf(log), s2.credits[IdOf(log)]);
    if why.None? { ParkKeeps(s2, IdOf(log), log.account, log.amount); }
  }

  lemma AddCreditKeeps(s: State, id: CreditId, c: Credit)
    requires Valid(s) && id !in s.credits
    ensures Valid(s.(credits := s.credits[id := c]))
  {
    forall k | k in s.entries ensures EntryOk(s.credits[id := c], k, s.entries[k]) {
      assert EntryOk(s.credits, k, s.entries[k]);
    }
  }

  lemma ParkKeeps(s: State, id: CreditId, account: string, amount: nat)
    requires Valid(s) && id.tx in s.entries && id in s.credits && s.credits[id] == Credit(account, amount, None)
    ensures var tx := s.entries[id.tx];
      Valid(s.(entries := s.entries[id.tx := tx.(parked := tx.parked + [Parked(id, account, amount)])]))
  {
    assert EntryOk(s.credits, id.tx, s.entries[id.tx]);
    assert ParkedOk(s.credits, id.tx, Parked(id, account, amount));
  }

  lemma PushKeeps(cap: Option<nat>, s: State, key: string, c: Cause)
    requires Valid(s) && (cap.Some? ==> cap.value >= 1)
    ensures Valid(Push(cap, s, key, c))
  {
    TouchKeeps(cap, s, key);
    TouchParked(cap, s, key);
    var s1 := Touch(cap, s, key);
    var tx := s1.entries[key];
    BackfillKeys(s1.credits, tx.parked, c);
    StillParkedAre(tx.parked, c);
    var t := Push(cap, s, key, c);
    forall k | k in t.entries ensures EntryOk(t.credits, k, t.entries[k]) {
      assert EntryOk(s1.credits, k, s1.entries[k]) && EntryOk(s1.credits, key, tx);
      forall u | u in t.entries[k].parked ensures ParkedOk(t.credits, k, u) {
        BackfillAt(s1.credits, tx.parked, c, u.id);
      }
    }
  }

  lemma StepKeeps(cap: Option<nat>, s: State, log: Log)
    requires Valid(s) && Follows(s, [log]) && (cap.Some? ==> cap.value >= 1)
    ensures Valid(Step(cap, s, log))
  {
    assert [log][0] == log;
    if log.ClaimRecorded? { RecordKeeps(cap, s, log); } else { PushKeeps(cap, s, Key(log), log.cause); }
  }

  // ---------------------------------------------------------------- the fate of one credit

  /** Credit `id` is stored; while unexplained it is parked under its transaction. */
  ghost predicate Tracked(s: State, id: CreditId, account: string, amount: nat) {
    && id in s.credits
    && s.credits[id].account == account && s.credits[id].amount == amount
    && (s.credits[id].why.None? ==>
          && id.tx in s.entries && Parked(id, account, amount) in s.entries[id.tx].parked)
  }

  lemma PushTracks(s: State, key: string, c: Cause, id: CreditId, account: string, amount: nat)
    requires Valid(s) && Tracked(s, id, account, amount)
    ensures var t := Push(None, s, key, c);
      && Tracked(t, id, account, amount)
      && t.credits[id] == (if s.credits[id].why.None? && key == id.tx && Fits(c, account, amount)
                           then Credit(account, amount, Explain(Some(c))) else s.credits[id])
  {
    TouchKeeps(None, s, key);
    var s1 := Touch(None, s, key);
    BackfillAt(s1.credits, s1.entries[key].parked, c, id);
    StillParkedAre(s1.entries[key].parked, c);
  }

  lemma StepTracks(s: State, log: Log, id: CreditId, account: string, amount: nat)
    requires Valid(s) && Follows(s, [log]) && Tracked(s, id, account, amount)
    ensures var t := Step(None, s, log);
      && Tracked(t, id, account, amount)
      && t.credits[id] ==
        (if s.credits[id].why.None? && log.CauseLogged? && Key(log) == id.tx && Fits(log.cause, account, amount)
                           then Credit(account, amount, Explain(Some(log.cause))) else s.credits[id])
  {
    assert [log][0] == log;
    if log.CauseLogged? {
      PushTracks(s, Key(log), log.cause, id, account, amount);
    } else {
      TouchKeeps(None, s, Key(log));
    }
  }

  /** An explained credit is never touched again; an unexplained one gets the first later cause that fits. */
  lemma {:induction false} Fate(s: State, logs: seq<Log>, id: CreditId, account: string, amount: nat)
    requires Valid(s) && Follows(s, logs) && Tracked(s, id, account, amount)
    ensures id in Run(None, s, logs).credits && Run(None, s, logs).credits[id] ==
      (if s.credits[id].why.Some? then s.credits[id]
        else Credit(account, amount, Explain(FirstFit(id.tx, account, amount, logs))))
    decreases |logs|
  {
    if logs != [] {
      assert Follows(s, [logs[0]]) by { assert [logs[0]][0] == logs[0]; }
      StepTracks(s, logs[0], id, account, amount);
      StepKeeps(None, s, logs[0]);
      StepFollows(None, s, logs);
      Fate(Step(None, s, logs[0]), logs[1..], id, account, amount);
    }
  }

  // ---------------------------------------------------------------- online equals offline

  lemma {:induction false} RunSplit(cap: Option<nat>, s: State, a: seq<Log>, b: seq<Log>)
    ensures Run(cap, s, a + b) == Run(cap, Run(cap, s, a), b)
    decreases |a|
  {
    if a == [] {
      assert a + b == b;
    } else {
      assert (a + b)[1..] == a[1..] + b;
      RunSplit(cap, Step(cap, s, a[0]), a[1..], b);
    }
  }

  function Ids(logs: seq<Log>): set<CreditId> {
    if logs == [] then {}
    else Ids(logs[1..]) + (if logs[0].ClaimRecorded? then {IdOf(logs[0])} else {})
  }

  lemma {:induction false} IdsAre(logs: seq<Log>)
    ensures forall i :: 0 <= i < |logs| && logs[i].ClaimRecorded? ==> IdOf(logs[i]) in Ids(logs)
    ensures forall id :: id in Ids(logs) ==>
      exists i :: 0 <= i < |logs| && logs[i].ClaimRecorded? && IdOf(logs[i]) == id
  {
    if logs != [] {
      IdsAre(logs[1..]);
      forall id | id in Ids(logs) ensures exists i :: 0 <= i < |logs| && logs[i].ClaimRecorded? && IdOf(logs[i]) == id {
        if id in Ids(logs[1..]) {
          var j :| 0 <= j < |logs[1..]| && logs[1..][j].ClaimRecorded? && IdOf(logs[1..][j]) == id;
          assert logs[j + 1] == logs[1..][j];
        }
      }
    }
  }

  /** Runs keep the state valid and add exactly the credits they record. */
  lemma {:induction false} RunKeeps(cap: Option<nat>, s: State, logs: seq<Log>)
    requires Valid(s) && Follows(s, logs) && (cap.Some? ==> cap.value >= 1)
    ensures Valid(Run(cap, s, logs))
    ensures Run(cap, s, logs).credits.Keys == s.credits.Keys + Ids(logs)
    decreases |logs|
  {
    if logs != [] {
      assert Follows(s, [logs[0]]) by { assert [logs[0]][0] == logs[0]; }
      StepKeeps(cap, s, logs[0]);
      StepKeys(cap, s, logs[0]);
      StepFollows(cap, s, logs);
      RunKeeps(cap, Step(cap, s, logs[0]), logs[1..]);
    }
  }

  function CausesAt(s: State, key: string): seq<Cause> {
    if key in s.entries then s.entries[key].causes else []
  }

  lemma StepCauses(s: State, log: Log, key: string)
    ensures CausesAt(Step(None, s, log), key) ==
      CausesAt(s, key) + (if log.CauseLogged? && Key(log) == key then [log.cause] else [])
  {
  }

  /** Each transaction holds exactly its causes so far. */
  lemma {:induction false} RunCauses(logs: seq<Log>, key: string)
    ensures CausesAt(Run(None, Empty, logs), key) == CausesIn(key, logs)
    decreases |logs|
  {
    if logs != [] {
      var init, log := logs[..|logs| - 1], logs[|logs| - 1];
      assert logs == init + [log];
      RunCauses(init, key);
      RunSplit(None, Empty, init, [log]);
      StepCauses(Run(None, Empty, init), log, key);
    }
  }

  /** A credit is tracked from the log that records it. */
  lemma RecordTracks(s: State, log: Log)
    requires Valid(s) && log.ClaimRecorded? && IdOf(log) !in s.credits
    ensures var t := Record(None, s, log);
      && Tracked(t, IdOf(log), log.account, log.amount)
      && t.credits[IdOf(log)].why == Correlate(CausesAt(s, Key(log)), log.account, log.amount, log.logIndex)
  {
    TouchKeeps(None, s, Key(log));
  }

  lemma FollowsFrom(a: seq<Log>, b: seq<Log>, s: State)
    requires WellFormed(a + b) && s.credits.Keys == Ids(a)
    ensures Follows(s, b)
  {
    IdsAre(a);
    forall i, j | 0 <= i < j < |b| && b[i].ClaimRecorded? && b[j].ClaimRecorded? ensures IdOf(b[i]) != IdOf(b[j]) {
      assert (a + b)[|a| + i] == b[i] && (a + b)[|a| + j] == b[j];
    }
    forall j | 0 <= j < |b| && b[j].ClaimRecorded? ensures IdOf(b[j]) !in s.credits {
      assert (a + b)[|a| + j] == b[j];
      forall i | 0 <= i < |a| && a[i].ClaimRecorded? ensures IdOf(a[i]) != IdOf(b[j]) {
        assert (a + b)[i] == a[i];
      }
    }
  }

  /**
   Without a bound, the reason a credit ends with is the one read off the whole log: an earlier cause,
   else the first later cause of its transaction that fits it, and none exactly when there is none.
   */
  lemma OnlineIsOffline(logs: seq<Log>, i: nat)
    requires WellFormed(logs) && i < |logs| && logs[i].ClaimRecorded?
    ensures var c := Run(None, Empty, logs).credits;
      IdOf(logs[i]) in c && c[IdOf(logs[i])] == Credit(logs[i].account, logs[i].amount, Offline(logs, i))
  {
    var init, tail := logs[..i], logs[i..];
    assert logs == init + tail;
    PrefixRun(init, tail);
    RunSplit(None, Empty, init, tail);
    RunCauses(init, Key(logs[i]));
    FateFrom(Run(None, Empty, init), tail);
    assert tail[0] == logs[i] && tail[1..] == logs[i + 1..];
  }

  lemma PrefixRun(a: seq<Log>, b: seq<Log>)
    requires WellFormed(a + b)
    ensures Valid(Run(None, Empty, a)) && Follows(Run(None, Empty, a), b)
  {
    assert WellFormed(a) by {
      forall i, j | 0 <= i < j < |a| && a[i].ClaimRecorded? && a[j].ClaimRecorded? ensures IdOf(a[i]) != IdOf(a[j]) {
        assert (a + b)[i] == a[i] && (a + b)[j] == a[j];
      }
    }
    RunKeeps(None, Empty, a);
    FollowsFrom(a, b, Run(None, Empty, a));
  }

  lemma FateFrom(s: State, tail: seq<Log>)
    requires Valid(s) && Follows(s, tail) && tail != [] && tail[0].ClaimRecorded?
    ensures var log := tail[0];
      var early := Correlate(CausesAt(s, Key(log)), log.account, log.amount, log.logIndex);
      var c := Run(None, s, tail).credits;
      IdOf(log) in c && c[IdOf(log)] ==
        Credit(log.account, log.amount, if early.Some? then early
          else Explain(FirstFit(Key(log), log.account, log.amount, tail[1..])))
  {
    var log := tail[0];
    RecordTracks(s, log);
    RecordKeeps(None, s, log);
    StepFollows(None, s, tail);
    Fate(Step(None, s, log), tail[1..], IdOf(log), log.account, log.amount);
  }

  // ---------------------------------------------------------------- the bounded map

  /** Transactions in the order of their first logs. */
  function Started(logs: seq<Log>): seq<string> {
    if logs == [] then []
    else
      var st := Started(logs[..|logs| - 1]);
      var key := Key(logs[|logs| - 1]);
      if key in st then st else st + [key]
  }

  function LastOf(order: seq<string>, n: nat): seq<string> {
    if |order| <= n then order else order[|order| - n..]
  }

  /** Fewer than `cap` other transactions start between any two logs of the same transaction. */
  ghost predicate FewStartBetween(cap: nat, logs: seq<Log>) {
    forall j ::
      0 <= j < |logs| && Key(logs[j]) in Started(logs[..j]) ==> Key(logs[j]) in LastOf(Started(logs[..j]), cap)
  }

  /** The bounded map is the newest part of the unbounded one, and the credit rows agree. */
  ghost predicate Newest(cap: nat, b: State, u: State) {
    && b.credits == u.credits
    && b.order == LastOf(u.order, cap)
    && EntriesAgree(b, u)
  }

  ghost predicate EntriesAgree(b: State, u: State) {
    forall k :: k in b.entries ==> k in u.entries && b.entries[k] == u.entries[k]
  }

  lemma LastOfAppend(cap: nat, order: seq<string>, key: string)
    requires cap >= 1
    ensures var last := LastOf(order, cap) + [key];
      LastOf(order + [key], cap) == if |last| > cap then last[1..] else last
  {
  }

  lemma TouchNewest(cap: nat, b: State, u: State, key: string)
    requires cap >= 1 && Newest(cap, b, u) && OrderValid(b)
    requires key in u.entries ==> key in b.entries
    ensures Newest(cap, Touch(Some(cap), b, key), Touch(None, u, key))
    ensures key in Touch(Some(cap), b, key).entries && OrderValid(Touch(Some(cap), b, key))
    ensures key in Touch(None, u, key).entries
    ensures Touch(Some(cap), b, key).entries[key] == Touch(None, u, key).entries[key]
  {
    TouchKeeps(Some(cap), b, key);
    LastOfAppend(cap, u.order, key);
    if key !in b.entries {
      var s, t := Touch(Some(cap), b, key), Touch(None, u, key);
      forall k | k in s.entries ensures k in t.entries && s.entries[k] == t.entries[k] {}
    }
  }

  lemma InNewest(cap: nat, b: State, u: State, log: Log)
    requires Newest(cap, b, u) && Key(log) in b.entries && Key(log) in u.entries
    requires b.entries[Key(log)] == u.entries[Key(log)]
    ensures log.ClaimRecorded? ==> Newest(cap, RecordIn(b, log), RecordIn(u, log))
    ensures log.CauseLogged? ==> Newest(cap, PushIn(b, Key(log), log.cause), PushIn(u, Key(log), log.cause))
  {
  }

  lemma StepNewest(cap: nat, b: State, u: State, log: Log)
    requires cap >= 1 && Newest(cap, b, u) && OrderValid(b)
    requires Key(log) in u.entries ==> Key(log) in b.entries
    ensures Newest(cap, Step(Some(cap), b, log), Step(None, u, log))
  {
    TouchNewest(cap, b, u, Key(log));
    InNewest(cap, Touch(Some(cap), b, Key(log)), Touch(None, u, Key(log)), log);
  }

  lemma StepOrder(cap: Option<nat>, s: State, log: Log)
    requires OrderValid(s) && (cap.Some? ==> cap.value >= 1)
    ensures var t := Touch(cap, s, Key(log));
      Step(cap, s, log).order == t.order && Step(cap, s, log).entries.Keys == t.entries.Keys &&
        OrderValid(Step(cap, s, log))
  {
    TouchKeeps(cap, s, Key(log));
  }

  /** Under that condition the bound changes no credit row. */
  lemma {:induction false} BoundedRefinesUnbounded(cap: nat, logs: seq<Log>)
    requires cap >= 1 && FewStartBetween(cap, logs)
    ensures Run(Some(cap), Empty, logs).credits == Run(None, Empty, logs).credits
    ensures Newest(cap, Run(Some(cap), Empty, logs), Run(None, Empty, logs))
    ensures OrderValid(Run(Some(cap), Empty, logs)) && OrderValid(Run(None, Empty, logs))
    ensures Run(None, Empty, logs).order == Started(logs)
    decreases |logs|
  {
    if logs != [] {
      var init, log := logs[..|logs| - 1], logs[|logs| - 1];
      assert logs == init + [log];
      forall j | 0 <= j < |init| ensures init[j] == logs[j] && init[..j] == logs[..j] {}
      BoundedRefinesUnbounded(cap, init);
      RunSplit(Some(cap), Empty, init, [log]);
      RunSplit(None, Empty, init, [log]);
      var b, u := Run(Some(cap), Empty, init), Run(None, Empty, init);
      assert Key(log) in u.entries ==> Key(log) in b.entries by {
        assert logs[..|init|] == init;
        assert u.entries.Keys == Keys(u.order) && b.entries.Keys == Keys(b.order);
      }
      StepNewest(cap, b, u, log);
      StepOrder(Some(cap), b, log);
      StepOrder(None, u, log);
    }
  }

  /** With the source's bound: every credit ends with the reason read off the whole log. */
  lemma BoundedIsOffline(logs: seq<Log>, i: nat)
    requires WellFormed(logs) && FewStartBetween(2000, logs)
    requires i < |logs| && logs[i].ClaimRecorded?
    ensures var c := Run(Some(MAX_PENDING_TX_ENTRIES), Empty, logs).credits;
      IdOf(logs[i]) in c && c[IdOf(logs[i])] == Credit(logs[i].account, logs[i].amount, Offline(logs, i))
  {
    BoundedRefinesUnbounded(MAX_PENDING_TX_ENTRIES, logs);
    OnlineIsOffline(logs, i);
  }

  lemma StepSize(cap: nat, s: State, log: Log)
    requires cap >= 1 && OrderValid(s) && |s.order| <= cap
    ensures var t := Step(Some(cap), s, log); OrderValid(t) && |t.order| <= cap && Key(log) in t.entries
  {
    TouchKeeps(Some(cap), s, Key(log));
  }

  lemma RunUnfolds(cap: Option<nat>, s: State, logs: seq<Log>)
    requires logs != []
    ensures Run(cap, s, logs) == Run(cap, Step(cap, s, logs[0]), logs[1..])
    ensures |logs| > 1 ==> logs[1..][|logs[1..]| - 1] == logs[|logs| - 1]
  {
  }

  /** Whatever the logs, the map holds at most `cap` transactions, and the newest log's is one of them. */
  lemma {:induction false} NeverOverfull(cap: nat, s: State, logs: seq<Log>)
    requires cap >= 1 && OrderValid(s) && |s.order| <= cap
    ensures var t := Run(Some(cap), s, logs);
      |t.order| <= cap && OrderValid(t) && (logs != [] ==> Key(logs[|logs| - 1]) in t.entries)
    decreases |logs|
  {
    if logs != [] {
      var t := Step(Some(cap), s, logs[0]);
      StepSize(cap, s, logs[0]);
      NeverOverfull(cap, t, logs[1..]);
      RunUnfolds(Some(cap), s, logs);
      if |logs| == 1 { assert Run(Some(cap), t, logs[1..]) == t; }
    }
  }

  // ---------------------------------------------------------------- the bound is tight

  /** One claim in each of the given transactions. */
  function Claims(txs: seq<string>): seq<Log> {
    if txs == [] then [] else Claims(txs[..|txs| - 1]) + [ClaimRecorded(txs[|txs| - 1], 0, "a", 1)]
  }

  /** Distinct lower-case transaction hashes. */
  ghost predicate Hashes(txs: seq<string>) {
    Distinct(txs) && forall i :: 0 <= i < |txs| ==> Lower(txs[i]) == txs[i]
  }

  lemma {:induction false} ClaimsAre(txs: seq<string>)
    requires Hashes(txs)
    ensures |Claims(txs)| == |txs| && Started(Claims(txs)) == txs
    ensures forall i :: 0 <= i < |txs| ==> Claims(txs)[i] == ClaimRecorded(txs[i], 0, "a", 1)
    decreases |txs|
  {
    if txs != [] {
      var init := txs[..|txs| - 1];
      ClaimsAre(init);
      assert Claims(txs)[..|Claims(txs)| - 1] == Claims(init);
      assert txs == init + [txs[|txs| - 1]];
      assert txs[|txs| - 1] !in init;
    }
  }

  lemma {:induction false} ClaimsPrefix(txs: seq<string>, j: nat)
    requires j <= |txs| && Hashes(txs)
    ensures j <= |Claims(txs)| && Claims(txs)[..j] == Claims(txs[..j])
    decreases |txs|
  {
    ClaimsAre(txs);
    if j < |txs| {
      var init := txs[..|txs| - 1];
      ClaimsPrefix(init, j);
      ClaimsAre(init);
      assert init[..j] == txs[..j];
      AppendPrefix(Claims(init), ClaimRecorded(txs[|txs| - 1], 0, "a", 1), j);
    } else {
      assert txs[..j] == txs && Claims(txs)[..j] == Claims(txs);
    }
  }

  lemma AppendPrefix(logs: seq<Log>, log: Log, j: nat)
    requires j <= |logs|
    ensures (logs + [log])[..j] == logs[..j]
  {
  }

  lemma ClaimsNew(txs: seq<string>, j: nat)
    requires Hashes(txs) && j < |txs|
    ensures j < |Claims(txs)| && Key(Claims(txs)[j]) == txs[j] && txs[j] !in Started(Claims(txs)[..j])
  {
    ClaimsAre(txs);
    ClaimsPrefix(txs, j);
    assert Hashes(txs[..j]);
    ClaimsAre(txs[..j]);
  }

  lemma ClaimsWellFormed(txs: seq<string>, cause: Log)
    requires Hashes(txs) && cause.CauseLogged?
    ensures WellFormed(Claims(txs)) && WellFormed(Claims(txs) + [cause])
  {
    ClaimsAre(txs);
    var logs := Claims(txs) + [cause];
    forall i, j | 0 <= i < j < |logs| && logs[i].ClaimRecorded? && logs[j].ClaimRecorded?
      ensures IdOf(logs[i]) != IdOf(logs[j])
    {
      ClaimsNew(txs, i);
      ClaimsNew(txs, j);
    }
    forall i, j | 0 <= i < j < |txs| ensures IdOf(Claims(txs)[i]) != IdOf(Claims(txs)[j]) {
      ClaimsNew(txs, i);
      ClaimsNew(txs, j);
    }
  }

  lemma ClaimsStartFew(txs: seq<string>, cap: nat)
    requires Hashes(txs)
    ensures FewStartBetween(cap, Claims(txs))
  {
    ClaimsAre(txs);
    forall j | 0 <= j < |txs| ensures Key(Claims(txs)[j]) !in Started(Claims(txs)[..j]) { ClaimsNew(txs, j); }
  }

  lemma CauseStartsFew(txs: seq<string>, cause: Log)
    requires Hashes(txs) && txs != [] && cause.CauseLogged? && Key(cause) == txs[0]
    ensures FewStartBetween(|txs|, Claims(txs) + [cause])
  {
    var logs := Claims(txs) + [cause];
    ClaimsAre(txs);
    forall j | 0 <= j < |txs| ensures Key(logs[j]) !in Started(logs[..j]) {
      assert logs[..j] == Claims(txs)[..j] && logs[j] == Claims(txs)[j];
      ClaimsNew(txs, j);
    }
    assert logs[..|txs|] == Claims(txs);
  }

  /**
   The condition is tight for every bound: when as many other transactions start in between as the
   map holds, a parked credit loses its reason for good.
   */
  lemma EvictionLosesReason(txs: seq<string>) returns (logs: seq<Log>, id: CreditId)
    requires Hashes(txs) && |txs| >= 2
    ensures WellFormed(logs) && FewStartBetween(|txs|, logs)
    ensures var b, u := Run(Some(|txs| - 1), Empty, logs).credits, Run(None, Empty, logs).credits;
      id in b && id in u && b[id].why == None && u[id].why.Some?
  {
    var claims := Claims(txs);
    var cause := CauseLogged(txs[0], Cause(OutbidRefund, "BidRefunded", "a", Some(1), 1));
    logs := claims + [cause];
    ClaimsAre(txs);
    id := IdOf(claims[0]);
    ClaimsWellFormed(txs, cause);
    CauseStartsFew(txs, cause);
    UnexplainedByClaims(txs, id);
    ExplainedByCause(logs, cause);
    EvictedIgnoresCause(txs, cause);
  }

  lemma UnexplainedByClaims(txs: seq<string>, id: CreditId)
    requires Hashes(txs) && txs != [] && |Claims(txs)| == |txs| && Claims(txs)[0].ClaimRecorded? &&
      id == IdOf(Claims(txs)[0])
    ensures var c := Run(None, Empty, Claims(txs)).credits; id in c && c[id].why == None
  {
    ClaimsAre(txs);
    var claims := Claims(txs);
    ClaimsWellFormed(txs, CauseLogged("", Cause(OutbidRefund, "", "", None, 0)));
    OnlineIsOffline(claims, 0);
    assert claims[..0] == [];
    NothingFits(claims[1..], txs[0]);
  }

  lemma ExplainedByCause(logs: seq<Log>, cause: Log)
    requires WellFormed(logs) && |logs| >= 2 && logs[|logs| - 1] == cause && cause.CauseLogged?
    requires logs[0].ClaimRecorded? && logs[0].account == "a" && logs[0].amount == 1 && Key(cause) == Key(logs[0])
    requires Fits(cause.cause, "a", 1) && forall i :: 0 <= i < |logs| - 1 ==> logs[i].ClaimRecorded?
    ensures var c := Run(None, Empty, logs).credits; IdOf(logs[0]) in c && c[IdOf(logs[0])].why.Some?
  {
    OnlineIsOffline(logs, 0);
    OfflineExplained(logs, cause);
  }

  lemma OfflineExplained(logs: seq<Log>, cause: Log)
    requires |logs| >= 2 && logs[|logs| - 1] == cause && cause.CauseLogged?
    requires logs[0].ClaimRecorded? && logs[0].account == "a" && logs[0].amount == 1 && Key(cause) == Key(logs[0])
    requires Fits(cause.cause, "a", 1) && forall i :: 0 <= i < |logs| - 1 ==> logs[i].ClaimRecorded?
    ensures Offline(logs, 0).Some?
  {
    CauseAtEnd(logs[1..], Key(logs[0]), cause);
  }

  lemma EvictedIgnoresCause(txs: seq<string>, cause: Log)
    requires Hashes(txs) && |txs| >= 2 && cause.CauseLogged? && Key(cause) == txs[0]
    ensures Run(Some(|txs| - 1), Empty, Claims(txs) + [cause]).credits == Run(None, Empty, Claims(txs)).credits
  {
    var claims, cap := Claims(txs), |txs| - 1;
    ClaimsAre(txs);
    ClaimsStartFew(txs, cap);
    BoundedRefinesUnbounded(cap, claims);
    RunSplit(Some(cap), Empty, claims, [cause]);
    var b := Run(Some(cap), Empty, claims);
    assert b.order == txs[1..];
    assert txs[0] !in b.order;
    UnknownTxIgnored(cap, b, cause);
  }

  lemma UnknownTxIgnored(cap: nat, b: State, cause: Log)
    requires cap >= 1 && OrderValid(b) && cause.CauseLogged? && Key(cause) !in b.order
    ensures Run(Some(cap), b, [cause]).credits == b.credits
  {
    TouchKeeps(Some(cap), b, Key(cause));
    assert [cause][1..] == [];
  }

  lemma {:induction false} NothingFits(later: seq<Log>, key: string)
    requires forall i :: 0 <= i < |later| ==> later[i].ClaimRecorded?
    ensures FirstFit(key, "a", 1, later) == None
  {
    if later != [] { NothingFits(later[1..], key); }
  }

  lemma {:induction false} CauseAtEnd(later: seq<Log>, key: string, cause: Log)
    requires later != [] && later[|later| - 1] == cause && cause.CauseLogged? && Key(cause) == key &&
      Fits(cause.cause, "a", 1)
    requires forall i :: 0 <= i < |later| - 1 ==> later[i].ClaimRecorded?
    ensures FirstFit(key, "a", 1, later) == Some(cause.cause)
  {
    if |later| > 1 { CauseAtEnd(later[1..], key, cause); }
  }
}
