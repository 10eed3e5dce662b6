/**
 Consignment, hold and challenge rows (src/commerce-handlers.ts) driven by contract logs. The handlers
 find "the live row, limit 1"; that is only right because a stream the contracts can emit keeps at most
 one such row per key. The contracts appear as the automaton of what they may log next.
 */
module Lifecycle {
  import opened Common

  datatype Phase = Offered | Binding | Held | Closed | Returned
  datatype HoldState = Active | ReversalStarted | ReceiptConfirmed | FundsReleased | ReversalCompleted
      | ReversalAbandoned
  datatype Status = Open | Withdrawn | Judged | Concluded

  datatype Key = Key(chain: int, contract: string, token: int)

  datatype Consignment = Consignment(id: string, key: Key, ordinal: nat, phase: Phase)
  datatype Hold = Hold(id: string, chain: int, token: int, buyer: string, gross: nat, state: HoldState,
      clearedAt: Option<int>)
  datatype Challenge = Challenge(id: string, key: Key, status: Status, terminalAt: Option<int>)

  /** Tables as rows in insertion order. */
  datatype Db = Db(consignments: seq<Consignment>, holds: seq<Hold>, challenges: seq<Challenge>)

  datatype Log =
    | ConsignmentOpened(key: Key, id: string)
    | BidPlaced(key: Key)
    | ConsignmentClosed(key: Key, reason: nat)
    | Settled(key: Key, buyer: string, gross: nat)
    | ReversalStart(key: Key)
    | HoldEnded(key: Key, state: HoldState)
    | ChallengeOpened(key: Key, id: string)
    | ChallengeEnded(key: Key, status: Status, outcome: nat)

  const RETURNED: nat := 0
  const UPHELD: nat := 0

  predicate IsLive(p: Phase) { p == Offered || p == Binding || p == Held }

  predicate IsTerminal(s: HoldState) {
    s == ReceiptConfirmed || s == FundsReleased || s == ReversalCompleted || s == ReversalAbandoned
  }

  // ---------------------------------------------------------------- queries

  /** First live row of the key, or the number of rows. */
  function FindLiveConsignment(rows: seq<Consignment>, key: Key): (i: nat)
    ensures i <= |rows|
    ensures i < |rows| ==> rows[i].key == key && IsLive(rows[i].phase)
    ensures forall j :: 0 <= j < i ==> !(rows[j].key == key && IsLive(rows[j].phase))
  {
    if rows == [] || (rows[0].key == key && IsLive(rows[0].phase)) then 0
    else
      var i := FindLiveConsignment(rows[1..], key);
      assert forall j :: 1 <= j < i + 1 ==> rows[j] == rows[1..][j - 1];
      i + 1
  }

  /** Newest uncleared hold of the token, whatever the contract. */
  function FindLiveHold(rows: seq<Hold>, chain: int, token: int): (i: nat)
    ensures i <= |rows|
    ensures i < |rows| ==> rows[i].chain == chain && rows[i].token == token && rows[i].clearedAt.None?
    ensures forall j :: 0 <= j < |rows| && (i == |rows| || i < j) ==>
      !(rows[j].chain == chain && rows[j].token == token && rows[j].clearedAt.None?)
  {
    if rows == [] then 0
    else
      var n := |rows| - 1;
      if rows[n].chain == chain && rows[n].token == token && rows[n].clearedAt.None? then n
      else
        var i := FindLiveHold(rows[..n], chain, token);
        if i == n then n + 1 else i
  }

  /** Newest open challenge of the key. */
  function FindOpenChallenge(rows: seq<Challenge>, key: Key): (i: nat)
    ensures i <= |rows|
    ensures i < |rows| ==> rows[i].key == key && rows[i].status == Open
    ensures forall j :: 0 <= j < |rows| && (i == |rows| || i < j) ==> !(rows[j].key == key && rows[j].status == Open)
  {
    if rows == [] then 0
    else
      var n := |rows| - 1;
      if rows[n].key == key && rows[n].status == Open then n
      else
        var i := FindOpenChallenge(rows[..n], key);
        if i == n then n + 1 else i
  }

  /** Rows ever opened for the token, over both modes. */
  function CountOpens(rows: seq<Consignment>, chain: int, token: int): nat {
    if rows == [] then 0
    else CountOpens(rows[..|rows| - 1], chain, token) +
         (var r := rows[|rows| - 1]; if r.key.chain == chain && r.key.token == token then 1 else 0)
  }

  // ---------------------------------------------------------------- handlers

  function SetPhase(rows: seq<Consignment>, i: nat, p: Phase): seq<Consignment>
    requires i < |rows|
  {
    rows[i := rows[i].(phase := p)]
  }

  function Handle(db: Db, log: Log, at: int): Db {
    var i := FindLiveConsignment(db.consignments, log.key);
    var found := i < |db.consignments|;
    var h := FindLiveHold(db.holds, log.key.chain, log.key.token);
    var held := h < |db.holds|;
    match log
    case ConsignmentOpened(k, id) =>
      db.(consignments := db.consignments +
        [Consignment(id, k, CountOpens(db.consignments, k.chain, k.token) + 1, Offered)])
    case BidPlaced(_) =>
      if found && db.consignments[i].phase == Offered then db.(consignments := SetPhase(db.consignments, i, Binding))
      else db
    case ConsignmentClosed(_, reason) =>
      if found then db.(consignments := SetPhase(db.consignments, i, if reason == RETURNED then Returned else Closed))
      else db
    case Settled(k, buyer, gross) =>
      if found then
        var id := db.consignments[i].id;
        db.(consignments := SetPhase(db.consignments, i, Held),
            holds := db.holds + [Hold(id, k.chain, k.token, buyer, gross, Active, None)])
      else db
    case ReversalStart(_) =>
      if held then db.(holds := db.holds[h := db.holds[h].(state := ReversalStarted)]) else db
    case HoldEnded(_, state) =>
      if held then db.(holds := db.holds[h := db.holds[h].(state := state, clearedAt := Some(at))]) else db
    case ChallengeOpened(k, id) => db.(challenges := db.challenges + [Challenge(id, k, Open, None)])
    case ChallengeEnded(k, status, _) =>
      var c := FindOpenChallenge(db.challenges, k);
      if c < |db.challenges| then
        db.(challenges := db.challenges[c := db.challenges[c].(status := status, terminalAt := Some(at))])
      else db
  }

  // ---------------------------------------------------------------- all streams

  /** Ordinals count the token's openings, in both modes, from 1. */
  ghost predicate OrdinalsCount(rows: seq<Consignment>) {
    forall i :: 0 <= i < |rows| ==> OrdinalCounts(rows, i)
  }

  ghost predicate OrdinalCounts(rows: seq<Consignment>, i: int)
    requires 0 <= i < |rows|
  {
    rows[i].ordinal == CountOpens(rows[..i], rows[i].key.chain, rows[i].key.token) + 1
  }

  /** A hold is cleared exactly in its four terminal states. */
  ghost predicate ClearedIffTerminal(rows: seq<Hold>) {
    forall i :: 0 <= i < |rows| ==> (rows[i].clearedAt.Some? <==> IsTerminal(rows[i].state))
  }

  /**
   Rows are never removed; openings keep key, id and ordinal, challenges key and id; a cleared hold and an ended
   challenge never change.
   */
  ghost predicate RowsKept(a: Db, b: Db) {
    && |a.consignments| <= |b.consignments| && |a.holds| <= |b.holds| && |a.challenges| <= |b.challenges|
    && (forall i :: 0 <= i < |a.challenges| ==>
          b.challenges[i].id == a.challenges[i].id && b.challenges[i].key == a.challenges[i].key)
    && (forall i :: 0 <= i < |a.challenges| && a.challenges[i].status != Open ==> b.challenges[i] == a.challenges[i])
    && (forall i ::
      0 <= i < |a.consignments| ==> b.consignments[i] == a.consignments[i].(phase := b.consignments[i].phase))
    && (forall i ::
      0 <= i < |a.consignments| && !IsLive(a.consignments[i].phase) ==> b.consignments[i] == a.consignments[i])
    && (forall i :: 0 <= i < |a.holds| && a.holds[i].clearedAt.Some? ==> b.holds[i] == a.holds[i])
  }

  lemma {:induction false} CountSame(a: seq<Consignment>, b: seq<Consignment>, chain: int, token: int)
    requires |a| == |b| && forall i :: 0 <= i < |a| ==> a[i].key == b[i].key
    ensures CountOpens(a, chain, token) == CountOpens(b, chain, token)
    decreases |a|
  {
    if a != [] { CountSame(a[..|a| - 1], b[..|b| - 1], chain, token); }
  }

  lemma OrdinalsAfterUpdate(a: seq<Consignment>, b: seq<Consignment>)
    requires OrdinalsCount(a) && |a| == |b|
    requires forall i :: 0 <= i < |a| ==> b[i].key == a[i].key && b[i].ordinal == a[i].ordinal
    ensures OrdinalsCount(b)
  {
    forall i | 0 <= i < |b| ensures OrdinalCounts(b, i) {
      assert OrdinalCounts(a, i);
      CountSame(a[..i], b[..i], a[i].key.chain, a[i].key.token);
    }
  }

  lemma OrdinalsAfterOpen(a: seq<Consignment>, r: Consignment)
    requires OrdinalsCount(a) && r.ordinal == CountOpens(a, r.key.chain, r.key.token) + 1
    ensures OrdinalsCount(a + [r])
  {
    var b := a + [r];
    forall i | 0 <= i < |b| ensures OrdinalCounts(b, i) {
      assert b[..i] == a[..i];
      if i == |a| { assert b[..i] == a; } else { assert OrdinalCounts(a, i); }
    }
  }

  lemma OrdinalsKept(db: Db, log: Log, at: int)
    requires OrdinalsCount(db.consignments)
    ensures OrdinalsCount(Handle(db, log, at).consignments)
  {
    var t := Handle(db, log, at);
    if log.ConsignmentOpened? {
      OrdinalsAfterOpen(db.consignments, t.consignments[|db.consignments|]);
    } else {
      OrdinalsAfterUpdate(db.consignments, t.consignments);
    }
  }

  lemma ClearedKept(db: Db, log: Log, at: int)
    requires ClearedIffTerminal(db.holds) && (log.HoldEnded? ==> IsTerminal(log.state))
    ensures ClearedIffTerminal(Handle(db, log, at).holds)
  {
  }

  lemma RowsStay(db: Db, log: Log, at: int)
    ensures RowsKept(db, Handle(db, log, at))
  {
  }

  function Run(db: Db, logs: seq<Log>): Db {
    if logs == [] then db else Handle(Run(db, logs[..|logs| - 1]), logs[|logs| - 1], |logs|)
  }

  const EmptyDb := Db([], [], [])

  /**
   Over any stream: ordinals are 1..n in opening order, holds are cleared exactly when terminal,
   terminal holds and ended challenges never change.
   */
  lemma {:induction false} EveryStreamKeeps(logs: seq<Log>)
    requires forall l :: l in logs && l.HoldEnded? ==> IsTerminal(l.state)
    ensures OrdinalsCount(Run(EmptyDb, logs).consignments) && ClearedIffTerminal(Run(EmptyDb, logs).holds)
    ensures logs != [] ==> RowsKept(Run(EmptyDb, logs[..|logs| - 1]), Run(EmptyDb, logs))
    decreases |logs|
  {
    if logs != [] {
      EveryStreamKeeps(logs[..|logs| - 1]);
      var db, log := Run(EmptyDb, logs[..|logs| - 1]), logs[|logs| - 1];
      OrdinalsKept(db, log, |logs|);
      ClearedKept(db, log, |logs|);
      RowsStay(db, log, |logs|);
    }
  }

  /** So the ordinals of a token are exactly 1..n, in opening order. */
  lemma {:induction false} OrdinalsOneToN(rows: seq<Consignment>, chain: int, token: int, m: nat)
    requires OrdinalsCount(rows) && 1 <= m <= CountOpens(rows, chain, token)
    ensures exists i ::
      0 <= i < |rows| && rows[i].key.chain == chain && rows[i].key.token == token && rows[i].ordinal == m
    decreases |rows|
  {
    var init, r := rows[..|rows| - 1], rows[|rows| - 1];
    if m <= CountOpens(init, chain, token) {
      forall i | 0 <= i < |init| ensures OrdinalCounts(init, i) {
        assert init[..i] == rows[..i] && OrdinalCounts(rows, i);
      }
      OrdinalsOneToN(init, chain, token, m);
      var i :| 0 <= i < |init| && init[i].key.chain == chain && init[i].key.token == token && init[i].ordinal == m;
      assert rows[i] == init[i];
    } else {
      assert OrdinalCounts(rows, |rows| - 1);
      assert rows[|rows| - 1].ordinal == m;
    }
  }

  lemma {:induction false} CountGrows(rows: seq<Consignment>, i: nat, j: nat, chain: int, token: int)
    requires i <= j <= |rows|
    ensures CountOpens(rows[..i], chain, token) <= CountOpens(rows[..j], chain, token)
    decreases j
  {
    if i < j {
      assert rows[..j][..j - 1] == rows[..j - 1];
      CountGrows(rows, i, j - 1, chain, token);
    }
  }

  lemma CountThrough(rows: seq<Consignment>, i: nat)
    requires OrdinalsCount(rows) && i < |rows|
    ensures CountOpens(rows[..i + 1], rows[i].key.chain, rows[i].key.token) == rows[i].ordinal
  {
    assert rows[..i + 1][..i] == rows[..i];
    assert OrdinalCounts(rows, i);
  }

  lemma OrdinalsAscend(rows: seq<Consignment>, i: nat, j: nat)
    requires OrdinalsCount(rows) && i < j < |rows|
    requires rows[i].key.chain == rows[j].key.chain && rows[i].key.token == rows[j].key.token
    ensures rows[i].ordinal < rows[j].ordinal <= CountOpens(rows, rows[j].key.chain, rows[j].key.token)
  {
    CountThrough(rows, i);
    CountThrough(rows, j);
    assert OrdinalCounts(rows, j);
    CountGrows(rows, i + 1, j, rows[j].key.chain, rows[j].key.token);
    CountGrows(rows, j + 1, |rows|, rows[j].key.chain, rows[j].key.token);
    assert rows[..|rows|] == rows;
  }

  // ---------------------------------------------------------------- streams the contracts can emit

  /**
   What a lot has logged. A held lot leaves its hold in one of two ways: it is closed and the hold's end
   is logged next (EndingLot), or its settlement challenge is dismissed (RuledLot) and it is closed with
   no log of the hold at all.
   */
  datatype Stage = OfferedLot | BindingLot | HeldLot | RuledLot | EndingLot
  datatype Lot = Lot(id: string, stage: Stage, buyer: string, gross: nat, reversing: bool)

  /** stranded counts the lots of each passport closed by a dismissed challenge. */
  datatype Contracts = Contracts(lots: map<Key, Lot>, challenges: map<Key, string>, stranded: multiset<(int, int)>)

  const NoContracts := Contracts(map[], map[], multiset{})

  function NewLot(id: string): Lot { Lot(id, OfferedLot, "", 0, false) }

  /** Judged against the challenger, or expired. */
  predicate Dismisses(log: Log) {
    log.ChallengeEnded? && (log.status == Concluded || (log.status == Judged && log.outcome != UPHELD))
  }

  ghost predicate Free(c: Contracts, chain: int, token: int) {
    forall k :: k in c.lots ==> !(k.chain == chain && k.token == token)
  }

  /** The passport is in one lot at a time; an open challenge blocks the exits of the hold. */
  ghost predicate May(c: Contracts, log: Log) {
    match log
    case ConsignmentOpened(k, _) => Free(c, k.chain, k.token)
    case BidPlaced(k) => k in c.lots && (c.lots[k].stage == OfferedLot || c.lots[k].stage == BindingLot)
    case ConsignmentClosed(k, _) =>
      k in c.lots && c.lots[k].stage != EndingLot && (c.lots[k].stage == HeldLot ==> k !in c.challenges)
    case Settled(k, _, _) => k in c.lots && c.lots[k].stage == BindingLot
    case ReversalStart(k) => k in c.lots && c.lots[k].stage == HeldLot
    case HoldEnded(k, state) => k in c.lots && c.lots[k].stage == EndingLot && IsTerminal(state)
    case ChallengeOpened(k, _) =>
      k !in c.challenges && (k in c.lots ==> c.lots[k].stage == HeldLot && !c.lots[k].reversing)
    case ChallengeEnded(k, status, _) => k in c.challenges && status != Open
  }

  function After(c: Contracts, log: Log): Contracts {
    var k := log.key;
    match log
    case ConsignmentOpened(_, id) => c.(lots := c.lots[k := NewLot(id)])
    case BidPlaced(_) => if k in c.lots then c.(lots := c.lots[k := c.lots[k].(stage := BindingLot)]) else c
    case ConsignmentClosed(_, _) =>
      if k in c.lots && c.lots[k].stage == HeldLot then c.(lots := c.lots[k := c.lots[k].(stage := EndingLot)])
      else if k in c.lots && c.lots[k].stage == RuledLot then
        c.(lots := c.lots - {k}, stranded := c.stranded + multiset{(k.chain, k.token)})
      else c.(lots := c.lots - {k})
    case Settled(_, buyer, gross) =>
      if k in c.lots then c.(lots := c.lots[k := c.lots[k].(stage := HeldLot, buyer := buyer, gross := gross)]) else c
    case ReversalStart(_) => if k in c.lots then c.(lots := c.lots[k := c.lots[k].(reversing := true)]) else c
    case HoldEnded(_, _) => c.(lots := c.lots - {k})
    case ChallengeOpened(_, id) => c.(challenges := c.challenges[k := id])
    case ChallengeEnded(_, _, _) =>
      var d := c.(challenges := c.challenges - {k});
      if k in c.lots && c.lots[k].stage == HeldLot && Dismisses(log) then
        d.(lots := c.lots[k := c.lots[k].(stage := RuledLot)])
      else d
  }

  function PhaseOf(s: Stage): Phase {
    match s
    case OfferedLot => Offered
    case BindingLot => Binding
    case HeldLot => Held
    case RuledLot => Held
    case EndingLot => Closed
  }

  /** One lot per passport; only a settled lot can be reversing. */
  ghost predicate OneLot(c: Contracts) {
    && (forall k, m :: k in c.lots && m in c.lots && k.chain == m.chain && k.token == m.token ==> k == m)
    && (forall k :: k in c.lots && !HasHold(c, k) ==> !c.lots[k].reversing)
  }

  ghost predicate LiveRow(rows: seq<Consignment>, i: int, k: Key) {
    0 <= i < |rows| && rows[i].key == k && IsLive(rows[i].phase)
  }

  /** The live rows are the live lots, one row each, in the lot's phase. */
  ghost predicate LotsMirrored(rows: seq<Consignment>, c: Contracts) {
    && (forall i, k :: LiveRow(rows, i, k) ==>
          k in c.lots && rows[i].phase == PhaseOf(c.lots[k].stage) && rows[i].id == c.lots[k].id)
    && (forall k :: k in c.lots && c.lots[k].stage != EndingLot ==> exists i :: LiveRow(rows, i, k))
    && (forall i, j, k :: LiveRow(rows, i, k) && LiveRow(rows, j, k) ==> i == j)
  }

  ghost predicate LiveHold(rows: seq<Hold>, i: int, k: Key) {
    0 <= i < |rows| && rows[i].chain == k.chain && rows[i].token == k.token && rows[i].clearedAt.None?
  }

  ghost predicate HasHold(c: Contracts, k: Key) {
    k in c.lots && (c.lots[k].stage == HeldLot || c.lots[k].stage == RuledLot || c.lots[k].stage == EndingLot)
  }

  /** The row says what the lot's settlement and reversal logged. */
  ghost predicate HoldOf(lot: Lot, k: Key, row: Hold) {
    && row.chain == k.chain && row.token == k.token && row.clearedAt.None?
    && row.id == lot.id && row.buyer == lot.buyer && row.gross == lot.gross
    && row.state == (if lot.reversing then ReversalStarted else Active)
  }

  /** Row i is the newest uncleared hold of the token, and is the lot's. */
  ghost predicate Newest(rows: seq<Hold>, i: int, k: Key, lot: Lot) {
    && 0 <= i < |rows| && HoldOf(lot, k, rows[i])
    && forall j :: i < j < |rows| ==> !LiveHold(rows, j, k)
  }

  ghost predicate Rowed(rows: seq<Hold>, k: Key, lot: Lot) {
    exists i :: Newest(rows, i, k, lot)
  }

  /** Every lot with a hold has its row, the newest uncleared one of its passport. */
  ghost predicate HoldsMirrored(rows: seq<Hold>, c: Contracts) {
    forall k :: HasHold(c, k) ==> Rowed(rows, k, c.lots[k])
  }

  /** Uncleared holds of the token. */
  function Uncleared(rows: seq<Hold>, chain: int, token: int): nat {
    if rows == [] then 0
    else Uncleared(rows[..|rows| - 1], chain, token) +
         (var r := rows[|rows| - 1]; if r.chain == chain && r.token == token && r.clearedAt.None? then 1 else 0)
  }

  ghost predicate Holding(c: Contracts, chain: int, token: int) {
    exists k :: HasHold(c, k) && k.chain == chain && k.token == token
  }

  /** Uncleared rows: the passport's hold if it has one, and one for each lot closed by a dismissed challenge. */
  ghost predicate HoldsCounted(rows: seq<Hold>, c: Contracts, chain: int, token: int) {
    Uncleared(rows, chain, token) == c.stranded[(chain, token)] + if Holding(c, chain, token) then 1 else 0
  }

  ghost predicate OpenRow(rows: seq<Challenge>, i: int, k: Key) {
    0 <= i < |rows| && rows[i].key == k && rows[i].status == Open
  }

  ghost predicate ChallengesMirrored(rows: seq<Challenge>, c: Contracts) {
    && (forall i, k :: OpenRow(rows, i, k) ==> k in c.challenges && rows[i].id == c.challenges[k])
    && (forall k :: k in c.challenges ==> exists i :: OpenRow(rows, i, k))
    && (forall i, j, k :: OpenRow(rows, i, k) && OpenRow(rows, j, k) ==> i == j)
  }

  lemma OneLotKept(c: Contracts, log: Log)
    requires OneLot(c) && May(c, log)
    ensures OneLot(After(c, log))
  {
  }

  lemma ChallengesKept(db: Db, c: Contracts, log: Log, at: int)
    requires ChallengesMirrored(db.challenges, c) && May(c, log)
    ensures ChallengesMirrored(Handle(db, log, at).challenges, After(c, log))
  {
    if log.ChallengeOpened? {
      ChallengeAdded(db.challenges, Challenge(log.id, log.key, Open, None), c, After(c, log));
    } else if log.ChallengeEnded? {
      ChallengeClosed(db.challenges, log, at, c, After(c, log));
    }
  }

  lemma ChallengeAdded(rows: seq<Challenge>, r: Challenge, c: Contracts, d: Contracts)
    requires ChallengesMirrored(rows, c) && r.key !in c.challenges && r.status == Open
    requires d.challenges == c.challenges[r.key := r.id]
    ensures ChallengesMirrored(rows + [r], d)
  {
    var t := rows + [r];
    assert OpenRow(t, |rows|, r.key);
    forall i, k | OpenRow(t, i, k) ensures i == |rows| || OpenRow(rows, i, k) {}
    forall k | k in c.challenges ensures exists i :: OpenRow(t, i, k) {
      var i :| OpenRow(rows, i, k);
      assert OpenRow(t, i, k);
    }
  }

  lemma ChallengeClosed(rows: seq<Challenge>, log: Log, at: int, c: Contracts, d: Contracts)
    requires ChallengesMirrored(rows, c) && log.ChallengeEnded? && log.key in c.challenges && log.status != Open
    requires d.challenges == c.challenges - {log.key}
    ensures ChallengesMirrored(Handle(Db([], [], rows), log, at).challenges, d)
  {
    var t := Handle(Db([], [], rows), log, at).challenges;
    var j :| OpenRow(rows, j, log.key);
    var n := FindOpenChallenge(rows, log.key);
    assert OpenRow(rows, n, log.key);
    forall i, k | OpenRow(t, i, k) ensures OpenRow(rows, i, k) && k != log.key {
      assert OpenRow(rows, i, k);
    }
    forall k | k in d.challenges ensures exists i :: OpenRow(t, i, k) {
      var i :| OpenRow(rows, i, k);
      assert OpenRow(t, i, k);
    }
  }

  lemma LotsKept(db: Db, c: Contracts, log: Log, at: int)
    requires LotsMirrored(db.consignments, c) && May(c, log)
    ensures LotsMirrored(Handle(db, log, at).consignments, After(c, log))
  {
    if log.ConsignmentOpened? {
      var rows := db.consignments;
      LotOpened(rows, Handle(db, log, at).consignments[|rows|], c, log.key);
    } else if log.BidPlaced? || log.Settled? || log.ConsignmentClosed? {
      LotChanged(db, c, log, at);
    } else {
      LotsSame(db.consignments, c, log);
    }
  }

  lemma LotChanged(db: Db, c: Contracts, log: Log, at: int)
    requires LotsMirrored(db.consignments, c) && May(c, log) &&
      (log.BidPlaced? || log.Settled? || log.ConsignmentClosed?)
    ensures LotsMirrored(Handle(db, log, at).consignments, After(c, log))
  {
    var n := LiveLotFound(db.consignments, c, log.key);
    LotMoved(db.consignments, Handle(db, log, at).consignments, c, After(c, log), log.key, n);
  }

  ghost predicate SamePhase(c: Contracts, d: Contracts, m: Key) {
    && ((m in c.lots && c.lots[m].stage != EndingLot) <==> (m in d.lots && d.lots[m].stage != EndingLot))
    && (m in c.lots && c.lots[m].stage != EndingLot ==>
          d.lots[m].id == c.lots[m].id && PhaseOf(d.lots[m].stage) == PhaseOf(c.lots[m].stage))
  }

  lemma LotsSame(rows: seq<Consignment>, c: Contracts, log: Log)
    requires LotsMirrored(rows, c) && May(c, log)
    requires log.ReversalStart? || log.HoldEnded? || log.ChallengeOpened? || log.ChallengeEnded?
    ensures LotsMirrored(rows, After(c, log))
  {
    forall m ensures SamePhase(c, After(c, log), m) {}
    forall i, k | LiveRow(rows, i, k)
      ensures k in After(c, log).lots && rows[i].phase == PhaseOf(After(c, log).lots[k].stage) &&
        rows[i].id == After(c, log).lots[k].id
    {
      assert SamePhase(c, After(c, log), k);
    }
    forall k | k in After(c, log).lots && After(c, log).lots[k].stage != EndingLot
      ensures exists i :: LiveRow(rows, i, k)
    {
      assert SamePhase(c, After(c, log), k);
    }
  }

  lemma LotOpened(rows: seq<Consignment>, r: Consignment, c: Contracts, k: Key)
    requires LotsMirrored(rows, c) && k !in c.lots && r.key == k && r.phase == Offered
    ensures LotsMirrored(rows + [r], c.(lots := c.lots[k := NewLot(r.id)]))
  {
    var t, d := rows + [r], c.(lots := c.lots[k := NewLot(r.id)]);
    assert LiveRow(t, |rows|, k);
    forall i, m | LiveRow(t, i, m) ensures (i == |rows| && m == k) || (LiveRow(rows, i, m) && m != k) {}
    forall m | m in d.lots && d.lots[m].stage != EndingLot ensures exists i :: LiveRow(t, i, m) {
      if m != k {
        var i :| LiveRow(rows, i, m);
        assert LiveRow(t, i, m);
      }
    }
  }

  /** One lot's row takes the lot's new phase, or stops being live with it. */
  lemma LotMoved(rows: seq<Consignment>, t: seq<Consignment>, c: Contracts, d: Contracts, k: Key, n: nat)
    requires LotsMirrored(rows, c) && LiveRow(rows, n, k)
    requires |t| == |rows| && t[n].key == k && t[n].id == rows[n].id &&
      forall i :: 0 <= i < |rows| && i != n ==> t[i] == rows[i]
    requires forall m :: m != k ==> (m in d.lots <==> m in c.lots) && (m in c.lots ==> d.lots[m] == c.lots[m])
    requires if IsLive(t[n].phase) then
      k in d.lots && d.lots[k].id == c.lots[k].id && t[n].phase == PhaseOf(d.lots[k].stage)
             else k !in d.lots || d.lots[k].stage == EndingLot
    ensures LotsMirrored(t, d)
  {
    forall i, m | LiveRow(t, i, m)
      ensures m in d.lots && t[i].phase == PhaseOf(d.lots[m].stage) && t[i].id == d.lots[m].id && LiveRow(rows, i, m)
    {
      if i != n { assert LiveRow(rows, i, m); assert m != k; }
    }
    forall m | m in d.lots && d.lots[m].stage != EndingLot ensures exists i :: LiveRow(t, i, m) {
      if m == k {
        assert LiveRow(t, n, m);
      } else {
        var i :| LiveRow(rows, i, m);
        assert LiveRow(t, i, m);
      }
    }
  }

  lemma LiveLotFound(rows: seq<Consignment>, c: Contracts, k: Key) returns (n: nat)
    requires LotsMirrored(rows, c) && k in c.lots && c.lots[k].stage != EndingLot
    ensures n == FindLiveConsignment(rows, k) && n < |rows|
    ensures rows[n].key == k && rows[n].id == c.lots[k].id && rows[n].phase == PhaseOf(c.lots[k].stage)
  {
    var j :| LiveRow(rows, j, k);
    n := FindLiveConsignment(rows, k);
    assert LiveRow(rows, n, k);
  }

  /** The query finds the lot's own hold, stranded rows or not. */
  lemma LiveHoldFound(rows: seq<Hold>, c: Contracts, k: Key) returns (n: nat)
    requires HoldsMirrored(rows, c) && HasHold(c, k)
    ensures n == FindLiveHold(rows, k.chain, k.token) && Newest(rows, n, k, c.lots[k])
  {
    assert Rowed(rows, k, c.lots[k]);
    n :| Newest(rows, n, k, c.lots[k]);
    assert LiveHold(rows, n, k);
    assert !(n < FindLiveHold(rows, k.chain, k.token) < |rows|) by {
      if n < FindLiveHold(rows, k.chain, k.token) < |rows| {
        assert LiveHold(rows, FindLiveHold(rows, k.chain, k.token), k);
      }
    }
  }

  /** Adding or changing a row of another passport keeps a lot's row. */
  lemma RowedElsewhere(rows: seq<Hold>, t: seq<Hold>, n: nat, m: Key, lot: Lot)
    requires Rowed(rows, m, lot) && |rows| <= |t| <= |rows| + 1 && n < |t| && (|t| == |rows| || n == |rows|)
    requires forall i :: 0 <= i < |rows| && i != n ==> t[i] == rows[i]
    requires !(t[n].chain == m.chain && t[n].token == m.token) && (n < |rows| ==> !LiveHold(rows, n, m))
    ensures Rowed(t, m, lot)
  {
    var i :| Newest(rows, i, m, lot);
    forall j | i < j < |t| ensures !LiveHold(t, j, m) {
      assert j != n ==> !LiveHold(rows, j, m);
    }
    assert Newest(t, i, m, lot);
  }

  lemma HoldsKept(db: Db, c: Contracts, log: Log, at: int)
    requires LotsMirrored(db.consignments, c) && HoldsMirrored(db.holds, c) && OneLot(c) && May(c, log)
    ensures HoldsMirrored(Handle(db, log, at).holds, After(c, log))
  {
    var k, rows, t, d := log.key, db.holds, Handle(db, log, at).holds, After(c, log);
    forall m | HasHold(d, m) ensures Rowed(t, m, d.lots[m]) {
      if m == k { LotRowKept(db, c, log, at); } else { OtherRowKept(db, c, log, at, m); }
    }
  }

  /** A settlement appends the lot's hold. */
  lemma SettledAppends(db: Db, c: Contracts, log: Log, at: int) returns (row: Hold)
    requires LotsMirrored(db.consignments, c) && OneLot(c) && May(c, log) && log.Settled?
    ensures Handle(db, log, at).holds == db.holds + [row] && HoldOf(After(c, log).lots[log.key], log.key, row)
  {
    var n := LiveLotFound(db.consignments, c, log.key);
    row := Hold(db.consignments[n].id, log.key.chain, log.key.token, log.buyer, log.gross, Active, None);
  }

  lemma LastIsNewestHold(rows: seq<Hold>, row: Hold, k: Key, lot: Lot)
    requires HoldOf(lot, k, row)
    ensures Rowed(rows + [row], k, lot)
  {
    assert Newest(rows + [row], |rows|, k, lot);
  }

  /** A log that finds the lot's hold changes that row at most. */
  lemma HoldRowKept(db: Db, c: Contracts, log: Log, at: int) returns (n: nat)
    requires HoldsMirrored(db.holds, c) && May(c, log) && HasHold(c, log.key) && !log.Settled?
    ensures var rows, t := db.holds, Handle(db, log, at).holds;
      && |t| == |rows| && Newest(rows, n, log.key, c.lots[log.key]) &&
        (forall j :: 0 <= j < |rows| && j != n ==> t[j] == rows[j])
      && t[n].chain == rows[n].chain && t[n].token == rows[n].token
      && (HasHold(After(c, log), log.key) ==> HoldOf(After(c, log).lots[log.key], log.key, t[n]))
  {
    n := LiveHoldFound(db.holds, c, log.key);
  }

  lemma LotRowKept(db: Db, c: Contracts, log: Log, at: int)
    requires LotsMirrored(db.consignments, c) && HoldsMirrored(db.holds, c) && OneLot(c) && May(c, log)
    requires HasHold(After(c, log), log.key)
    ensures Rowed(Handle(db, log, at).holds, log.key, After(c, log).lots[log.key])
  {
    var k, rows, t, lot := log.key, db.holds, Handle(db, log, at).holds, After(c, log).lots[log.key];
    if log.Settled? {
      var row := SettledAppends(db, c, log, at);
      LastIsNewestHold(rows, row, k, lot);
    } else {
      var n := HoldRowKept(db, c, log, at);
      forall j | n < j < |rows| ensures !LiveHold(t, j, k) { assert !LiveHold(rows, j, k); }
      assert Newest(t, n, k, lot);
    }
  }

  /** A log of one lot leaves the others alone. */
  lemma OtherLotKept(c: Contracts, log: Log, m: Key)
    requires May(c, log) && m != log.key && HasHold(After(c, log), m)
    ensures HasHold(c, m) && After(c, log).lots[m] == c.lots[m]
  {
  }

  lemma OtherRowKept(db: Db, c: Contracts, log: Log, at: int, m: Key)
    requires LotsMirrored(db.consignments, c) && HoldsMirrored(db.holds, c) && OneLot(c) && May(c, log)
    requires m != log.key && HasHold(After(c, log), m)
    ensures Rowed(Handle(db, log, at).holds, m, After(c, log).lots[m])
  {
    var rows, t := db.holds, Handle(db, log, at).holds;
    OtherLotKept(c, log, m);
    assert Rowed(rows, m, c.lots[m]);
    if log.Settled? {
      var row := SettledAppends(db, c, log, at);
      OtherPassport(c, log, m);
      RowedElsewhere(rows, t, |rows|, m, c.lots[m]);
    } else if log.HoldEnded? || log.ReversalStart? {
      var n := HoldRowKept(db, c, log, at);
      OtherPassport(c, log, m);
      RowedElsewhere(rows, t, n, m, c.lots[m]);
    }
  }

  /** Two lots with holds are of different passports. */
  lemma OtherPassport(c: Contracts, log: Log, m: Key)
    requires OneLot(c) && May(c, log) && log.key in c.lots && m != log.key && HasHold(c, m)
    ensures !(m.chain == log.key.chain && m.token == log.key.token)
  {
  }

  lemma {:induction false} UnclearedUpdate(rows: seq<Hold>, n: nat, r: Hold, chain: int, token: int)
    requires n < |rows| && rows[n].clearedAt.None? && r.chain == rows[n].chain && r.token == rows[n].token
    ensures Uncleared(rows[n := r], chain, token) ==
      Uncleared(rows, chain, token) - if rows[n].chain == chain && rows[n].token == token && r.clearedAt.Some? then 1
        else 0
    decreases |rows|
  {
    var l := |rows| - 1;
    if n == l {
      assert rows[n := r][..l] == rows[..l];
    } else {
      UnclearedUpdate(rows[..l], n, r, chain, token);
      assert rows[n := r][..l] == rows[..l][n := r];
    }
  }

  lemma CountKept(db: Db, c: Contracts, log: Log, at: int, chain: int, token: int)
    requires LotsMirrored(db.consignments, c) && HoldsMirrored(db.holds, c) && OneLot(c) && May(c, log)
    requires HoldsCounted(db.holds, c, chain, token)
    ensures HoldsCounted(Handle(db, log, at).holds, After(c, log), chain, token)
  {
    RowsCount(db, c, log, at, chain, token);
    LotsCount(c, log, chain, token);
  }

  predicate Mine(log: Log, chain: int, token: int) {
    log.key.chain == chain && log.key.token == token
  }

  lemma RowsCount(db: Db, c: Contracts, log: Log, at: int, chain: int, token: int)
    requires LotsMirrored(db.consignments, c) && HoldsMirrored(db.holds, c) && OneLot(c) && May(c, log)
    ensures Uncleared(Handle(db, log, at).holds, chain, token) == Uncleared(db.holds, chain, token) +
      if Mine(log, chain, token) && log.Settled? then 1 else if Mine(log, chain, token) && log.HoldEnded? then -1 else 0
  {
    var rows, t, k := db.holds, Handle(db, log, at).holds, log.key;
    if log.Settled? {
      var n := LiveLotFound(db.consignments, c, k);
      assert t[..|rows|] == rows;
    } else if log.HoldEnded? || log.ReversalStart? {
      var n := LiveHoldFound(rows, c, k);
      UnclearedUpdate(rows, n, t[n], chain, token);
    }
  }

  function Bit(b: bool): nat { if b then 1 else 0 }

  lemma LotsCount(c: Contracts, log: Log, chain: int, token: int)
    requires OneLot(c) && May(c, log)
    ensures var d := After(c, log);
      d.stranded[(chain, token)] + Bit(Holding(d, chain, token)) ==
        c.stranded[(chain, token)] + Bit(Holding(c, chain, token)) +
      if Mine(log, chain, token) && log.Settled? then 1 else if Mine(log, chain, token) && log.HoldEnded? then -1 else 0
  {
    if Mine(log, chain, token) { HoldingHere(c, log); } else { HoldingThere(c, log, chain, token); }
  }

  lemma HoldingHere(c: Contracts, log: Log)
    requires OneLot(c) && May(c, log)
    ensures Holding(c, log.key.chain, log.key.token) <== HasHold(c, log.key)
    ensures log.key in c.lots || log.ConsignmentOpened? ==>
      (Holding(c, log.key.chain, log.key.token) ==> HasHold(c, log.key))
    ensures Holding(After(c, log), log.key.chain, log.key.token) <== HasHold(After(c, log), log.key)
    ensures log.key in c.lots || log.ConsignmentOpened? ==>
      (Holding(After(c, log), log.key.chain, log.key.token) ==> HasHold(After(c, log), log.key))
    ensures log.key !in c.lots && !log.ConsignmentOpened? ==> After(c, log).lots == c.lots
  {
    var d, k := After(c, log), log.key;
    forall m | HasHold(d, m) && m != k ensures HasHold(c, m) {}
  }

  lemma HoldingThere(c: Contracts, log: Log, chain: int, token: int)
    requires !Mine(log, chain, token)
    ensures Holding(After(c, log), chain, token) <==> Holding(c, chain, token)
  {
    var d := After(c, log);
    forall m: Key | m.chain == chain && m.token == token ensures HasHold(c, m) <==> HasHold(d, m) {}
  }

  /** Streams the contracts can emit. */
  ghost predicate Emitted(logs: seq<Log>) {
    logs == [] || (Emitted(logs[..|logs| - 1]) && May(State(logs[..|logs| - 1]), logs[|logs| - 1]))
  }

  function State(logs: seq<Log>): Contracts {
    if logs == [] then NoContracts else After(State(logs[..|logs| - 1]), logs[|logs| - 1])
  }

  /**
   After any emitted stream the live rows are exactly what the contracts hold: one live consignment per
   lot in the lot's phase, one open challenge per challenge, and for every lot with a hold its own row,
   the newest uncleared one of the passport.
   */
  lemma {:induction false} TablesMirrorContracts(logs: seq<Log>)
    requires Emitted(logs)
    ensures var db, c := Run(EmptyDb, logs), State(logs);
      OneLot(c) && LotsMirrored(db.consignments, c) && HoldsMirrored(db.holds, c) &&
        ChallengesMirrored(db.challenges, c)
    decreases |logs|
  {
    if logs != [] {
      var init, log := logs[..|logs| - 1], logs[|logs| - 1];
      TablesMirrorContracts(init);
      var db, c := Run(EmptyDb, init), State(init);
      OneLotKept(c, log);
      LotsKept(db, c, log, |logs|);
      HoldsKept(db, c, log, |logs|);
      ChallengesKept(db, c, log, |logs|);
    }
  }

  /** So "limit 1" has no choice: the queries find the lot's row, the lot's hold and the open challenge. */
  lemma QueriesFindTheLot(logs: seq<Log>, i: nat, k: Key)
    requires Emitted(logs)
    ensures var db, c := Run(EmptyDb, logs), State(logs);
      && (LiveRow(db.consignments, i, k) ==> i == FindLiveConsignment(db.consignments, k))
      && (HasHold(c, k) && Newest(db.holds, i, k, c.lots[k]) ==> i == FindLiveHold(db.holds, k.chain, k.token))
      && (OpenRow(db.challenges, i, k) ==> i == FindOpenChallenge(db.challenges, k))
  {
    TablesMirrorContracts(logs);
    var db, c := Run(EmptyDb, logs), State(logs);
    if LiveRow(db.consignments, i, k) { assert LiveRow(db.consignments, FindLiveConsignment(db.consignments, k), k); }
    if HasHold(c, k) && Newest(db.holds, i, k, c.lots[k]) {
      var n := LiveHoldFound(db.holds, c, k);
      assert n < i ==> LiveHold(db.holds, i, k);
      assert i < n ==> LiveHold(db.holds, n, k);
    }
    if OpenRow(db.challenges, i, k) { assert OpenRow(db.challenges, FindOpenChallenge(db.challenges, k), k); }
  }

  /** Exact account of the uncleared hold rows of a passport. */
  lemma {:induction false} UnclearedHolds(logs: seq<Log>, chain: int, token: int)
    requires Emitted(logs)
    ensures HoldsCounted(Run(EmptyDb, logs).holds, State(logs), chain, token)
    decreases |logs|
  {
    if logs == [] {
      assert !Holding(State(logs), chain, token);
    } else {
      var init, log := logs[..|logs| - 1], logs[|logs| - 1];
      UnclearedHolds(init, chain, token);
      TablesMirrorContracts(init);
      CountKept(Run(EmptyDb, init), State(init), log, |logs|, chain, token);
    }
  }

  /** Lots of the passport that were closed right after their settlement challenge was dismissed. */
  ghost function Dismissed(logs: seq<Log>, chain: int, token: int): nat {
    if logs == [] then 0
    else
      var init, log := logs[..|logs| - 1], logs[|logs| - 1];
      var lots := State(init).lots;
      Dismissed(init, chain, token) +
      Bit(Mine(log, chain, token) && log.ConsignmentClosed? && log.key in lots && lots[log.key].stage == RuledLot)
  }

  lemma {:induction false} StrandedIsDismissed(logs: seq<Log>, chain: int, token: int)
    ensures State(logs).stranded[(chain, token)] == Dismissed(logs, chain, token)
    decreases |logs|
  {
    if logs != [] { StrandedIsDismissed(logs[..|logs| - 1], chain, token); }
  }

  /**
   The uncleared hold rows of a passport are its holds on chain exactly when no lot of the passport was
   closed by a dismissed settlement challenge: that exit deletes the hold and logs no hold event.
   */
  lemma HoldsMirroredIff(logs: seq<Log>, chain: int, token: int)
    requires Emitted(logs)
    ensures Uncleared(Run(EmptyDb, logs).holds, chain, token) == Bit(Holding(State(logs), chain, token))
      <==> Dismissed(logs, chain, token) == 0
  {
    UnclearedHolds(logs, chain, token);
    StrandedIsDismissed(logs, chain, token);
  }

  lemma {:induction false} DismissedGrows(logs: seq<Log>, n: nat, chain: int, token: int)
    requires n <= |logs|
    ensures Dismissed(logs[..n], chain, token) <= Dismissed(logs, chain, token)
    decreases |logs|
  {
    if n == |logs| {
      assert logs[..n] == logs;
    } else {
      DismissedGrows(logs[..|logs| - 1], n, chain, token);
      assert logs[..|logs| - 1][..n] == logs[..n];
    }
  }

  /** A passport keeps at least one uncleared row for each of its lots closed by a dismissed challenge. */
  lemma StrandedAddUp(logs: seq<Log>, n: nat, chain: int, token: int)
    requires Emitted(logs) && n <= |logs|
    ensures Uncleared(Run(EmptyDb, logs).holds, chain, token) >= Dismissed(logs[..n], chain, token)
  {
    UnclearedHolds(logs, chain, token);
    StrandedIsDismissed(logs, chain, token);
    DismissedGrows(logs, n, chain, token);
  }

  function StrandingStream(k: Key): seq<Log> {
    [ConsignmentOpened(k, "a"), BidPlaced(k), Settled(k, "b", 5), ChallengeOpened(k, "c"),
     ChallengeEnded(k, Concluded, 0), ConsignmentClosed(k, 3)]
  }

  /** A challenge that expires leaves an active, uncleared hold row and no hold on chain. */
  lemma DismissalStrandsARow(k: Key)
    ensures Emitted(StrandingStream(k)) && !Holding(State(StrandingStream(k)), k.chain, k.token)
    ensures Uncleared(Run(EmptyDb, StrandingStream(k)).holds, k.chain, k.token) == 1
  {
    var open := [ConsignmentOpened(k, "a"), BidPlaced(k), Settled(k, "b", 5)];
    assert [] + [open[0]] == [open[0]] && [open[0]] + [open[1]] == [open[0], open[1]] &&
      [open[0], open[1]] + [open[2]] == open;
    EmitNext([], open[0]);
    EmitNext([open[0]], open[1]);
    EmitNext([open[0], open[1]], open[2]);
    var held := Lot("a", HeldLot, "b", 5, false);
    assert State(open) == Contracts(map[k := held], map[], multiset{});
    StrandingEnd(k, open);
    UnclearedHolds(StrandingStream(k), k.chain, k.token);
  }

  lemma StrandingEnd(k: Key, open: seq<Log>)
    requires open == [ConsignmentOpened(k, "a"), BidPlaced(k), Settled(k, "b", 5)] && Emitted(open)
    requires State(open) == Contracts(map[k := Lot("a", HeldLot, "b", 5, false)], map[], multiset{})
    ensures Emitted(StrandingStream(k)) &&
      State(StrandingStream(k)) == Contracts(map[], map[], multiset{(k.chain, k.token)})
  {
    var l3, l4, l5 := ChallengeOpened(k, "c"), ChallengeEnded(k, Concluded, 0), ConsignmentClosed(k, 3);
    EmitNext(open, l3);
    EmitNext(open + [l3], l4);
    assert State(open + [l3] + [l4]) == Contracts(map[k := Lot("a", RuledLot, "b", 5, false)], map[], multiset{});
    EmitNext(open + [l3] + [l4], l5);
    assert open + [l3] + [l4] + [l5] == StrandingStream(k);
  }

  lemma EmitNext(logs: seq<Log>, log: Log)
    requires Emitted(logs) && May(State(logs), log)
    ensures Emitted(logs + [log]) && State(logs + [log]) == After(State(logs), log)
  {
    assert (logs + [log])[..|logs|] == logs;
  }

  // ---------------------------------------------------------------- what a terminal log fixes for good

  lemma {:induction false} RunKeeps(logs: seq<Log>, n: nat)
    requires n <= |logs|
    ensures RowsKept(Run(EmptyDb, logs[..n]), Run(EmptyDb, logs))
    decreases |logs|
  {
    if n == |logs| {
      assert logs[..n] == logs;
    } else {
      var init := logs[..|logs| - 1];
      RunKeeps(init, n);
      assert init[..n] == logs[..n];
      RowsStay(Run(EmptyDb, init), logs[|logs| - 1], |logs|);
      KeptThrough(Run(EmptyDb, logs[..n]), Run(EmptyDb, init), Run(EmptyDb, logs));
    }
  }

  lemma KeptThrough(a: Db, b: Db, c: Db)
    requires RowsKept(a, b) && RowsKept(b, c)
    ensures RowsKept(a, c)
  {
  }

  lemma {:induction false} EmittedPrefix(logs: seq<Log>, n: nat)
    requires Emitted(logs) && n <= |logs|
    ensures Emitted(logs[..n])
    decreases |logs|
  {
    if n == |logs| {
      assert logs[..n] == logs;
    } else {
      EmittedPrefix(logs[..|logs| - 1], n);
      assert logs[..|logs| - 1][..n] == logs[..n];
    }
  }

  lemma EmittedStep(logs: seq<Log>, n: nat)
    requires Emitted(logs) && n < |logs|
    ensures Emitted(logs[..n]) && May(State(logs[..n]), logs[n])
    ensures Run(EmptyDb, logs[..n + 1]) == Handle(Run(EmptyDb, logs[..n]), logs[n], n + 1)
  {
    EmittedPrefix(logs, n);
    EmittedPrefix(logs, n + 1);
    assert logs[..n + 1][..n] == logs[..n];
  }

  /**
   The lot's own hold takes the terminal state, with buyer and gross as settled, and keeps it through
   every later log.
   */
  lemma HoldEndsForGood(logs: seq<Log>, n: nat) returns (i: nat)
    requires Emitted(logs) && n < |logs| && logs[n].HoldEnded?
    ensures var before, end, lots, k :=
      Run(EmptyDb, logs[..n]).holds, Run(EmptyDb, logs).holds, State(logs[..n]).lots, logs[n].key;
      && k in lots && Newest(before, i, k, lots[k]) && i < |end|
      && end[i] == Hold(lots[k].id, k.chain, k.token, lots[k].buyer, lots[k].gross, logs[n].state, Some(n + 1))
  {
    i := EndedHold(logs, n, Run(EmptyDb, logs[..n + 1]));
    RunKeeps(logs, n + 1);
    HoldStays(Run(EmptyDb, logs[..n + 1]), Run(EmptyDb, logs), i);
  }

  lemma EndedHold(logs: seq<Log>, n: nat, after: Db) returns (i: nat)
    requires Emitted(logs) && n < |logs| && logs[n].HoldEnded? && after == Run(EmptyDb, logs[..n + 1])
    ensures var before, lots, k := Run(EmptyDb, logs[..n]).holds, State(logs[..n]).lots, logs[n].key;
      && k in lots && Newest(before, i, k, lots[k]) && i < |after.holds|
      && after.holds[i] == Hold(lots[k].id, k.chain, k.token, lots[k].buyer, lots[k].gross, logs[n].state, Some(n + 1))
  {
    EmittedStep(logs, n);
    TablesMirrorContracts(logs[..n]);
    i := LiveHoldFound(Run(EmptyDb, logs[..n]).holds, State(logs[..n]), logs[n].key);
  }

  lemma HoldStays(a: Db, b: Db, i: nat)
    requires RowsKept(a, b) && i < |a.holds| && a.holds[i].clearedAt.Some?
    ensures i < |b.holds| && b.holds[i] == a.holds[i]
  {
  }

  lemma ClosingRow(db: Db, c: Contracts, log: Log, at: int) returns (i: nat)
    requires LotsMirrored(db.consignments, c) && May(c, log) && log.ConsignmentClosed?
    ensures LiveRow(db.consignments, i, log.key) && i < |Handle(db, log, at).consignments| && log.key in c.lots
    ensures Handle(db, log, at).consignments[i] ==
      db.consignments[i].(phase := if log.reason == RETURNED then Returned else Closed)
    ensures db.consignments[i].id == c.lots[log.key].id
  {
    i := LiveLotFound(db.consignments, c, log.key);
  }

  /** The lot's own row is closed with the logged reason and keeps that phase through every later log. */
  lemma CloseIsForGood(logs: seq<Log>, n: nat) returns (i: nat)
    requires Emitted(logs) && n < |logs| && logs[n].ConsignmentClosed?
    ensures var before, end, lots, k :=
      Run(EmptyDb, logs[..n]).consignments, Run(EmptyDb, logs).consignments, State(logs[..n]).lots, logs[n].key;
      && LiveRow(before, i, k) && i < |end| && k in lots && end[i].id == lots[k].id
      && end[i] == before[i].(phase := if logs[n].reason == RETURNED then Returned else Closed)
  {
    i := ClosedRow(logs, n, Run(EmptyDb, logs[..n + 1]));
    RunKeeps(logs, n + 1);
    ClosedStays(Run(EmptyDb, logs[..n + 1]), Run(EmptyDb, logs), i);
  }

  lemma ClosedRow(logs: seq<Log>, n: nat, after: Db) returns (i: nat)
    requires Emitted(logs) && n < |logs| && logs[n].ConsignmentClosed? && after == Run(EmptyDb, logs[..n + 1])
    ensures var before, lots, k := Run(EmptyDb, logs[..n]).consignments, State(logs[..n]).lots, logs[n].key;
      && LiveRow(before, i, k) && i < |after.consignments| && k in lots && after.consignments[i].id == lots[k].id
      && after.consignments[i] == before[i].(phase := if logs[n].reason == RETURNED then Returned else Closed)
  {
    EmittedStep(logs, n);
    TablesMirrorContracts(logs[..n]);
    i := ClosingRow(Run(EmptyDb, logs[..n]), State(logs[..n]), logs[n], n + 1);
  }

  lemma ClosedStays(a: Db, b: Db, i: nat)
    requires RowsKept(a, b) && i < |a.consignments| && !IsLive(a.consignments[i].phase)
    ensures i < |b.consignments| && b.consignments[i] == a.consignments[i]
  {
  }
}
