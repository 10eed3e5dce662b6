/**
 What each log leaves in the tables (src/commerce-handlers.ts): over every stream the contracts can log, the one row
 a log writes, what it writes there, and that no other row changes. An ended challenge keeps its end for good.
 */
module LogEffects {
  import opened Common
  import opened Lifecycle

  /** Tables before and after a log, and the contracts before it. */
  lemma AtLog(logs: seq<Log>, n: nat, before: Db, c: Contracts)
    requires Emitted(logs) && n < |logs| && before == Run(EmptyDb, logs[..n]) && c == State(logs[..n])
    ensures May(c, logs[n]) && Run(EmptyDb, logs[..n + 1]) == Handle(before, logs[n], n + 1)
    ensures LotsMirrored(before.consignments, c) && HoldsMirrored(before.holds, c)
    ensures ChallengesMirrored(before.challenges, c) && OneLot(c)
  {
    EmittedStep(logs, n);
    TablesMirrorContracts(logs[..n]);
  }

  // ---------------------------------------------------------------- consignments

  /** Openings of the token among the logs, over both modes. */
  function OpensLogged(logs: seq<Log>, chain: int, token: int): nat {
    if logs == [] then 0
    else
      var log := logs[|logs| - 1];
      OpensLogged(logs[..|logs| - 1], chain, token)
      + if log.ConsignmentOpened? && log.key.chain == chain && log.key.token == token then 1 else 0
  }

  lemma {:induction false} OpensAreLogged(logs: seq<Log>, chain: int, token: int)
    ensures CountOpens(Run(EmptyDb, logs).consignments, chain, token) == OpensLogged(logs, chain, token)
    decreases |logs|
  {
    if logs != [] {
      var init := logs[..|logs| - 1];
      OpensAreLogged(init, chain, token);
      OneMoreCounted(Run(EmptyDb, init), logs[|logs| - 1], |logs|, chain, token);
    }
  }

  lemma OneMoreCounted(db: Db, log: Log, at: int, chain: int, token: int)
    ensures CountOpens(Handle(db, log, at).consignments, chain, token) ==
      CountOpens(db.consignments, chain, token)
      + if log.ConsignmentOpened? && log.key.chain == chain && log.key.token == token then 1 else 0
  {
    var rows, t := db.consignments, Handle(db, log, at).consignments;
    if log.ConsignmentOpened? { assert t[..|rows|] == rows; } else { CountSame(rows, t, chain, token); }
  }

  /** An opening appends the lot's row, with the ordinal of the opening. */
  lemma OpeningWrites(logs: seq<Log>, n: nat, before: Db, opens: nat)
    requires Emitted(logs) && n < |logs| && logs[n].ConsignmentOpened? && before == Run(EmptyDb, logs[..n])
    requires opens == OpensLogged(logs[..n], logs[n].key.chain, logs[n].key.token)
    ensures Run(EmptyDb, logs[..n + 1]) ==
      before.(consignments := before.consignments + [Consignment(logs[n].id, logs[n].key, opens + 1, Offered)])
  {
    EmittedStep(logs, n);
    OpensAreLogged(logs[..n], logs[n].key.chain, logs[n].key.token);
    OpeningAppends(before, logs[n], n + 1, opens);
  }

  lemma OpeningAppends(db: Db, log: Log, at: int, opens: nat)
    requires log.ConsignmentOpened? && CountOpens(db.consignments, log.key.chain, log.key.token) == opens
    ensures Handle(db, log, at) ==
      db.(consignments := db.consignments + [Consignment(log.id, log.key, opens + 1, Offered)])
  {
  }

  /** The lot's own live row. */
  ghost predicate LotRow(db: Db, i: nat, k: Key, c: Contracts) {
    i < |db.consignments| && LiveRow(db.consignments, i, k) && k in c.lots && db.consignments[i].id == c.lots[k].id
  }

  lemma LotRowFound(db: Db, c: Contracts, k: Key) returns (i: nat)
    requires LotsMirrored(db.consignments, c) && k in c.lots && c.lots[k].stage != EndingLot
    ensures i == FindLiveConsignment(db.consignments, k) && LotRow(db, i, k, c)
    ensures db.consignments[i].phase == PhaseOf(c.lots[k].stage)
  {
    i := LiveLotFound(db.consignments, c, k);
  }

  /** A bid makes the lot's row binding, whether it was offered or binding before. */
  lemma BidWrites(logs: seq<Log>, n: nat) returns (i: nat)
    requires Emitted(logs) && n < |logs| && logs[n].BidPlaced?
    ensures var before, k := Run(EmptyDb, logs[..n]), logs[n].key;
      && LotRow(before, i, k, State(logs[..n]))
      && var row := before.consignments[i].(phase := Binding);
         Run(EmptyDb, logs[..n + 1]) == before.(consignments := before.consignments[i := row])
  {
    AtLog(logs, n, Run(EmptyDb, logs[..n]), State(logs[..n]));
    i := BidChanges(Run(EmptyDb, logs[..n]), State(logs[..n]), logs[n], n + 1);
  }

  lemma BidChanges(db: Db, c: Contracts, log: Log, at: int) returns (i: nat)
    requires LotsMirrored(db.consignments, c) && May(c, log) && log.BidPlaced?
    ensures LotRow(db, i, log.key, c)
    ensures Handle(db, log, at) == db.(consignments := db.consignments[i := db.consignments[i].(phase := Binding)])
  {
    i := LotRowFound(db, c, log.key);
    if db.consignments[i].phase == Binding {
      assert db.consignments[i].(phase := Binding) == db.consignments[i];
      assert db.consignments[i := db.consignments[i]] == db.consignments;
    }
  }

  /** A settlement makes the lot's row held and appends its hold, active and uncleared, with buyer and gross. */
  lemma SettlementWrites(logs: seq<Log>, n: nat) returns (i: nat)
    requires Emitted(logs) && n < |logs| && logs[n].Settled?
    ensures var before, k := Run(EmptyDb, logs[..n]), logs[n].key;
      && LotRow(before, i, k, State(logs[..n]))
      && var row := before.consignments[i].(phase := Held);
         var hold := Hold(State(logs[..n]).lots[k].id, k.chain, k.token, logs[n].buyer, logs[n].gross, Active, None);
         Run(EmptyDb, logs[..n + 1]) ==
           before.(consignments := before.consignments[i := row], holds := before.holds + [hold])
  {
    AtLog(logs, n, Run(EmptyDb, logs[..n]), State(logs[..n]));
    i := LotRowFound(Run(EmptyDb, logs[..n]), State(logs[..n]), logs[n].key);
  }

  /** A close writes the phase of its reason to the lot's row: 0 is returned to the owner, anything else closed. */
  lemma CloseWrites(logs: seq<Log>, n: nat) returns (i: nat)
    requires Emitted(logs) && n < |logs| && logs[n].ConsignmentClosed?
    ensures var before, k := Run(EmptyDb, logs[..n]), logs[n].key;
      && LotRow(before, i, k, State(logs[..n]))
      && var row := before.consignments[i].(phase := if logs[n].reason == 0 then Returned else Closed);
         Run(EmptyDb, logs[..n + 1]) == before.(consignments := before.consignments[i := row])
  {
    AtLog(logs, n, Run(EmptyDb, logs[..n]), State(logs[..n]));
    i := LotRowFound(Run(EmptyDb, logs[..n]), State(logs[..n]), logs[n].key);
  }

  // ---------------------------------------------------------------- holds

  /** The start and the end of a hold's reversal, and its release, reach the lot's own hold row. */
  lemma HoldWrites(logs: seq<Log>, n: nat) returns (i: nat)
    requires Emitted(logs) && n < |logs| && (logs[n].ReversalStart? || logs[n].HoldEnded?)
    ensures var before, k, lots := Run(EmptyDb, logs[..n]), logs[n].key, State(logs[..n]).lots;
      && k in lots && i < |before.holds| && Newest(before.holds, i, k, lots[k])
      && var hold := before.holds[i];
         var row := if logs[n].ReversalStart? then hold.(state := ReversalStarted)
                    else hold.(state := logs[n].state, clearedAt := Some(n + 1));
         Run(EmptyDb, logs[..n + 1]) == before.(holds := before.holds[i := row])
  {
    var before, c := Run(EmptyDb, logs[..n]), State(logs[..n]);
    AtLog(logs, n, before, c);
    i := LiveHoldFound(before.holds, c, logs[n].key);
  }

  // ---------------------------------------------------------------- challenges

  lemma ChallengeOpeningWrites(logs: seq<Log>, n: nat)
    requires Emitted(logs) && n < |logs| && logs[n].ChallengeOpened?
    ensures var before := Run(EmptyDb, logs[..n]);
      Run(EmptyDb, logs[..n + 1]) ==
        before.(challenges := before.challenges + [Challenge(logs[n].id, logs[n].key, Open, None)])
  {
    AtLog(logs, n, Run(EmptyDb, logs[..n]), State(logs[..n]));
  }

  lemma OpenChallengeFound(rows: seq<Challenge>, c: Contracts, k: Key) returns (i: nat)
    requires ChallengesMirrored(rows, c) && k in c.challenges
    ensures i == FindOpenChallenge(rows, k) && i < |rows| && OpenRow(rows, i, k) && rows[i].id == c.challenges[k]
  {
    var j :| OpenRow(rows, j, k);
    i := FindOpenChallenge(rows, k);
    assert OpenRow(rows, i, k);
  }

  /** The end of a challenge reaches the row opened for it: the logged status and the time of the log. */
  lemma ChallengeEndWrites(logs: seq<Log>, n: nat) returns (i: nat)
    requires Emitted(logs) && n < |logs| && logs[n].ChallengeEnded?
    ensures var before, k, ids := Run(EmptyDb, logs[..n]), logs[n].key, State(logs[..n]).challenges;
      && k in ids && i < |before.challenges| && OpenRow(before.challenges, i, k)
      && var row := Challenge(ids[k], k, logs[n].status, Some(n + 1));
         Run(EmptyDb, logs[..n + 1]) == before.(challenges := before.challenges[i := row])
  {
    var before, c := Run(EmptyDb, logs[..n]), State(logs[..n]);
    AtLog(logs, n, before, c);
    i := OpenChallengeFound(before.challenges, c, logs[n].key);
  }

  /** And it keeps both through every later log. */
  lemma ChallengeEndsForGood(logs: seq<Log>, n: nat) returns (i: nat)
    requires Emitted(logs) && n < |logs| && logs[n].ChallengeEnded?
    ensures var before, end, ids, k :=
      Run(EmptyDb, logs[..n]).challenges, Run(EmptyDb, logs).challenges, State(logs[..n]).challenges, logs[n].key;
      && k in ids && OpenRow(before, i, k) && i < |end|
      && end[i] == Challenge(ids[k], k, logs[n].status, Some(n + 1))
  {
    i := EndedRow(logs, n, Run(EmptyDb, logs[..n + 1]));
    RunKeeps(logs, n + 1);
    ChallengeStays(Run(EmptyDb, logs[..n + 1]), Run(EmptyDb, logs), i);
  }

  lemma EndedRow(logs: seq<Log>, n: nat, after: Db) returns (i: nat)
    requires Emitted(logs) && n < |logs| && logs[n].ChallengeEnded? && after == Run(EmptyDb, logs[..n + 1])
    ensures var before, k, ids := Run(EmptyDb, logs[..n]), logs[n].key, State(logs[..n]).challenges;
      && k in ids && OpenRow(before.challenges, i, k)
      && i < |after.challenges| && after.challenges[i] == Challenge(ids[k], k, logs[n].status, Some(n + 1))
      && logs[n].status != Open
  {
    i := ChallengeEndWrites(logs, n);
    EmittedStep(logs, n);
  }

  lemma ChallengeStays(a: Db, b: Db, i: nat)
    requires RowsKept(a, b) && i < |a.challenges| && a.challenges[i].status != Open
    ensures i < |b.challenges| && b.challenges[i] == a.challenges[i]
  {
  }

  /** A log about another challenge leaves this one open as it is. */
  lemma ChallengeLeft(c: Contracts, log: Log, k: Key)
    requires k in After(c, log).challenges && !((log.ChallengeOpened? || log.ChallengeEnded?) && log.key == k)
    ensures k in c.challenges && c.challenges[k] == After(c, log).challenges[k]
  {
  }

  lemma ChallengeMade(c: Contracts, log: Log, k: Key)
    requires k in After(c, log).challenges && (log.ChallengeOpened? || log.ChallengeEnded?) && log.key == k
    ensures log == ChallengeOpened(k, After(c, log).challenges[k])
  {
  }

  /** The identity of an open challenge is that of the log that opened it. */
  lemma {:induction false} OpenedBy(logs: seq<Log>, k: Key, c: Contracts) returns (n: nat)
    requires c == State(logs) && k in c.challenges
    ensures n < |logs| && logs[n] == ChallengeOpened(k, c.challenges[k])
    ensures forall m :: n < m < |logs| ==> !((logs[m].ChallengeOpened? || logs[m].ChallengeEnded?) && logs[m].key == k)
    decreases |logs|
  {
    n := |logs| - 1;
    var b := State(logs[..n]);
    if (logs[n].ChallengeOpened? || logs[n].ChallengeEnded?) && logs[n].key == k {
      ChallengeMade(b, logs[n], k);
    } else {
      ChallengeLeft(b, logs[n], k);
      n := OpenedBy(logs[..n], k, b);
    }
  }

  // ---------------------------------------------------------------- which logs the contracts can send

  /** A closed lot's hold may end in any of the four ways, and in no other. */
  lemma HoldMayEnd(c: Contracts, k: Key, state: HoldState)
    requires k in c.lots && c.lots[k].stage == EndingLot
    ensures May(c, HoldEnded(k, state)) <==>
      state in {ReceiptConfirmed, FundsReleased, ReversalCompleted, ReversalAbandoned}
  {
  }

  /** Only in those four states is a hold row cleared, in any stream the contracts can log. */
  lemma ClearedStates(logs: seq<Log>, i: nat)
    requires Emitted(logs) && i < |Run(EmptyDb, logs).holds|
    ensures var row := Run(EmptyDb, logs).holds[i];
      row.clearedAt.Some? <==> row.state != Active && row.state != ReversalStarted
  {
    forall j | 0 <= j < |logs| && logs[j].HoldEnded? ensures IsTerminal(logs[j].state) {
      EmittedStep(logs, j);
    }
    EveryStreamKeeps(logs);
  }

  /**
   A challenge that was concluded, or judged with any outcome but 0, takes the hold of a held lot with it; one that was
   withdrawn or upheld does not.
   */
  lemma RulingIs(c: Contracts, k: Key, status: Status, outcome: nat)
    requires k in c.lots && c.lots[k].stage == HeldLot
    ensures var lot := After(c, ChallengeEnded(k, status, outcome)).lots[k];
      && (lot.stage == RuledLot <==> status == Concluded || (status == Judged && outcome != 0))
      && (lot.stage != RuledLot ==> lot == c.lots[k])
  {
  }
}
