/**
 Two finer points of the hold and challenge rows (src/commerce-handlers.ts): what becomes of a stranded hold
 row, and when "newest by time" has a choice.
 */
module HoldRows {
  import opened Common
  import opened Lifecycle

  // ---------------------------------------------------------------- a stranded row

  /** An uncleared row that is the hold of no lot. */
  ghost predicate Stranded(rows: seq<Hold>, i: int, c: Contracts) {
    0 <= i < |rows| && rows[i].clearedAt.None? && forall k :: HasHold(c, k) ==> !Newest(rows, i, k, c.lots[k])
  }

  lemma SettledLeaves(db: Db, c: Contracts, log: Log, at: int, i: int)
    requires LotsMirrored(db.consignments, c) && OneLot(c) && May(c, log) && Stranded(db.holds, i, c) && log.Settled?
    ensures var t := Handle(db, log, at).holds; i < |t| && t[i] == db.holds[i] && Stranded(t, i, After(c, log))
  {
    var t, d := Handle(db, log, at).holds, After(c, log);
    var n := LiveLotFound(db.consignments, c, log.key);
    forall k | HasHold(d, k) ensures !Newest(t, i, k, d.lots[k]) {
      if k == log.key {
        assert LiveHold(t, |db.holds|, k);
      } else if Newest(t, i, k, d.lots[k]) {
        forall j | i < j < |db.holds| ensures !LiveHold(db.holds, j, k) { assert !LiveHold(t, j, k); }
        assert Newest(db.holds, i, k, c.lots[k]);
      }
    }
  }

  lemma UpdateLeaves(db: Db, c: Contracts, log: Log, at: int, i: int)
    requires HoldsMirrored(db.holds, c) && OneLot(c) && May(c, log) && Stranded(db.holds, i, c)
    requires log.HoldEnded? || log.ReversalStart?
    ensures var t := Handle(db, log, at).holds; i < |t| && t[i] == db.holds[i] && Stranded(t, i, After(c, log))
  {
    var rows, t, d := db.holds, Handle(db, log, at).holds, After(c, log);
    var n := LiveHoldFound(rows, c, log.key);
    forall k | HasHold(d, k) ensures !Newest(t, i, k, d.lots[k]) {
      if k == log.key {
        assert i < n ==> LiveHold(t, n, k);
        assert n < i ==> !LiveHold(rows, i, k);
      } else if Newest(t, i, k, d.lots[k]) {
        forall j | i < j < |rows| ensures !LiveHold(rows, j, k) { assert j != n ==> !LiveHold(t, j, k); }
        assert Newest(rows, i, k, c.lots[k]);
      }
    }
  }

  lemma OthersLeave(db: Db, c: Contracts, log: Log, at: int, i: int)
    requires OneLot(c) && May(c, log) && Stranded(db.holds, i, c)
    requires !log.Settled? && !log.HoldEnded? && !log.ReversalStart?
    ensures var t := Handle(db, log, at).holds; i < |t| && t[i] == db.holds[i] && Stranded(t, i, After(c, log))
  {
    var rows, t, d := db.holds, Handle(db, log, at).holds, After(c, log);
    assert t == rows;
    forall k | HasHold(d, k) ensures !Newest(t, i, k, d.lots[k]) {
      assert HasHold(c, k) && !Newest(rows, i, k, c.lots[k]);
    }
  }

  /** No log the contracts may emit touches a stranded row, and it stays stranded. */
  lemma StrandedStays(db: Db, c: Contracts, log: Log, at: int, i: int)
    requires LotsMirrored(db.consignments, c) && HoldsMirrored(db.holds, c) && OneLot(c) && May(c, log)
    requires Stranded(db.holds, i, c)
    ensures var t := Handle(db, log, at).holds; i < |t| && t[i] == db.holds[i] && Stranded(t, i, After(c, log))
  {
    if log.Settled? {
      SettledLeaves(db, c, log, at, i);
    } else if log.HoldEnded? || log.ReversalStart? {
      UpdateLeaves(db, c, log, at, i);
    } else {
      OthersLeave(db, c, log, at, i);
    }
  }

  lemma {:induction false} StrandedThrough(logs: seq<Log>, n: nat, i: int)
    requires Emitted(logs) && n <= |logs| && Stranded(Run(EmptyDb, logs[..n]).holds, i, State(logs[..n]))
    ensures var before, end := Run(EmptyDb, logs[..n]).holds, Run(EmptyDb, logs).holds;
      i < |end| && end[i] == before[i] && Stranded(end, i, State(logs))
    decreases |logs|
  {
    if n == |logs| {
      assert logs[..n] == logs;
    } else {
      var init := logs[..|logs| - 1];
      assert init[..n] == logs[..n];
      StrandedThrough(init, n, i);
      TablesMirrorContracts(init);
      StrandedStays(Run(EmptyDb, init), State(init), logs[|logs| - 1], |logs|, i);
    }
  }

  /** Closing a lot whose settlement challenge was dismissed leaves its hold row to no lot. */
  lemma DismissalStrands(db: Db, c: Contracts, log: Log, at: int) returns (i: nat)
    requires HoldsMirrored(db.holds, c) && OneLot(c) && May(c, log)
    requires log.ConsignmentClosed? && c.lots[log.key].stage == RuledLot
    ensures Newest(db.holds, i, log.key, c.lots[log.key]) && Handle(db, log, at).holds == db.holds
    ensures Stranded(db.holds, i, After(c, log))
  {
    i := LiveHoldFound(db.holds, c, log.key);
    var d := After(c, log);
    forall k | HasHold(d, k) ensures !Newest(db.holds, i, k, d.lots[k]) {
      assert k in c.lots && k != log.key;
    }
  }

  /**
   The hold row of a lot that is closed after a dismissed settlement challenge is stranded, and every
   later table has that very row, uncleared and unchanged.
   */
  lemma StrandedForGood(logs: seq<Log>, n: nat) returns (i: nat)
    requires Emitted(logs) && n < |logs| && logs[n].ConsignmentClosed?
    requires logs[n].key in State(logs[..n]).lots && State(logs[..n]).lots[logs[n].key].stage == RuledLot
    ensures var before, end, k := Run(EmptyDb, logs[..n]).holds, Run(EmptyDb, logs).holds, logs[n].key;
      && Newest(before, i, k, State(logs[..n]).lots[k])
      && i < |end| && end[i] == before[i] && Stranded(end, i, State(logs))
  {
    EmittedStep(logs, n);
    TablesMirrorContracts(logs[..n]);
    i := DismissalStrands(Run(EmptyDb, logs[..n]), State(logs[..n]), logs[n], n + 1);
    assert logs[..n + 1][..n] == logs[..n] && logs[..n + 1][n] == logs[n];
    StrandedThrough(logs, n + 1, i);
  }

  // ---------------------------------------------------------------- newest by time

  /** A row the database may return: none that qualifies is newer. Rows of one time are its choice. */
  ghost predicate NewestByTime(qualifies: seq<bool>, times: seq<int>, i: int)
    requires |qualifies| == |times|
  {
    0 <= i < |times| && qualifies[i] && forall j :: 0 <= j < |times| && qualifies[j] ==> times[j] <= times[i]
  }

  ghost predicate InTimeOrder(times: seq<int>) {
    forall i, j :: 0 <= i < j < |times| ==> times[i] <= times[j]
  }

  /** The last row that qualifies may be returned, and no other exactly when none has its time. */
  lemma LastIsNewest(qualifies: seq<bool>, times: seq<int>, i: int)
    requires |qualifies| == |times| && InTimeOrder(times) && 0 <= i < |times| && qualifies[i]
    requires forall j :: i < j < |times| ==> !qualifies[j]
    ensures NewestByTime(qualifies, times, i)
    ensures (forall j :: NewestByTime(qualifies, times, j) ==> j == i) <==>
      (forall j :: 0 <= j < i && qualifies[j] ==> times[j] < times[i])
  {
    forall j | 0 <= j < i && qualifies[j] && times[j] >= times[i] ensures NewestByTime(qualifies, times, j) {}
  }

  function LiveHolds(rows: seq<Hold>, chain: int, token: int): seq<bool> {
    seq(|rows|, i requires 0 <= i < |rows| => rows[i].chain == chain && rows[i].token == token &&
      rows[i].clearedAt.None?)
  }

  /** The hold query by creation time agrees with insertion order exactly when no uncleared hold is as new. */
  lemma LiveHoldByTime(rows: seq<Hold>, createdAt: seq<int>, chain: int, token: int)
    requires |createdAt| == |rows| && InTimeOrder(createdAt) && FindLiveHold(rows, chain, token) < |rows|
    ensures var i, live := FindLiveHold(rows, chain, token), LiveHolds(rows, chain, token);
      && NewestByTime(live, createdAt, i)
      && ((forall j :: NewestByTime(live, createdAt, j) ==> j == i) <==>
            forall j :: 0 <= j < i && live[j] ==> createdAt[j] < createdAt[i])
  {
    LastIsNewest(LiveHolds(rows, chain, token), createdAt, FindLiveHold(rows, chain, token));
  }

  function OpenChallenges(rows: seq<Challenge>, key: Key): seq<bool> {
    seq(|rows|, i requires 0 <= i < |rows| => rows[i].key == key && rows[i].status == Open)
  }

  /** The challenge query by opening time has no choice after any emitted stream: one row is open. */
  lemma OpenChallengeByTime(logs: seq<Log>, openedAt: seq<int>, key: Key)
    requires Emitted(logs) && |openedAt| == |Run(EmptyDb, logs).challenges| && InTimeOrder(openedAt)
    ensures var rows := Run(EmptyDb, logs).challenges;
      forall i :: NewestByTime(OpenChallenges(rows, key), openedAt, i) <==>
        i == FindOpenChallenge(rows, key) && FindOpenChallenge(rows, key) < |rows|
  {
    TablesMirrorContracts(logs);
    var rows := Run(EmptyDb, logs).challenges;
    var n := FindOpenChallenge(rows, key);
    forall i ensures OpenRow(rows, i, key) <==> i == n && n < |rows| {
      if OpenRow(rows, i, key) { assert OpenRow(rows, n, key); }
    }
    forall i ensures NewestByTime(OpenChallenges(rows, key), openedAt, i) <==> i == n && n < |rows| {
      assert 0 <= i < |rows| ==> (OpenChallenges(rows, key)[i] <==> OpenRow(rows, i, key));
      if i == n && n < |rows| {
        forall j | 0 <= j < |rows| && OpenChallenges(rows, key)[j] ensures j == n { assert OpenRow(rows, j, key); }
      }
    }
  }
}
