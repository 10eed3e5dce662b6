/**
 The two claim ledgers: `commerce_claim` (src/commerce-handlers.ts) and `pending_claim`
 (src/index.ts). Both keep one balance row per (chain, contract, account, asset): a credit adds, a
 withdrawal sets the row to zero and ignores the amount in its log.
 */
module ClaimLedger {
  import opened Common

  datatype Key = Key(chainId: string, contract: string, account: string, asset: string)

  datatype Log =
    | Recorded(key: Key, amount: nat, reason: string, at: int)
    | Withdrawn(key: Key, amount: nat, at: int)

  datatype Row = Row(amount: nat, reason: string, updatedAt: int, firstCreditedAt: int)
  type Table = map<string, Row>

  /** Row id: the four parts, addresses lower-cased, joined by dashes. */
  function PendingClaimId(k: Key): string {
    k.chainId + "-" + Lower(k.contract) + "-" + Lower(k.account) + "-" + Lower(k.asset)
  }

  function AfterCredit(existing: Option<Row>, log: Log): Row
    requires log.Recorded?
  {
    match existing
    case None => Row(log.amount, log.reason, log.at, log.at)
    case Some(r) => Row(r.amount + log.amount, log.reason, log.at, r.firstCreditedAt)
  }

  function Lookup(t: Table, id: string): Option<Row> {
    if id in t then Some(t[id]) else None
  }

  function Step(t: Table, log: Log): Table {
    var id := PendingClaimId(log.key);
    match log
    case Recorded(_, _, _, _) => t[id := AfterCredit(Lookup(t, id), log)]
    case Withdrawn(_, _, at) => if id in t then t[id := t[id].(amount := 0, updatedAt := at)] else t
  }

  function Run(logs: seq<Log>): Table {
    if logs == [] then map[] else Step(Run(logs[..|logs| - 1]), logs[|logs| - 1])
  }

  function Balance(t: Table, id: string): nat {
    if id in t then t[id].amount else 0
  }

  // ---------------------------------------------------------------- the contract's side

  function IsFor(log: Log, id: string): bool { PendingClaimId(log.key) == id }

  function Credited(logs: seq<Log>, id: string): nat {
    if logs == [] then 0
    else Credited(logs[..|logs| - 1], id) +
         (var l := logs[|logs| - 1]; if l.Recorded? && IsFor(l, id) then l.amount else 0)
  }

  function Paid(logs: seq<Log>, id: string): nat {
    if logs == [] then 0
    else Paid(logs[..|logs| - 1], id) +
         (var l := logs[|logs| - 1]; if l.Withdrawn? && IsFor(l, id) then l.amount else 0)
  }

  /** Credits after the last withdrawal: what the contract still owes. */
  function Owed(logs: seq<Log>, id: string): nat {
    if logs == [] then 0
    else
      var init, l := logs[..|logs| - 1], logs[|logs| - 1];
      if !IsFor(l, id) then Owed(init, id)
      else if l.Recorded? then Owed(init, id) + l.amount
      else 0
  }

  /** A withdrawal pays everything the contract owes. */
  ghost predicate PaysInFull(logs: seq<Log>, id: string) {
    forall i :: 0 <= i < |logs| && logs[i].Withdrawn? && IsFor(logs[i], id) ==> logs[i].amount == Owed(logs[..i], id)
  }

  // ---------------------------------------------------------------- conservation

  /** The balance row is what the contract owes, and exists exactly when the key was ever credited. */
  lemma {:induction false} BalanceIsOwed(logs: seq<Log>, id: string)
    ensures Balance(Run(logs), id) == Owed(logs, id)
    ensures id in Run(logs) <==> exists i :: 0 <= i < |logs| && logs[i].Recorded? && IsFor(logs[i], id)
    decreases |logs|
  {
    if logs != [] {
      var init, l := logs[..|logs| - 1], logs[|logs| - 1];
      BalanceIsOwed(init, id);
      if id in Run(init) {
        var i :| 0 <= i < |init| && init[i].Recorded? && IsFor(init[i], id);
        assert logs[i] == init[i];
      }
      if i :| 0 <= i < |logs| && logs[i].Recorded? && IsFor(logs[i], id) && i < |init| {
        assert init[i] == logs[i];
      }
    }
  }

  ghost predicate Conserved(logs: seq<Log>, id: string) {
    Credited(logs, id) == Paid(logs, id) + Balance(Run(logs), id)
  }

  ghost predicate AlwaysConserved(logs: seq<Log>, id: string) {
    forall n :: 0 <= n <= |logs| ==> Conserved(logs[..n], id)
  }

  /**
   Credited = paid out + outstanding after every prefix of a stream, exactly when every withdrawal in it
   pays in full, which is what the ledger rests on when it ignores the amount withdrawn.
   */
  lemma {:induction false} ConservedIff(logs: seq<Log>, id: string)
    ensures AlwaysConserved(logs, id) <==> PaysInFull(logs, id)
    decreases |logs|
  {
    if logs == [] {
      assert logs[..0] == [];
    } else {
      var init, l := logs[..|logs| - 1], logs[|logs| - 1];
      ConservedIff(init, id);
      BalanceIsOwed(init, id);
      BalanceIsOwed(logs, id);
      LastPays(logs, id);
      LastConserved(logs, id);
      assert init[..|init|] == init;
      assert AlwaysConserved(init, id) ==> Conserved(init[..|init|], id);
    }
  }

  lemma LastPays(logs: seq<Log>, id: string)
    requires logs != []
    ensures var init, l := logs[..|logs| - 1], logs[|logs| - 1];
      PaysInFull(logs, id) <==> PaysInFull(init, id) && (l.Withdrawn? && IsFor(l, id) ==> l.amount == Owed(init, id))
  {
    var init := logs[..|logs| - 1];
    forall i | 0 <= i < |init| ensures init[i] == logs[i] && init[..i] == logs[..i] {}
  }

  lemma LastConserved(logs: seq<Log>, id: string)
    requires logs != []
    ensures AlwaysConserved(logs, id) <==> AlwaysConserved(logs[..|logs| - 1], id) && Conserved(logs, id)
  {
    var init := logs[..|logs| - 1];
    assert logs[..|logs|] == logs;
    forall n | 0 <= n <= |init| ensures init[..n] == logs[..n] {}
    if AlwaysConserved(init, id) && Conserved(logs, id) {
      forall n | 0 <= n <= |logs| ensures Conserved(logs[..n], id) {
        if n <= |init| { assert Conserved(init[..n], id); }
      }
    }
    if AlwaysConserved(logs, id) {
      assert Conserved(logs[..|logs|], id);
      forall n | 0 <= n <= |init| ensures Conserved(init[..n], id) { assert Conserved(logs[..n], id); }
    }
  }

  // ---------------------------------------------------------------- what the contracts log

  /** A payout whose push to the recipient failed, or a recipient's call of withdrawClaim. */
  datatype Act = Pay(key: Key, amount: nat, reason: string, at: int) | Withdraw(key: Key, at: int)

  /** The mapping of pending claims. */
  type Pending = map<string, nat>

  function PendingOf(p: Pending, id: string): nat {
    if id in p then p[id] else 0
  }

  /** A payout of zero credits nothing; without a claim withdrawClaim reverts; otherwise it pays all of it. */
  function Perform(p: Pending, act: Act): (Pending, seq<Log>) {
    var id := PendingClaimId(act.key);
    var pending := PendingOf(p, id);
    match act
    case Pay(key, amount, reason, at) =>
      if amount == 0 then (p, []) else (p[id := pending + amount], [Recorded(key, amount, reason, at)])
    case Withdraw(key, at) =>
      if pending == 0 then (p, []) else (p[id := 0], [Withdrawn(key, pending, at)])
  }

  /** The claims pending after a history of the contracts, and what it logged. */
  function Emitted(acts: seq<Act>): (Pending, seq<Log>) {
    if acts == [] then (map[], [])
    else
      var (p, logs) := Emitted(acts[..|acts| - 1]);
      var (q, more) := Perform(p, acts[|acts| - 1]);
      (q, logs + more)
  }

  lemma OneMoreLog(logs: seq<Log>, l: Log, p: Pending, q: Pending, id: string)
    requires PaysInFull(logs, id) && Owed(logs, id) == PendingOf(p, id)
    requires l.Withdrawn? && IsFor(l, id) ==> l.amount == PendingOf(p, id)
    requires PendingOf(q, id) ==
      if !IsFor(l, id) then PendingOf(p, id) else if l.Recorded? then PendingOf(p, id) + l.amount else 0
    ensures PaysInFull(logs + [l], id) && Owed(logs + [l], id) == PendingOf(q, id)
  {
    assert (logs + [l])[..|logs + [l]| - 1] == logs;
    LastPays(logs + [l], id);
  }

  /** Every withdrawal the contracts log pays in full, and what they owe is what is pending. */
  lemma {:induction false} EmittedPaysInFull(acts: seq<Act>, id: string)
    ensures PaysInFull(Emitted(acts).1, id) && Owed(Emitted(acts).1, id) == PendingOf(Emitted(acts).0, id)
    decreases |acts|
  {
    if acts != [] {
      var (p, logs) := Emitted(acts[..|acts| - 1]);
      var (q, more) := Perform(p, acts[|acts| - 1]);
      EmittedPaysInFull(acts[..|acts| - 1], id);
      if more == [] {
        assert logs + more == logs;
      } else {
        OneMoreLog(logs, more[0], p, q, id);
        assert more == [more[0]];
      }
    }
  }

  /**
   After any history of the contracts the balance row is the claim still pending, and credited equals paid
   out plus outstanding after every log.
   */
  lemma LedgerMirrorsContracts(acts: seq<Act>, id: string)
    ensures Balance(Run(Emitted(acts).1), id) == PendingOf(Emitted(acts).0, id)
    ensures AlwaysConserved(Emitted(acts).1, id)
  {
    EmittedPaysInFull(acts, id);
    BalanceIsOwed(Emitted(acts).1, id);
    ConservedIff(Emitted(acts).1, id);
  }

  /** Everything ever credited to the key, and what was since its last withdrawal. */
  function PaidIn(acts: seq<Act>, id: string): nat {
    if acts == [] then 0
    else
      var a := acts[|acts| - 1];
      PaidIn(acts[..|acts| - 1], id) + CreditOf(a, id)
  }

  function PaidSince(acts: seq<Act>, id: string): nat {
    if acts == [] then 0
    else
      var a, before := acts[|acts| - 1], PaidSince(acts[..|acts| - 1], id);
      if PendingClaimId(a.key) != id then before else if a.Pay? then before + a.amount else 0
  }

  lemma OneMoreSum(logs: seq<Log>, more: seq<Log>, id: string)
    requires |more| <= 1
    ensures Credited(logs + more, id) == Credited(logs, id) + Credited(more, id)
    ensures Paid(logs + more, id) == Paid(logs, id) + Paid(more, id)
  {
    if more == [] { assert logs + more == logs; } else { assert (logs + more)[..|logs|] == logs && more[..0] == []; }
  }

  function CreditOf(a: Act, id: string): nat {
    if a.Pay? && PendingClaimId(a.key) == id then a.amount else 0
  }

  lemma OneLog(l: Log, id: string)
    ensures Credited([l], id) == (if l.Recorded? && IsFor(l, id) then l.amount else 0)
    ensures Paid([l], id) == (if l.Withdrawn? && IsFor(l, id) then l.amount else 0)
  {
    assert [l][..0] == [];
  }

  lemma PerformConserves(p: Pending, a: Act, id: string)
    ensures var (q, more) := Perform(p, a);
      && |more| <= 1 && Credited(more, id) == CreditOf(a, id)
      && Paid(more, id) + PendingOf(q, id) == PendingOf(p, id) + CreditOf(a, id)
      && PendingOf(q, id) ==
         if PendingClaimId(a.key) != id then PendingOf(p, id) else if a.Pay? then PendingOf(p, id) + a.amount else 0
  {
    var (q, more) := Perform(p, a);
    if more != [] {
      OneLog(more[0], id);
      assert more == [more[0]];
    }
  }

  /**
   The contracts lose and invent nothing: over any history every credit is logged, what is pending is what was
   credited since the last withdrawal, and what was withdrawn and what is pending make up all that was credited.
   */
  lemma {:induction false} ContractsConserve(acts: seq<Act>, id: string)
    ensures var (p, logs) := Emitted(acts);
      && Credited(logs, id) == PaidIn(acts, id)
      && PendingOf(p, id) == PaidSince(acts, id)
      && Paid(logs, id) + PendingOf(p, id) == PaidIn(acts, id)
    decreases |acts|
  {
    if acts != [] {
      var (p, logs) := Emitted(acts[..|acts| - 1]);
      ContractsConserve(acts[..|acts| - 1], id);
      PerformConserves(p, acts[|acts| - 1], id);
      OneMoreSum(logs, Perform(p, acts[|acts| - 1]).1, id);
    }
  }

  // ---------------------------------------------------------------- keys

  function Only(logs: seq<Log>, id: string): seq<Log> {
    if logs == [] then []
    else
      var l := logs[|logs| - 1];
      Only(logs[..|logs| - 1], id) + (if IsFor(l, id) then [l] else [])
  }

  /** A row depends on the logs of its own key alone. */
  lemma {:induction false} KeysIndependent(logs: seq<Log>, id: string)
    ensures Lookup(Run(logs), id) == Lookup(Run(Only(logs, id)), id)
    decreases |logs|
  {
    if logs != [] {
      var init, l := logs[..|logs| - 1], logs[|logs| - 1];
      KeysIndependent(init, id);
      if IsFor(l, id) {
        var only := Only(init, id) + [l];
        assert Only(logs, id) == only && only[|only| - 1] == l && only[..|only| - 1] == Only(init, id);
        StepLocal(Run(init), Run(Only(init, id)), l, id);
      } else {
        assert Only(logs, id) == Only(init, id);
      }
    }
  }

  lemma StepLocal(t: Table, u: Table, l: Log, id: string)
    requires Lookup(t, id) == Lookup(u, id) && IsFor(l, id)
    ensures Lookup(Step(t, l), id) == Lookup(Step(u, l), id)
  {
  }

  ghost predicate NoDash(s: string) { '-' !in s }

  lemma LowerNoDash(s: string)
    requires NoDash(s)
    ensures NoDash(Lower(s))
  {
    var r := Lower(s);
    forall i | 0 <= i < |r| ensures r[i] != '-' {
      assert s[i] in s;
    }
  }

  lemma SplitAtDash(a: string, b: string, c: string, d: string)
    requires NoDash(a) && NoDash(c) && a + "-" + b == c + "-" + d
    ensures a == c && b == d
  {
    var l, r := a + "-" + b, c + "-" + d;
    forall i | 0 <= i < |a| ensures l[i] == a[i] && l[i] != '-' { assert a[i] in a; }
    forall i | 0 <= i < |c| ensures r[i] == c[i] && r[i] != '-' { assert c[i] in c; }
    assert l[|a|] == '-' && r[|c|] == '-';
    assert a == l[..|a|] && c == r[..|c|];
    assert b == l[|a| + 1..] && d == r[|c| + 1..];
  }

  ghost predicate WellFormedKey(k: Key) {
    NoDash(k.chainId) && NoDash(k.contract) && NoDash(k.account) && NoDash(k.asset)
  }

  /** Two keys share a row exactly when their parts agree up to address case. */
  lemma RowIdInjective(k: Key, m: Key)
    requires WellFormedKey(k) && WellFormedKey(m)
    ensures PendingClaimId(k) == PendingClaimId(m) <==>
      && k.chainId == m.chainId
      && Lower(k.contract) == Lower(m.contract)
      && Lower(k.account) == Lower(m.account)
      && Lower(k.asset) == Lower(m.asset)
  {
    if PendingClaimId(k) == PendingClaimId(m) {
      LowerNoDash(k.contract); LowerNoDash(m.contract);
      LowerNoDash(k.account); LowerNoDash(m.account);
      var kc, ka, ks := Lower(k.contract), Lower(k.account), Lower(k.asset);
      var mc, ma, ms := Lower(m.contract), Lower(m.account), Lower(m.asset);
      assert PendingClaimId(k) == k.chainId + "-" + (kc + "-" + (ka + "-" + ks));
      assert PendingClaimId(m) == m.chainId + "-" + (mc + "-" + (ma + "-" + ms));
      SplitAtDash(k.chainId, kc + "-" + (ka + "-" + ks), m.chainId, mc + "-" + (ma + "-" + ms));
      SplitAtDash(kc, ka + "-" + ks, mc, ma + "-" + ms);
      SplitAtDash(ka, ks, ma, ms);
    }
  }

  // ---------------------------------------------------------------- what else a row says

  /** Times of the first credit and of the last log of the key, and the reason of its last credit. */
  function FirstCredit(logs: seq<Log>, id: string): Option<int> {
    if logs == [] then None
    else
      var early, l := FirstCredit(logs[..|logs| - 1], id), logs[|logs| - 1];
      if early.None? && l.Recorded? && IsFor(l, id) then Some(l.at) else early
  }

  function LastLog(logs: seq<Log>, id: string): Option<Log> {
    if logs == [] then None
    else if IsFor(logs[|logs| - 1], id) then Some(logs[|logs| - 1])
    else LastLog(logs[..|logs| - 1], id)
  }

  function LastReason(logs: seq<Log>, id: string): string {
    if logs == [] then ""
    else
      var l := logs[|logs| - 1];
      if l.Recorded? && IsFor(l, id) then l.reason else LastReason(logs[..|logs| - 1], id)
  }

  /** A row keeps the time of its first credit, the time of its last log and the reason of its last credit. */
  lemma {:induction false} RowRemembers(logs: seq<Log>, id: string)
    ensures FirstCredit(logs, id).Some? <==> id in Run(logs)
    ensures id in Run(logs) ==>
      var row := Run(logs)[id];
      && row.firstCreditedAt == FirstCredit(logs, id).value && row.reason == LastReason(logs, id)
      && LastLog(logs, id).Some? && row.updatedAt == LastLog(logs, id).value.at
    decreases |logs|
  {
    if logs != [] { RowRemembers(logs[..|logs| - 1], id); }
  }

  // ---------------------------------------------------------------- the handlers

  class Ledger {
    var table: Table
    ghost var logs: seq<Log>

    ghost predicate Valid()
      reads this
    {
      table == Run(logs)
    }

    constructor ()
      ensures Valid() && logs == []
    {
      table, logs := map[], [];
    }

    method HandleClaimRecorded(key: Key, amount: nat, reason: string, at: int)
      requires Valid()
      modifies this
      ensures Valid() && logs == old(logs) + [Recorded(key, amount, reason, at)]
    {
      var balanceId := PendingClaimId(key);
      var next := Row(amount, reason, at, at);
      if balanceId in table {
        var prior := table[balanceId];
        next := Row(prior.amount + amount, reason, at, prior.firstCreditedAt);
      }
      table := table[balanceId := next];
      logs := logs + [Recorded(key, amount, reason, at)];
      assert logs[..|logs| - 1] == old(logs);
    }

    method HandleClaimWithdrawn(key: Key, amount: nat, at: int)
      requires Valid()
      modifies this
      ensures Valid() && logs == old(logs) + [Withdrawn(key, amount, at)]
    {
      var balanceId := PendingClaimId(key);
      if balanceId in table {
        table := table[balanceId := table[balanceId].(amount := 0, updatedAt := at)];
      }
      logs := logs + [Withdrawn(key, amount, at)];
      assert logs[..|logs| - 1] == old(logs);
    }
  }
}
