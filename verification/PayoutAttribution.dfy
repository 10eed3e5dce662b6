/**
 Whether the reason a credit ends with is the right one: the payouts of one transaction as the contracts log
 them (failed pushes as ClaimRecorded, then the event that explains them), against what attribution reads off
 the logs.
 */
module PayoutAttribution {
  import opened Common
  import opened Attribution

  /** One recipient's share, why it is paid, and whether its push failed and was credited. */
  datatype Share = Share(account: string, amount: nat, reason: Reason, credited: bool)

  /** One payout: the log index of its event, and its shares in the order the causes are built from it. */
  datatype Payout = Payout(at: int, event: string, shares: seq<Share>)

  function OutbidPayout(at: int, bidder: string, amount: nat, credited: bool): Payout {
    Payout(at, "BidRefunded", [Share(bidder, amount, OutbidRefund, credited)])
  }

  function BondPayout(at: int, event: string, recipient: string, amount: nat, credited: bool): Payout {
    Payout(at, event,
      [Share(recipient, amount, if event == "ChallengeWithdrawn" then BondReturned else BondRouted, credited)])
  }

  function ReversalPayout(at: int, buyer: string, gross: nat, credited: bool): Payout {
    Payout(at, "ReversalCompleted", [Share(buyer, gross, ReversalRefund, credited)])
  }

  /** A split: owner, agent and platform, in the order of the cause builder. */
  function SplitPayout(at: int, owner: Share, agent: Share, platform: Share): Payout {
    Payout(at, "ConsignmentSplitPaid",
           [owner.(reason := OwnerPayout), agent.(reason := AgentPayout), platform.(reason := PlatformPayout)])
  }

  /** The log of a share whose push failed. */
  function ShareClaim(tx: string, p: Payout, k: nat): Log
    requires k < |p.shares|
  {
    ClaimRecorded(tx, p.at - |p.shares| + k, p.shares[k].account, p.shares[k].amount)
  }

  /** Nothing is paid, credited or named for a share of zero. */
  function ClaimsFrom(tx: string, p: Payout, k: nat): seq<Log>
    requires k <= |p.shares|
    decreases |p.shares| - k
  {
    if k == |p.shares| then []
    else
      (if p.shares[k].credited && p.shares[k].amount > 0 then [ShareClaim(tx, p, k)] else []) + ClaimsFrom(tx, p, k + 1)
  }

  function CauseOf(p: Payout, s: Share): Cause { Cause(s.reason, p.event, s.account, Some(s.amount), p.at) }

  function CausesFrom(p: Payout, shares: seq<Share>): seq<Cause> {
    if shares == [] then []
    else (if shares[0].amount > 0 then [CauseOf(p, shares[0])] else []) + CausesFrom(p, shares[1..])
  }

  function CauseLogs(tx: string, cs: seq<Cause>): seq<Log> {
    if cs == [] then [] else [CauseLogged(tx, cs[0])] + CauseLogs(tx, cs[1..])
  }

  function PayoutLogs(tx: string, p: Payout): seq<Log> {
    ClaimsFrom(tx, p, 0) + CauseLogs(tx, CausesFrom(p, p.shares))
  }

  /** The logs of a transaction. */
  function TxLogs(tx: string, ps: seq<Payout>): seq<Log> {
    if ps == [] then [] else TxLogs(tx, ps[..|ps| - 1]) + PayoutLogs(tx, ps[|ps| - 1])
  }

  /** Log indices ascend. */
  ghost predicate InOrder(ps: seq<Payout>) {
    forall i, j :: 0 <= i < j < |ps| ==> ps[i].at < ps[j].at - |ps[j].shares|
  }

  // ---------------------------------------------------------------- which payout explains

  /** Causes of the payouts, the newest payout first. */
  function NewestFirst(ps: seq<Payout>): seq<Cause> {
    if ps == [] then [] else CausesFrom(ps[|ps| - 1], ps[|ps| - 1].shares) + NewestFirst(ps[..|ps| - 1])
  }

  /** The newest payout that names the account with the amount, else the newest that names the account. */
  function NamedBy(ps: seq<Payout>, account: string, amount: nat): Option<Why> {
    var exact := Find(NewestFirst(ps), account, Some(amount));
    if exact.Some? then Explain(exact) else Explain(Find(NewestFirst(ps), account, None))
  }

  /** The first share of the account and amount. */
  function FirstShare(shares: seq<Share>, account: string, amount: nat): (k: nat)
    ensures k <= |shares|
    ensures k < |shares| ==> Lower(shares[k].account) == Lower(account) && shares[k].amount == amount
    ensures forall j :: 0 <= j < k ==> !(Lower(shares[j].account) == Lower(account) && shares[j].amount == amount)
  {
    if shares == [] || (Lower(shares[0].account) == Lower(account) && shares[0].amount == amount) then 0
    else
      var k := FirstShare(shares[1..], account, amount);
      assert forall j :: 1 <= j < k + 1 ==> shares[j] == shares[1..][j - 1];
      k + 1
  }

  /** What attribution ends with for share `k` of payout `n`. */
  function ReadOff(ps: seq<Payout>, n: nat, k: nat): Why
    requires n < |ps| && k < |ps[n].shares|
  {
    var s := ps[n].shares[k];
    var early := NamedBy(ps[..n], s.account, s.amount);
    if early.Some? then early.value
    else
      var j := FirstShare(ps[n].shares, s.account, s.amount);
      Why(ps[n].shares[j].reason, ps[n].event)
  }

  // ---------------------------------------------------------------- the logs before a claim

  lemma {:induction false} CausesAppend(key: string, a: seq<Log>, b: seq<Log>)
    ensures CausesIn(key, a + b) == CausesIn(key, a) + CausesIn(key, b)
    decreases |b|
  {
    if b == [] {
      assert a + b == a;
    } else {
      var c, last := b[..|b| - 1], b[|b| - 1];
      assert (a + b)[..|a + b| - 1] == a + c;
      CausesAppend(key, a, c);
    }
  }

  lemma {:induction false} ClaimsAreClaims(tx: string, p: Payout, k: nat)
    requires k <= |p.shares|
    ensures forall i ::
      0 <= i < |ClaimsFrom(tx, p, k)| ==> ClaimsFrom(tx, p, k)[i].ClaimRecorded? && ClaimsFrom(tx, p, k)[i].tx == tx
    decreases |p.shares| - k
  {
    if k < |p.shares| { ClaimsAreClaims(tx, p, k + 1); }
  }

  lemma {:induction false} NoCauses(key: string, logs: seq<Log>)
    requires forall i :: 0 <= i < |logs| ==> logs[i].ClaimRecorded?
    ensures CausesIn(key, logs) == []
    decreases |logs|
  {
    if logs != [] { NoCauses(key, logs[..|logs| - 1]); }
  }

  lemma {:induction false} CauseLogsHold(tx: string, cs: seq<Cause>)
    ensures CausesIn(Lower(tx), CauseLogs(tx, cs)) == cs
    decreases |cs|
  {
    if cs != [] {
      CausesAppend(Lower(tx), [CauseLogged(tx, cs[0])], CauseLogs(tx, cs[1..]));
      CauseLogsHold(tx, cs[1..]);
      assert [CauseLogged(tx, cs[0])][..0] == [];
      assert CausesIn(Lower(tx), [CauseLogged(tx, cs[0])]) == [cs[0]];
    }
  }

  function AllCauses(ps: seq<Payout>): seq<Cause> {
    if ps == [] then [] else AllCauses(ps[..|ps| - 1]) + CausesFrom(ps[|ps| - 1], ps[|ps| - 1].shares)
  }

  lemma PayoutCauses(tx: string, p: Payout)
    ensures CausesIn(Lower(tx), PayoutLogs(tx, p)) == CausesFrom(p, p.shares)
  {
    CausesAppend(Lower(tx), ClaimsFrom(tx, p, 0), CauseLogs(tx, CausesFrom(p, p.shares)));
    ClaimsAreClaims(tx, p, 0);
    NoCauses(Lower(tx), ClaimsFrom(tx, p, 0));
    CauseLogsHold(tx, CausesFrom(p, p.shares));
  }

  lemma {:induction false} TxCauses(tx: string, ps: seq<Payout>)
    ensures CausesIn(Lower(tx), TxLogs(tx, ps)) == AllCauses(ps)
    decreases |ps|
  {
    if ps != [] {
      var p := ps[|ps| - 1];
      TxCauses(tx, ps[..|ps| - 1]);
      CausesAppend(Lower(tx), TxLogs(tx, ps[..|ps| - 1]), PayoutLogs(tx, p));
      PayoutCauses(tx, p);
    }
  }

  // ---------------------------------------------------------------- the sort

  ghost predicate AtIndex(cs: seq<Cause>, at: int) {
    forall i :: 0 <= i < |cs| ==> cs[i].logIndex == at
  }

  ghost predicate Below(cs: seq<Cause>, at: int) {
    forall i :: 0 <= i < |cs| ==> cs[i].logIndex < at
  }

  lemma {:induction false} OneIndex(p: Payout, shares: seq<Share>)
    ensures AtIndex(CausesFrom(p, shares), p.at)
  {
    if shares != [] { OneIndex(p, shares[1..]); }
  }

  /** A cause goes behind those of its own log index and before the older ones. */
  lemma {:induction false} InsertBehind(same: seq<Cause>, older: seq<Cause>, c: Cause)
    requires AtIndex(same, c.logIndex) && Below(older, c.logIndex)
    ensures InsertDesc(same + older, c) == (same + [c]) + older
    decreases |same|
  {
    if same == [] {
      assert same + older == older && same + [c] == [c];
    } else {
      var tail := same[1..];
      assert (same + older)[1..] == tail + older;
      InsertBehind(tail, older, c);
      Assoc([same[0]], tail + [c], older);
      Assoc([same[0]], tail, [c]);
      assert [same[0]] + tail == same;
    }
  }

  /** Sorting in the causes of the newest payout puts them first, in the order they were built. */
  lemma {:induction false} PriorOfGroup(earlier: seq<Cause>, group: seq<Cause>, at: int, before: int)
    requires AtIndex(group, at) && at < before && Below(PriorDesc(earlier, before), at)
    ensures PriorDesc(earlier + group, before) == group + PriorDesc(earlier, before)
    decreases |group|
  {
    if group == [] {
      assert earlier + group == earlier && group + PriorDesc(earlier, before) == PriorDesc(earlier, before);
    } else {
      var init, c := group[..|group| - 1], group[|group| - 1];
      PriorOfGroup(earlier, init, at, before);
      PriorOfLast(earlier + init, c, before);
      InsertBehind(init, PriorDesc(earlier, before), c);
      Assoc(earlier, init, [c]);
      assert init + [c] == group;
    }
  }

  lemma PriorOfLast(cs: seq<Cause>, c: Cause, before: int)
    requires c.logIndex < before
    ensures PriorDesc(cs + [c], before) == InsertDesc(PriorDesc(cs, before), c)
  {
    assert (cs + [c])[..|cs + [c]| - 1] == cs;
  }

  lemma {:induction false} PriorIsNewestFirst(ps: seq<Payout>, before: int)
    requires InOrder(ps) && forall i :: 0 <= i < |ps| ==> ps[i].at < before
    ensures PriorDesc(AllCauses(ps), before) == NewestFirst(ps)
    ensures ps != [] ==> Below(NewestFirst(ps), ps[|ps| - 1].at + 1)
    decreases |ps|
  {
    if ps != [] {
      var init, p := ps[..|ps| - 1], ps[|ps| - 1];
      PriorIsNewestFirst(init, before);
      OneIndex(p, p.shares);
      PriorOfGroup(AllCauses(init), CausesFrom(p, p.shares), p.at, before);
    }
  }

  // ---------------------------------------------------------------- the logs around a claim

  lemma Assoc<T>(a: seq<T>, b: seq<T>, c: seq<T>)
    ensures (a + b) + c == a + (b + c)
  {
  }

  function TailLogs(tx: string, ps: seq<Payout>, m: nat): seq<Log>
    requires m <= |ps|
    decreases |ps| - m
  {
    if m == |ps| then [] else PayoutLogs(tx, ps[m]) + TailLogs(tx, ps, m + 1)
  }

  lemma {:induction false} TxSplit(tx: string, ps: seq<Payout>, m: nat)
    requires m <= |ps|
    ensures TxLogs(tx, ps) == TxLogs(tx, ps[..m]) + TailLogs(tx, ps, m)
    decreases |ps| - m
  {
    if m == |ps| {
      assert ps[..m] == ps;
    } else {
      TxSplit(tx, ps, m + 1);
      assert ps[..m + 1][..m] == ps[..m] && ps[..m + 1][m] == ps[m];
      Assoc(TxLogs(tx, ps[..m]), PayoutLogs(tx, ps[m]), TailLogs(tx, ps, m + 1));
    }
  }

  function ClaimsBefore(tx: string, p: Payout, k: nat): seq<Log>
    requires k <= |p.shares|
  {
    if k == 0 then []
    else
      ClaimsBefore(tx, p, k - 1)
      + if p.shares[k - 1].credited && p.shares[k - 1].amount > 0 then [ShareClaim(tx, p, k - 1)] else []
  }

  lemma {:induction false} ClaimsSplit(tx: string, p: Payout, k: nat)
    requires k <= |p.shares|
    ensures ClaimsFrom(tx, p, 0) == ClaimsBefore(tx, p, k) + ClaimsFrom(tx, p, k)
  {
    if k > 0 { ClaimsSplit(tx, p, k - 1); }
  }

  lemma {:induction false} BeforeAreClaims(tx: string, p: Payout, k: nat)
    requires k <= |p.shares|
    ensures forall i :: 0 <= i < |ClaimsBefore(tx, p, k)| ==> ClaimsBefore(tx, p, k)[i].ClaimRecorded?
  {
    if k > 0 { BeforeAreClaims(tx, p, k - 1); }
  }

  // ---------------------------------------------------------------- the first cause after a claim

  lemma {:induction false} SkipClaims(key: string, account: string, amount: nat, claims: seq<Log>, rest: seq<Log>)
    requires forall i :: 0 <= i < |claims| ==> claims[i].ClaimRecorded?
    ensures FirstFit(key, account, amount, claims + rest) == FirstFit(key, account, amount, rest)
    decreases |claims|
  {
    if claims == [] {
      assert claims + rest == rest;
    } else {
      assert (claims + rest)[1..] == claims[1..] + rest;
      SkipClaims(key, account, amount, claims[1..], rest);
    }
  }

  lemma {:induction false} FirstInGroup(tx: string, p: Payout, shares: seq<Share>, account: string, amount: nat,
      rest: seq<Log>)
    requires amount > 0 && FirstShare(shares, account, amount) < |shares|
    ensures FirstFit(Lower(tx), account, amount, CauseLogs(tx, CausesFrom(p, shares)) + rest) ==
      Some(CauseOf(p, shares[FirstShare(shares, account, amount)]))
    decreases |shares|
  {
    var all := CauseLogs(tx, CausesFrom(p, shares)) + rest;
    var more := CauseLogs(tx, CausesFrom(p, shares[1..])) + rest;
    if shares[0].amount > 0 {
      assert all == [CauseLogged(tx, CauseOf(p, shares[0]))] + more;
      assert all[1..] == more;
    } else {
      assert CausesFrom(p, shares) == CausesFrom(p, shares[1..]);
    }
    if !(Lower(shares[0].account) == Lower(account) && shares[0].amount == amount) {
      FirstInGroup(tx, p, shares[1..], account, amount, rest);
    }
  }

  // ---------------------------------------------------------------- the logs of one transaction

  /** Claims of a transaction: their log indices ascend, so every credit has its own row. */
  ghost predicate Ascends(logs: seq<Log>, below: int) {
    && (forall i :: 0 <= i < |logs| && logs[i].ClaimRecorded? ==> logs[i].logIndex < below)
    && (forall i, j :: 0 <= i < j < |logs| && logs[i].ClaimRecorded? && logs[j].ClaimRecorded? ==>
          logs[i].logIndex < logs[j].logIndex)
  }

  lemma AscendsOn(a: seq<Log>, b: seq<Log>, middle: int, below: int)
    requires Ascends(a, middle) && Ascends(b, below) && middle <= below
    requires From(b, middle)
    ensures Ascends(a + b, below)
  {
  }

  ghost predicate From(logs: seq<Log>, low: int) {
    forall i :: 0 <= i < |logs| && logs[i].ClaimRecorded? ==> low <= logs[i].logIndex
  }

  lemma AscendsCons(claim: Log, rest: seq<Log>, below: int)
    requires claim.ClaimRecorded? && claim.logIndex < below && Ascends(rest, below) && From(rest, claim.logIndex + 1)
    ensures Ascends([claim] + rest, below) && From([claim] + rest, claim.logIndex)
  {
  }

  lemma {:induction false} ClaimsAscend(tx: string, p: Payout, k: nat)
    requires k <= |p.shares|
    ensures Ascends(ClaimsFrom(tx, p, k), p.at) && From(ClaimsFrom(tx, p, k), p.at - |p.shares| + k)
    decreases |p.shares| - k
  {
    if k < |p.shares| {
      var rest := ClaimsFrom(tx, p, k + 1);
      ClaimsAscend(tx, p, k + 1);
      if p.shares[k].credited && p.shares[k].amount > 0 {
        AscendsCons(ShareClaim(tx, p, k), rest, p.at);
      } else {
        assert ClaimsFrom(tx, p, k) == [] + rest == rest;
      }
    }
  }

  lemma {:induction false} CauseLogsAre(tx: string, cs: seq<Cause>)
    ensures forall i ::
      0 <= i < |CauseLogs(tx, cs)| ==> CauseLogs(tx, cs)[i].CauseLogged? && CauseLogs(tx, cs)[i].tx == tx
  {
    if cs != [] { CauseLogsAre(tx, cs[1..]); }
  }

  lemma PayoutAscends(tx: string, p: Payout)
    ensures Ascends(PayoutLogs(tx, p), p.at)
    ensures From(PayoutLogs(tx, p), p.at - |p.shares|)
    ensures forall i :: 0 <= i < |PayoutLogs(tx, p)| ==> Key(PayoutLogs(tx, p)[i]) == Lower(tx)
  {
    ClaimsAscend(tx, p, 0);
    ClaimsAreClaims(tx, p, 0);
    CauseLogsAre(tx, CausesFrom(p, p.shares));
    AscendsOn(ClaimsFrom(tx, p, 0), CauseLogs(tx, CausesFrom(p, p.shares)), p.at, p.at);
  }

  lemma {:induction false} TxAscends(tx: string, ps: seq<Payout>)
    requires InOrder(ps)
    ensures ps != [] ==> Ascends(TxLogs(tx, ps), ps[|ps| - 1].at)
    ensures forall i :: 0 <= i < |TxLogs(tx, ps)| ==> Key(TxLogs(tx, ps)[i]) == Lower(tx)
    decreases |ps|
  {
    if ps != [] {
      var init, p := ps[..|ps| - 1], ps[|ps| - 1];
      TxAscends(tx, init);
      PayoutAscends(tx, p);
      if init == [] {
        assert TxLogs(tx, init) == [] && TxLogs(tx, ps) == PayoutLogs(tx, p);
      } else {
        assert init[|init| - 1] == ps[|ps| - 2];
        AscendsOn(TxLogs(tx, init), PayoutLogs(tx, p), init[|init| - 1].at, p.at);
      }
    }
  }

  lemma {:induction false} OneStarts(logs: seq<Log>, key: string)
    requires forall i :: 0 <= i < |logs| ==> Key(logs[i]) == key
    ensures Started(logs) == if logs == [] then [] else [key]
    decreases |logs|
  {
    if logs != [] { OneStarts(logs[..|logs| - 1], key); }
  }

  lemma OneTransaction(tx: string, ps: seq<Payout>, cap: nat)
    requires InOrder(ps) && cap >= 1
    ensures WellFormed(TxLogs(tx, ps)) && FewStartBetween(cap, TxLogs(tx, ps))
  {
    var logs := TxLogs(tx, ps);
    TxAscends(tx, ps);
    forall j | 0 <= j < |logs| && Key(logs[j]) in Started(logs[..j])
      ensures Key(logs[j]) in LastOf(Started(logs[..j]), cap)
    {
      OneStarts(logs[..j], Lower(tx));
    }
  }

  // ---------------------------------------------------------------- the reason a credit ends with

  ghost predicate CreditedShare(ps: seq<Payout>, n: nat, k: nat) {
    n < |ps| && k < |ps[n].shares| && ps[n].shares[k].credited && ps[n].shares[k].amount > 0
  }

  function ShareId(tx: string, p: Payout, k: nat): CreditId { CreditId(Lower(tx), p.at - |p.shares| + k) }

  /** The logs before and after the claim of a share. */
  ghost predicate Placed(tx: string, ps: seq<Payout>, n: nat, k: nat, before: seq<Log>, after: seq<Log>)
    requires n < |ps| && k < |ps[n].shares|
  {
    && TxLogs(tx, ps) == before + [ShareClaim(tx, ps[n], k)] + after
    && CausesIn(Lower(tx), before) == AllCauses(ps[..n])
  }

  lemma InPayout(tx: string, p: Payout, k: nat)
    requires k < |p.shares| && p.shares[k].credited && p.shares[k].amount > 0
    ensures PayoutLogs(tx, p) == ClaimsBefore(tx, p, k) + [ShareClaim(tx, p, k)]
      + (ClaimsFrom(tx, p, k + 1) + CauseLogs(tx, CausesFrom(p, p.shares)))
  {
    var head, claim, tail := ClaimsBefore(tx, p, k), [ShareClaim(tx, p, k)], ClaimsFrom(tx, p, k + 1);
    ClaimsSplit(tx, p, k);
    Assoc(head, claim, tail);
    Assoc(head + claim, tail, CauseLogs(tx, CausesFrom(p, p.shares)));
  }

  lemma Around(a: seq<Log>, b: seq<Log>, c: Log, d: seq<Log>, e: seq<Log>)
    ensures a + ((b + [c] + d) + e) == (a + b) + [c] + (d + e)
  {
  }

  lemma ClaimPlaced(tx: string, ps: seq<Payout>, n: nat, k: nat)
      returns (before: seq<Log>, rest: seq<Log>, after: seq<Log>)
    requires CreditedShare(ps, n, k)
    ensures after == (ClaimsFrom(tx, ps[n], k + 1) + CauseLogs(tx, CausesFrom(ps[n], ps[n].shares))) + rest
    ensures Placed(tx, ps, n, k, before, after)
  {
    var p, pre := ps[n], TxLogs(tx, ps[..n]);
    var claims, own := ClaimsBefore(tx, p, k), ClaimsFrom(tx, p, k + 1) + CauseLogs(tx, CausesFrom(p, p.shares));
    rest := TailLogs(tx, ps, n + 1);
    before, after := pre + claims, own + rest;
    TxSplit(tx, ps, n);
    InPayout(tx, p, k);
    Around(pre, claims, ShareClaim(tx, p, k), own, rest);
    TxCauses(tx, ps[..n]);
    CausesAppend(Lower(tx), pre, claims);
    BeforeAreClaims(tx, p, k);
    NoCauses(Lower(tx), claims);
  }

  /** What earlier payouts say of a claim is what the correlation finds in the sorted causes. */
  lemma EarlyIsNamed(ps: seq<Payout>, n: nat, account: string, amount: nat, at: int)
    requires InOrder(ps) && n < |ps| && ps[n].at - |ps[n].shares| <= at
    ensures Correlate(AllCauses(ps[..n]), account, amount, at) == NamedBy(ps[..n], account, amount)
  {
    forall m | 0 <= m < n ensures ps[..n][m].at < at { assert ps[m].at < ps[n].at - |ps[n].shares|; }
    PriorIsNewestFirst(ps[..n], at);
  }

  lemma LateIsOwn(tx: string, p: Payout, k: nat, rest: seq<Log>)
    requires k < |p.shares| && p.shares[k].amount > 0
    ensures var s := p.shares[k];
      && FirstShare(p.shares, s.account, s.amount) < |p.shares|
      && FirstFit(Lower(tx), s.account, s.amount, (ClaimsFrom(tx, p, k + 1) + CauseLogs(tx, CausesFrom(p, p.shares))) +
        rest) ==
           Some(CauseOf(p, p.shares[FirstShare(p.shares, s.account, s.amount)]))
  {
    var s, causes := p.shares[k], CauseLogs(tx, CausesFrom(p, p.shares));
    assert FirstShare(p.shares, s.account, s.amount) <= k;
    ClaimsAreClaims(tx, p, k + 1);
    SkipClaims(Lower(tx), s.account, s.amount, ClaimsFrom(tx, p, k + 1), causes + rest);
    assert (ClaimsFrom(tx, p, k + 1) + causes) + rest == ClaimsFrom(tx, p, k + 1) + (causes + rest);
    FirstInGroup(tx, p, p.shares, s.account, s.amount, rest);
  }

  lemma OfflineAt(logs: seq<Log>, before: seq<Log>, claim: Log, after: seq<Log>)
    requires logs == before + [claim] + after && claim.ClaimRecorded?
    ensures |before| < |logs| && logs[|before|] == claim
    ensures var early := Correlate(CausesIn(Key(claim), before), claim.account, claim.amount, claim.logIndex);
      Offline(logs, |before|) ==
        if early.Some? then early else Explain(FirstFit(Key(claim), claim.account, claim.amount, after))
  {
    assert logs[..|before|] == before && logs[|before| + 1..] == after;
  }

  lemma ReadOffIs(ps: seq<Payout>, n: nat, k: nat, early: Option<Why>, late: Option<Cause>)
    requires n < |ps| && k < |ps[n].shares|
    requires early == NamedBy(ps[..n], ps[n].shares[k].account, ps[n].shares[k].amount)
    requires var j := FirstShare(ps[n].shares, ps[n].shares[k].account, ps[n].shares[k].amount);
      j < |ps[n].shares| && late == Some(CauseOf(ps[n], ps[n].shares[j]))
    ensures (if early.Some? then early else Explain(late)) == Some(ReadOff(ps, n, k))
  {
  }

  lemma PlacedReadsOff(tx: string, ps: seq<Payout>, n: nat, k: nat, s: Share, before: seq<Log>, rest: seq<Log>,
      after: seq<Log>)
    requires InOrder(ps) && CreditedShare(ps, n, k) && s == ps[n].shares[k] && Placed(tx, ps, n, k, before, after)
    requires after == (ClaimsFrom(tx, ps[n], k + 1) + CauseLogs(tx, CausesFrom(ps[n], ps[n].shares))) + rest
    ensures var early := Correlate(CausesIn(Lower(tx), before), s.account, s.amount, ps[n].at - |ps[n].shares| + k);
      (if early.Some? then early else Explain(FirstFit(Lower(tx), s.account, s.amount, after))) ==
        Some(ReadOff(ps, n, k))
  {
    EarlyIsNamed(ps, n, s.account, s.amount, ps[n].at - |ps[n].shares| + k);
    LateIsOwn(tx, ps[n], k, rest);
    ReadOffIs(ps, n, k, NamedBy(ps[..n], s.account, s.amount), FirstFit(Lower(tx), s.account, s.amount, after));
  }

  /** Read off the logs of its transaction, a credit has the reason of the payouts. */
  lemma OfflineIsReadOff(tx: string, ps: seq<Payout>, n: nat, k: nat) returns (i: nat)
    requires InOrder(ps) && CreditedShare(ps, n, k)
    ensures i < |TxLogs(tx, ps)| && TxLogs(tx, ps)[i] == ShareClaim(tx, ps[n], k)
    ensures Offline(TxLogs(tx, ps), i) == Some(ReadOff(ps, n, k))
  {
    var before, rest, after := ClaimPlaced(tx, ps, n, k);
    PlacedReadsOff(tx, ps, n, k, ps[n].shares[k], before, rest, after);
    OfflineAt(TxLogs(tx, ps), before, ShareClaim(tx, ps[n], k), after);
    i := |before|;
  }

  lemma RecordedAs(logs: seq<Log>, i: nat, claim: Log, why: Why)
    requires WellFormed(logs) && FewStartBetween(MAX_PENDING_TX_ENTRIES, logs)
    requires i < |logs| && logs[i] == claim && claim.ClaimRecorded? && Offline(logs, i) == Some(why)
    ensures var c := Run(Some(MAX_PENDING_TX_ENTRIES), Empty, logs).credits;
      IdOf(claim) in c && c[IdOf(claim)] == Credit(claim.account, claim.amount, Some(why))
  {
    BoundedIsOffline(logs, i);
  }

  lemma TxCredit(tx: string, ps: seq<Payout>, i: nat, claim: Log, why: Why)
    requires InOrder(ps) && i < |TxLogs(tx, ps)| && TxLogs(tx, ps)[i] == claim && claim.ClaimRecorded?
    requires Offline(TxLogs(tx, ps), i) == Some(why)
    ensures var c := Run(Some(MAX_PENDING_TX_ENTRIES), Empty, TxLogs(tx, ps)).credits;
      IdOf(claim) in c && c[IdOf(claim)] == Credit(claim.account, claim.amount, Some(why))
  {
    OneTransaction(tx, ps, MAX_PENDING_TX_ENTRIES);
    RecordedAs(TxLogs(tx, ps), i, claim, why);
  }

  /**
   Every credit of a transaction ends with the reason of the newest earlier payout of the transaction that
   names its account and amount, else of the newest that names its account, and with one of its own payout
   only when there is none.
   */
  lemma CreditEndsAs(tx: string, ps: seq<Payout>, n: nat, k: nat)
    requires InOrder(ps) && CreditedShare(ps, n, k)
    ensures var s, id := ps[n].shares[k], ShareId(tx, ps[n], k);
      var c := Run(Some(MAX_PENDING_TX_ENTRIES), Empty, TxLogs(tx, ps)).credits;
      id in c && c[id] == Credit(s.account, s.amount, Some(ReadOff(ps, n, k)))
  {
    var i := OfflineIsReadOff(tx, ps, n, k);
    TxCredit(tx, ps, i, ShareClaim(tx, ps[n], k), ReadOff(ps, n, k));
  }

  // ---------------------------------------------------------------- which share explains

  /** The share names the account, with the amount if one is given. */
  predicate ShareFits(s: Share, account: string, amount: Option<nat>) {
    s.amount > 0 && Lower(s.account) == Lower(account) && (amount.None? || amount.value == s.amount)
  }

  function FirstNaming(shares: seq<Share>, account: string, amount: Option<nat>): (k: nat)
    ensures k <= |shares|
    ensures k < |shares| ==> ShareFits(shares[k], account, amount)
    ensures forall j :: 0 <= j < k ==> !ShareFits(shares[j], account, amount)
  {
    if shares == [] || ShareFits(shares[0], account, amount) then 0
    else
      var k := FirstNaming(shares[1..], account, amount);
      assert forall j :: 1 <= j < k + 1 ==> shares[j] == shares[1..][j - 1];
      k + 1
  }

  ghost predicate NoneFits(shares: seq<Share>, account: string, amount: Option<nat>) {
    forall j :: 0 <= j < |shares| ==> !ShareFits(shares[j], account, amount)
  }

  /** A share by its payout and its place in it. */
  datatype Place = Place(payout: nat, share: nat)

  /** The first fitting share of the newest payout that has one. */
  function NewestNaming(ps: seq<Payout>, account: string, amount: Option<nat>): (r: Option<Place>)
    ensures r.Some? ==>
      && r.value.payout < |ps| && r.value.share < |ps[r.value.payout].shares|
      && ShareFits(ps[r.value.payout].shares[r.value.share], account, amount)
      && NoneFits(ps[r.value.payout].shares[..r.value.share], account, amount)
      && forall m :: r.value.payout < m < |ps| ==> NoneFits(ps[m].shares, account, amount)
    ensures r.None? ==> forall m :: 0 <= m < |ps| ==> NoneFits(ps[m].shares, account, amount)
    decreases |ps|
  {
    if ps == [] then None
    else
      var last := |ps| - 1;
      var k := FirstNaming(ps[last].shares, account, amount);
      if k < |ps[last].shares| then Some(Place(last, k)) else NewestNaming(ps[..last], account, amount)
  }

  lemma {:induction false} FindInShares(p: Payout, shares: seq<Share>, account: string, amount: Option<nat>)
    ensures var k := FirstNaming(shares, account, amount);
      Find(CausesFrom(p, shares), account, amount) == if k < |shares| then Some(CauseOf(p, shares[k])) else None
    decreases |shares|
  {
    if shares != [] {
      var s := shares[0];
      FindInShares(p, shares[1..], account, amount);
      if s.amount > 0 {
        assert CausesFrom(p, shares) == [CauseOf(p, s)] + CausesFrom(p, shares[1..]);
        assert CausesFrom(p, shares)[1..] == CausesFrom(p, shares[1..]);
        assert amount.Some? ==> amount == Some(amount.value);
      } else {
        assert CausesFrom(p, shares) == [] + CausesFrom(p, shares[1..]) == CausesFrom(p, shares[1..]);
      }
    }
  }

  lemma {:induction false} FindAppend(a: seq<Cause>, b: seq<Cause>, account: string, amount: Option<nat>)
    ensures Find(a + b, account, amount) ==
      if Find(a, account, amount).Some? then Find(a, account, amount) else Find(b, account, amount)
    decreases |a|
  {
    if a == [] {
      assert a + b == b;
    } else {
      assert (a + b)[1..] == a[1..] + b;
      FindAppend(a[1..], b, account, amount);
    }
  }

  lemma {:induction false} FindNewest(ps: seq<Payout>, account: string, amount: Option<nat>)
    ensures var r := NewestNaming(ps, account, amount);
      Find(NewestFirst(ps), account, amount) ==
      if r.Some? then Some(CauseOf(ps[r.value.payout], ps[r.value.payout].shares[r.value.share])) else None
    decreases |ps|
  {
    if ps != [] {
      var init, p := ps[..|ps| - 1], ps[|ps| - 1];
      FindNewest(init, account, amount);
      FindInShares(p, p.shares, account, amount);
      FindAppend(CausesFrom(p, p.shares), NewestFirst(init), account, amount);
    }
  }

  /** A payout names an account when it has a share for it. */
  ghost predicate Names(p: Payout, account: string) {
    !NoneFits(p.shares, account, None)
  }

  ghost predicate NamedEarlier(ps: seq<Payout>, n: nat, account: string) {
    exists m :: 0 <= m < n && m < |ps| && Names(ps[m], account)
  }

  lemma NamedOrNot(ps: seq<Payout>, account: string, amount: nat)
    ensures NewestNaming(ps, account, None).Some? <==> NamedEarlier(ps, |ps|, account)
    ensures NewestNaming(ps, account, Some(amount)).Some? ==> NewestNaming(ps, account, None).Some?
  {
    var r := NewestNaming(ps, account, Some(amount));
    if r.Some? {
      assert ShareFits(ps[r.value.payout].shares[r.value.share], account, None);
    }
  }

  /**
   The share that explains the credit of share `k` of payout `n`: of the earlier payouts the newest naming account
   and amount, else the newest naming the account, else its own payout; and there the first that fits.
   */
  function Explainer(ps: seq<Payout>, n: nat, k: nat): (r: Place)
    requires CreditedShare(ps, n, k)
    ensures r.payout <= n && r.share < |ps[r.payout].shares|
    ensures Lower(ps[r.payout].shares[r.share].account) == Lower(ps[n].shares[k].account)
    ensures r.payout == n ==> r.share <= k && ps[n].shares[r.share].amount == ps[n].shares[k].amount
    ensures r.payout < n <==> NamedEarlier(ps[..n], n, ps[n].shares[k].account)
  {
    var s := ps[n].shares[k];
    var exact, any := NewestNaming(ps[..n], s.account, Some(s.amount)), NewestNaming(ps[..n], s.account, None);
    NamedOrNot(ps[..n], s.account, s.amount);
    if exact.Some? then exact.value
    else if any.Some? then any.value
    else Place(n, FirstShare(ps[n].shares, s.account, s.amount))
  }

  lemma ReadOffIsExplainer(ps: seq<Payout>, n: nat, k: nat)
    requires CreditedShare(ps, n, k)
    ensures var r := Explainer(ps, n, k);
      ReadOff(ps, n, k) == Why(ps[r.payout].shares[r.share].reason, ps[r.payout].event)
  {
    var s := ps[n].shares[k];
    FindNewest(ps[..n], s.account, Some(s.amount));
    FindNewest(ps[..n], s.account, None);
  }

  // ---------------------------------------------------------------- when the reason is right

  /** The credit of the share ends with the reason and the event of its own payout. */
  ghost predicate Right(tx: string, ps: seq<Payout>, n: nat, k: nat)
    requires n < |ps| && k < |ps[n].shares|
  {
    var c, id := Run(Some(MAX_PENDING_TX_ENTRIES), Empty, TxLogs(tx, ps)).credits, ShareId(tx, ps[n], k);
    id in c && c[id].why == Some(Why(ps[n].shares[k].reason, ps[n].event))
  }

  /** A credit ends with its own reason and event exactly when the share that explains it has the same. */
  lemma RightIff(tx: string, ps: seq<Payout>, n: nat, k: nat)
    requires InOrder(ps) && CreditedShare(ps, n, k)
    ensures var r := Explainer(ps, n, k);
      Right(tx, ps, n, k) <==>
      ps[r.payout].event == ps[n].event && ps[r.payout].shares[r.share].reason == ps[n].shares[k].reason
  {
    CreditEndsAs(tx, ps, n, k);
    ReadOffIsExplainer(ps, n, k);
  }

  /** No two payouts are of the same kind: what a call of one of the contracts logs. */
  ghost predicate OfDifferentKinds(ps: seq<Payout>) {
    forall m, n :: 0 <= m < n < |ps| ==> ps[m].event != ps[n].event
  }

  /**
   When the payouts are of different kinds, that is: no earlier one names the account, and of the shares of its
   own payout the first with its account and amount is there for the same reason.
   */
  lemma RightInOneCall(tx: string, ps: seq<Payout>, n: nat, k: nat)
    requires InOrder(ps) && OfDifferentKinds(ps) && CreditedShare(ps, n, k)
    ensures var s := ps[n].shares[k];
      var j := FirstShare(ps[n].shares, s.account, s.amount);
      && j <= k
      && (Right(tx, ps, n, k) <==> !NamedEarlier(ps, n, s.account) && ps[n].shares[j].reason == s.reason)
  {
    var s := ps[n].shares[k];
    RightIff(tx, ps, n, k);
    assert NamedEarlier(ps[..n], n, s.account) <==> NamedEarlier(ps, n, s.account) by {
      forall m | 0 <= m < n ensures ps[..n][m] == ps[m] {}
    }
  }

  /**
   A split whose agent is also the platform recipient, with equal amounts, both pushes failing: the platform
   credit ends as the agent's, though nothing was paid before.
   */
  lemma EqualSharesMisattributeFee(tx: string, account: string, amount: nat, owner: Share) returns (ps: seq<Payout>)
    requires amount > 0 && Lower(owner.account) != Lower(account)
    ensures ps == [SplitPayout(9, owner, Share(account, amount, AgentPayout, true),
                               Share(account, amount, PlatformPayout, true))]
    ensures InOrder(ps) && CreditedShare(ps, 0, 2) && !NamedEarlier(ps, 0, account)
    ensures ReadOff(ps, 0, 2) == Why(AgentPayout, "ConsignmentSplitPaid") && !Right(tx, ps, 0, 2)
  {
    ps := [SplitPayout(9, owner, Share(account, amount, AgentPayout, true),
      Share(account, amount, PlatformPayout, true))];
    assert ps[0].shares[1].account == account && ps[0].shares[0].account == owner.account;
    RightInOneCall(tx, ps, 0, 2);
    ReadOffIsExplainer(ps, 0, 2);
  }

  /**
   A dismissed settlement challenge whose bond goes to the account that also takes the platform fee, both
   pushes failing: the fee credit ends as a routed bond.
   */
  lemma DismissalMisattributesFee(tx: string, account: string, bond: nat, fee: nat, owner: Share, agent: Share)
    returns (ps: seq<Payout>)
    requires bond > 0 && fee > 0
    ensures ps == [BondPayout(2, "ChallengeJudged", account, bond, true),
                   SplitPayout(9, owner, agent, Share(account, fee, PlatformPayout, true))]
    ensures InOrder(ps) && CreditedShare(ps, 1, 2)
    ensures ReadOff(ps, 1, 2) == Why(BondRouted, "ChallengeJudged") && !Right(tx, ps, 1, 2)
  {
    ps := [BondPayout(2, "ChallengeJudged", account, bond, true),
           SplitPayout(9, owner, agent, Share(account, fee, PlatformPayout, true))];
    assert |"ChallengeJudged"| != |"ChallengeWithdrawn"|;
    BondNames(ps[0], account, bond, fee);
    assert ps[..1] == [ps[0]];
    CreditEndsAs(tx, ps, 1, 2);
  }

  lemma OneCause(c: Cause, account: string, amount: Option<nat>)
    requires Lower(c.account) == Lower(account)
    ensures Find([c], account, amount) == if amount.None? || c.amount == amount then Some(c) else None
  {
    assert [c][1..] == [];
    assert Find([], account, amount) == None;
  }

  lemma BondNames(p: Payout, account: string, bond: nat, amount: nat)
    requires bond > 0 && p == Payout(p.at, p.event, [Share(account, bond, BondRouted, true)])
    ensures NamedBy([p], account, amount) == Some(Why(BondRouted, p.event))
  {
    assert p.shares[1..] == [] && [p][..0] == [];
    assert CausesFrom(p, p.shares) == [CauseOf(p, p.shares[0])];
    assert NewestFirst([p]) == [CauseOf(p, p.shares[0])];
    OneCause(CauseOf(p, p.shares[0]), account, Some(amount));
    OneCause(CauseOf(p, p.shares[0]), account, None);
  }
}
