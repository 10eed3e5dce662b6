/**
 Bid rows and their refunds (src/commerce-handlers.ts). A refund log names the bidder, not the bid: the
 handler marks the newest unrefunded row of that bidder. The auction contract logs a new bid before the
 refund of the bid it displaces, so who displaces whom decides whether the right row is marked.
 */
module Bids {
  import opened Common

  datatype Bid = Bid(id: string, lot: string, bidder: string, amount: nat, at: int, refund: Option<nat>)

  /** The amount and bidder a refund hands to the claim correlator. */
  datatype Cause = Cause(account: string, amount: nat)

  predicate Candidate(r: Bid, lot: string, bidder: string) {
    r.lot == lot && r.bidder == bidder && r.refund.None?
  }

  /**
   Newest candidate row, or the number of rows; which of two equally new rows comes back is the
   database's choice.
   */
  function FindRefundable(rows: seq<Bid>, lot: string, bidder: string, last: bool): (i: nat)
    ensures i <= |rows|
    ensures i < |rows| ==> Candidate(rows[i], lot, bidder)
    ensures i < |rows| ==> forall j :: 0 <= j < |rows| && Candidate(rows[j], lot, bidder) ==>
      rows[j].at <= rows[i].at && (rows[j].at == rows[i].at ==> if last then j <= i else i <= j)
    ensures i == |rows| ==> forall j :: 0 <= j < |rows| ==> !Candidate(rows[j], lot, bidder)
  {
    if rows == [] then 0
    else
      var n := |rows| - 1;
      var i := FindRefundable(rows[..n], lot, bidder, last);
      if !Candidate(rows[n], lot, bidder) then if i == n then n + 1 else i
      else if i == n || rows[i].at < rows[n].at || (rows[i].at == rows[n].at && last) then n
      else i
  }

  function Placed(rows: seq<Bid>, id: string, lot: string, bidder: string, amount: nat, at: int): seq<Bid> {
    rows + [Bid(id, lot, bidder, amount, at, None)]
  }

  function Refunded(rows: seq<Bid>, lot: string, bidder: string, amount: nat, last: bool): seq<Bid> {
    var i := FindRefundable(rows, lot, bidder, last);
    if i < |rows| then rows[i := rows[i].(refund := Some(amount))] else rows
  }

  /** The table the handlers insert into and update. */
  class BidTable {
    var rows: seq<Bid>

    constructor ()
      ensures rows == []
    {
      rows := [];
    }

    /** live is the consignment the find-live query returned. */
    method HandleBidPlaced(live: Option<string>, id: string, bidder: string, amount: nat, at: int)
      modifies this
      ensures rows == match live case None => old(rows) case Some(lot) => Placed(old(rows), id, lot, bidder, amount, at)
    {
      if live.None? { return; }
      rows := rows + [Bid(id, live.value, bidder, amount, at, None)];
    }

    /** The cause is handed on whether or not a row was found. */
    method HandleBidRefunded(live: Option<string>, bidder: string, amount: nat, last: bool) returns (cause: Cause)
      modifies this
      ensures rows == match live case None => old(rows) case Some(lot) => Refunded(old(rows), lot, bidder, amount, last)
      ensures cause == Cause(bidder, amount)
    {
      if live.Some? {
        var i := FindRefundable(rows, live.value, bidder, last);
        if i < |rows| { rows := rows[i := rows[i].(refund := Some(amount))]; }
      }
      cause := Cause(bidder, amount);
    }
  }

  // ---------------------------------------------------------------- auctions

  datatype Top = Top(bidder: string, amount: nat, at: int)

  /**
   One accepted bid and the logs it causes. The contract sets refundFirst to false; last is the
   database's choice between rows of equal time.
   */
  datatype Round = Round(id: string, lot: string, bidder: string, amount: nat, at: int, refundFirst: bool, last: bool)

  /** The highest bid of every lot after the rounds. */
  function Auctions(rounds: seq<Round>): map<string, Top> {
    if rounds == [] then map[]
    else
      var r := rounds[|rounds| - 1];
      Auctions(rounds[..|rounds| - 1])[r.lot := Top(r.bidder, r.amount, r.at)]
  }

  function RoundRows(rows: seq<Bid>, a: map<string, Top>, r: Round): seq<Bid> {
    if r.lot !in a then Placed(rows, r.id, r.lot, r.bidder, r.amount, r.at)
    else if r.refundFirst then
      Placed(Refunded(rows, r.lot, a[r.lot].bidder, a[r.lot].amount, r.last), r.id, r.lot, r.bidder, r.amount, r.at)
    else
      Refunded(Placed(rows, r.id, r.lot, r.bidder, r.amount, r.at), r.lot, a[r.lot].bidder, a[r.lot].amount, r.last)
  }

  function Table(rounds: seq<Round>): seq<Bid> {
    if rounds == [] then []
    else RoundRows(Table(rounds[..|rounds| - 1]), Auctions(rounds[..|rounds| - 1]), rounds[|rounds| - 1])
  }

  /** The handlers on the logs of one round, in the order logged. */
  method IndexRound(t: BidTable, a: map<string, Top>, r: Round)
    modifies t
    ensures t.rows == RoundRows(old(t.rows), a, r)
  {
    if r.lot in a && r.refundFirst {
      var _ := t.HandleBidRefunded(Some(r.lot), a[r.lot].bidder, a[r.lot].amount, r.last);
    }
    t.HandleBidPlaced(Some(r.lot), r.id, r.bidder, r.amount, r.at);
    if r.lot in a && !r.refundFirst {
      var _ := t.HandleBidRefunded(Some(r.lot), a[r.lot].bidder, a[r.lot].amount, r.last);
    }
  }

  /** A bid must top the highest one, and block time does not run back. */
  predicate Accepted(a: map<string, Top>, r: Round) {
    r.lot in a ==> a[r.lot].amount < r.amount && a[r.lot].at <= r.at
  }

  predicate AllAccepted(rounds: seq<Round>) {
    rounds == [] ||
      (AllAccepted(rounds[..|rounds| - 1]) && Accepted(Auctions(rounds[..|rounds| - 1]), rounds[|rounds| - 1]))
  }

  /** The bidder tops their own bid, the new bid is logged first and its row is the one the query returns. */
  predicate SelfRaise(a: map<string, Top>, r: Round) {
    && r.lot in a && !r.refundFirst && r.bidder == a[r.lot].bidder
    && (a[r.lot].at < r.at || r.last)
  }

  predicate NoSelfRaise(rounds: seq<Round>) {
    rounds == [] ||
      (NoSelfRaise(rounds[..|rounds| - 1]) && !SelfRaise(Auctions(rounds[..|rounds| - 1]), rounds[|rounds| - 1]))
  }

  ghost predicate Unrefunded(rows: seq<Bid>, i: int, lot: string) {
    0 <= i < |rows| && rows[i].lot == lot && rows[i].refund.None?
  }

  /** Row i is the lot's highest bid, its only unrefunded row and its latest. */
  ghost predicate TopRow(rows: seq<Bid>, i: int, lot: string, top: Top) {
    && Unrefunded(rows, i, lot)
    && rows[i].bidder == top.bidder && rows[i].amount == top.amount && rows[i].at == top.at
    && (forall j :: Unrefunded(rows, j, lot) ==> j == i)
    && (forall j :: i < j < |rows| ==> rows[j].lot != lot)
  }

  ghost predicate HasTopRow(rows: seq<Bid>, lot: string, top: Top) {
    exists i :: TopRow(rows, i, lot, top)
  }

  ghost predicate RefundsOwn(rows: seq<Bid>) {
    forall i :: 0 <= i < |rows| ==> OwnRefund(rows[i])
  }

  ghost predicate OwnRefund(r: Bid) {
    r.refund.Some? ==> r.refund.value == r.amount
  }

  /** Every lot's one unrefunded row is its highest and latest bid; every refund is of the row's own amount. */
  ghost predicate Matched(rows: seq<Bid>, a: map<string, Top>) {
    && RefundsOwn(rows)
    && (forall lot :: lot in a ==> HasTopRow(rows, lot, a[lot]))
    && (forall i :: 0 <= i < |rows| ==> rows[i].lot in a)
  }

  // ---------------------------------------------------------------- one round

  lemma RefundHits(rows: seq<Bid>, lot: string, top: Top, last: bool) returns (i: nat)
    requires HasTopRow(rows, lot, top)
    ensures i == FindRefundable(rows, lot, top.bidder, last) && TopRow(rows, i, lot, top)
  {
    var n :| TopRow(rows, n, lot, top);
    i := FindRefundable(rows, lot, top.bidder, last);
    assert Candidate(rows[n], lot, top.bidder);
    assert Unrefunded(rows, i, lot);
  }

  /** Rows of another lot keep their top row when row n changes or a row is added. */
  lemma OtherLot(rows: seq<Bid>, t: seq<Bid>, lot: string, top: Top)
    requires HasTopRow(rows, lot, top) && |rows| <= |t|
    requires forall i :: 0 <= i < |rows| ==> t[i].lot == rows[i].lot && (rows[i].lot == lot ==> t[i] == rows[i])
    requires forall i :: |rows| <= i < |t| ==> t[i].lot != lot
    ensures HasTopRow(t, lot, top)
  {
    var n :| TopRow(rows, n, lot, top);
    forall j | Unrefunded(t, j, lot) ensures j == n { assert Unrefunded(rows, j, lot); }
    assert Unrefunded(t, n, lot);
    assert TopRow(t, n, lot, top);
  }

  /** What a round does when it marks the row it should. */
  function Marked(rows: seq<Bid>, i: nat, r: Round): seq<Bid>
    requires i < |rows|
  {
    rows[i := rows[i].(refund := Some(rows[i].amount))] + [Bid(r.id, r.lot, r.bidder, r.amount, r.at, None)]
  }

  lemma FirstBid(rows: seq<Bid>, a: map<string, Top>, r: Round)
    requires Matched(rows, a) && r.lot !in a
    ensures Matched(RoundRows(rows, a, r), a[r.lot := Top(r.bidder, r.amount, r.at)])
  {
    var t, top := RoundRows(rows, a, r), Top(r.bidder, r.amount, r.at);
    forall j | Unrefunded(t, j, r.lot) ensures j == |rows| {}
    assert Unrefunded(t, |rows|, r.lot) && TopRow(t, |rows|, r.lot, top);
    forall lot | lot in a ensures HasTopRow(t, lot, a[lot]) { OtherLot(rows, t, lot, a[lot]); }
  }

  lemma MarkedMatches(rows: seq<Bid>, a: map<string, Top>, r: Round, i: nat)
    requires Matched(rows, a) && r.lot in a && TopRow(rows, i, r.lot, a[r.lot])
    ensures Matched(Marked(rows, i, r), a[r.lot := Top(r.bidder, r.amount, r.at)])
  {
    var t, top := Marked(rows, i, r), Top(r.bidder, r.amount, r.at);
    forall j | Unrefunded(t, j, r.lot) ensures j == |rows| { assert j < |rows| ==> Unrefunded(rows, j, r.lot); }
    assert Unrefunded(t, |rows|, r.lot) && TopRow(t, |rows|, r.lot, top);
    forall lot | lot in a && lot != r.lot ensures HasTopRow(t, lot, a[lot]) { OtherLot(rows, t, lot, a[lot]); }
    forall j | 0 <= j < |t| ensures OwnRefund(t[j]) { assert j < |rows| ==> OwnRefund(rows[j]); }
  }

  lemma RoundMarks(rows: seq<Bid>, a: map<string, Top>, r: Round) returns (i: nat)
    requires Matched(rows, a) && r.lot in a && Accepted(a, r) && !SelfRaise(a, r)
    ensures TopRow(rows, i, r.lot, a[r.lot]) && RoundRows(rows, a, r) == Marked(rows, i, r)
  {
    var top := a[r.lot];
    i := RefundHits(rows, r.lot, top, r.last);
    if !r.refundFirst { OldBidFound(rows, r, top, i); }
  }

  /** Logged after the new bid, the refund still finds the displaced bid's row. */
  lemma OldBidFound(rows: seq<Bid>, r: Round, top: Top, i: nat)
    requires TopRow(rows, i, r.lot, top) && top.at <= r.at
    requires r.bidder == top.bidder ==> top.at == r.at && !r.last
    ensures FindRefundable(Placed(rows, r.id, r.lot, r.bidder, r.amount, r.at), r.lot, top.bidder, r.last) == i
  {
    var p := Placed(rows, r.id, r.lot, r.bidder, r.amount, r.at);
    var n := FindRefundable(p, r.lot, top.bidder, r.last);
    assert Candidate(p[i], r.lot, top.bidder);
    assert n != |rows| ==> Unrefunded(rows, n, r.lot);
  }

  lemma RoundKeeps(rows: seq<Bid>, a: map<string, Top>, r: Round)
    requires Matched(rows, a) && Accepted(a, r) && !SelfRaise(a, r)
    ensures Matched(RoundRows(rows, a, r), a[r.lot := Top(r.bidder, r.amount, r.at)])
  {
    if r.lot !in a {
      FirstBid(rows, a, r);
    } else {
      var i := RoundMarks(rows, a, r);
      MarkedMatches(rows, a, r, i);
    }
  }

  /** Topping one's own bid marks the new row with the old amount. */
  lemma SelfRaiseSpoils(rows: seq<Bid>, a: map<string, Top>, r: Round)
    requires Matched(rows, a) && Accepted(a, r) && SelfRaise(a, r)
    ensures !RefundsOwn(RoundRows(rows, a, r))
  {
    var top := a[r.lot];
    var i := RefundHits(rows, r.lot, top, r.last);
    var p := Placed(rows, r.id, r.lot, r.bidder, r.amount, r.at);
    assert Candidate(p[i], r.lot, top.bidder) && Candidate(p[|rows|], r.lot, top.bidder);
    var n := FindRefundable(p, r.lot, top.bidder, r.last);
    assert n != |rows| ==> Unrefunded(rows, n, r.lot);
    assert !OwnRefund(RoundRows(rows, a, r)[|rows|]);
  }

  /** A wrong refund is never put right. */
  lemma SpoiltStays(rows: seq<Bid>, a: map<string, Top>, r: Round)
    requires !RefundsOwn(rows)
    ensures !RefundsOwn(RoundRows(rows, a, r))
  {
    var i :| 0 <= i < |rows| && !OwnRefund(rows[i]);
    assert RoundRows(rows, a, r)[i] == rows[i];
  }

  /**
   Over any auctions: bids and refunds match exactly when no bidder topped their own bid with the bid
   logged first.
   */
  lemma {:induction false} RefundsMatchIff(rounds: seq<Round>)
    requires AllAccepted(rounds)
    ensures Matched(Table(rounds), Auctions(rounds)) <==> NoSelfRaise(rounds)
    ensures RefundsOwn(Table(rounds)) <==> NoSelfRaise(rounds)
    decreases |rounds|
  {
    if rounds != [] {
      var init, r := rounds[..|rounds| - 1], rounds[|rounds| - 1];
      var rows, a := Table(init), Auctions(init);
      RefundsMatchIff(init);
      if !NoSelfRaise(init) {
        SpoiltStays(rows, a, r);
      } else if SelfRaise(a, r) {
        SelfRaiseSpoils(rows, a, r);
      } else {
        RoundKeeps(rows, a, r);
      }
    }
  }

  /** With the refund logged first, or no bidder topping their own bid, everything matches. */
  lemma {:induction false} RefundFirstMatches(rounds: seq<Round>)
    requires AllAccepted(rounds) && forall r :: r in rounds ==> r.refundFirst
    ensures Matched(Table(rounds), Auctions(rounds))
  {
    NeverRaised(rounds);
    RefundsMatchIff(rounds);
  }

  lemma {:induction false} NeverRaised(rounds: seq<Round>)
    requires forall r :: r in rounds ==> r.refundFirst
    ensures NoSelfRaise(rounds)
    decreases |rounds|
  {
    if rounds != [] { NeverRaised(rounds[..|rounds| - 1]); }
  }

  lemma FirstRound(r: Round)
    ensures Table([r]) == [Bid(r.id, r.lot, r.bidder, r.amount, r.at, None)] && AllAccepted([r])
    ensures Auctions([r]) == map[r.lot := Top(r.bidder, r.amount, r.at)]
  {
    assert [r][..0] == [];
    assert Table([]) == [] && Auctions([]) == map[];
  }

  /**
   As the contract logs it: the same bidder bids, and tops the bid a block later; the new bid ends marked
   as a refund of the old amount.
   */
  lemma OwnBidToppedSpoils(first: Round, second: Round)
    requires second.lot == first.lot && second.bidder == first.bidder && !second.refundFirst
    requires first.amount < second.amount && first.at < second.at
    ensures AllAccepted([first, second])
    ensures Table([first, second]) ==
      [Bid(first.id, first.lot, first.bidder, first.amount, first.at, None),
       Bid(second.id, first.lot, first.bidder, second.amount, second.at, Some(first.amount))]
  {
    var rounds := [first, second];
    assert rounds[..1] == [first];
    FirstRound(first);
    var rows := Table([first]);
    var p := Placed(rows, second.id, second.lot, second.bidder, second.amount, second.at);
    NewerCandidate(p, first.lot, first.bidder, second.last);
    assert Table(rounds) == RoundRows(rows, Auctions([first]), second);
  }

  lemma NewerCandidate(p: seq<Bid>, lot: string, bidder: string, last: bool)
    requires |p| == 2 && Candidate(p[0], lot, bidder) && Candidate(p[1], lot, bidder) && p[0].at < p[1].at
    ensures FindRefundable(p, lot, bidder, last) == 1
  {
  }
}
