/**
 The consignment, hold and challenge handlers of src/commerce-handlers.ts over tables they insert into
 and update in place, each proved to be the step of module Lifecycle for its log.
 */
module CommerceTables {
  import opened Common
  import opened Lifecycle

  /** The refund a completed reversal hands to the claim correlator. */
  datatype Refund = Refund(buyer: string, gross: nat)

  class Tables {
    var consignments: seq<Consignment>
    var holds: seq<Hold>
    var challenges: seq<Challenge>

    ghost function Value(): Db
      reads this
    {
      Db(consignments, holds, challenges)
    }

    constructor ()
      ensures Value() == EmptyDb
    {
      consignments, holds, challenges := [], [], [];
    }

    method CountPriorOpens(chain: int, token: int) returns (n: nat)
      ensures n == CountOpens(consignments, chain, token)
    {
      n := 0;
      assert consignments[..|consignments|] == consignments;
      for i := 0 to |consignments|
        invariant n == CountOpens(consignments[..i], chain, token)
      {
        assert consignments[..i + 1][..i] == consignments[..i];
        if consignments[i].key.chain == chain && consignments[i].key.token == token { n := n + 1; }
      }
    }

    method HandleConsignmentOpened(key: Key, id: string, at: int)
      modifies this
      ensures Value() == Handle(old(Value()), ConsignmentOpened(key, id), at)
    {
      var priorOpens := CountPriorOpens(key.chain, key.token);
      consignments := consignments + [Consignment(id, key, priorOpens + 1, Offered)];
    }

    method HandleBidPlaced(key: Key, at: int)
      modifies this
      ensures Value() == Handle(old(Value()), BidPlaced(key), at)
    {
      var i := FindLiveConsignment(consignments, key);
      if i == |consignments| { return; }
      if consignments[i].phase == Offered {
        consignments := consignments[i := consignments[i].(phase := Binding)];
      }
    }

    method HandleConsignmentClosed(key: Key, reason: nat, at: int)
      modifies this
      ensures Value() == Handle(old(Value()), ConsignmentClosed(key, reason), at)
    {
      var i := FindLiveConsignment(consignments, key);
      if i == |consignments| { return; }
      consignments := consignments[i := consignments[i].(phase := if reason == RETURNED then Returned else Closed)];
    }

    method HandleSettled(key: Key, buyer: string, gross: nat, at: int)
      modifies this
      ensures Value() == Handle(old(Value()), Settled(key, buyer, gross), at)
    {
      var i := FindLiveConsignment(consignments, key);
      if i == |consignments| { return; }
      var live := consignments[i];
      consignments := consignments[i := live.(phase := Held)];
      holds := holds + [Hold(live.id, key.chain, key.token, buyer, gross, Active, None)];
    }

    method HandleReversalStarted(key: Key, at: int)
      modifies this
      ensures Value() == Handle(old(Value()), ReversalStart(key), at)
    {
      var h := FindLiveHold(holds, key.chain, key.token);
      if h == |holds| { return; }
      holds := holds[h := holds[h].(state := ReversalStarted)];
    }

    /** The four handlers that clear a hold; only a completed reversal reports a cause. */
    method HandleHoldEnded(key: Key, state: HoldState, at: int) returns (cause: Option<Refund>)
      requires IsTerminal(state)
      modifies this
      ensures Value() == Handle(old(Value()), HoldEnded(key, state), at)
      ensures var h := FindLiveHold(old(holds), key.chain, key.token);
        cause ==
          if h < |old(holds)| && state == ReversalCompleted then Some(Refund(old(holds)[h].buyer, old(holds)[h].gross))
          else None
    {
      cause := None;
      var h := FindLiveHold(holds, key.chain, key.token);
      if h == |holds| { return; }
      var hold := holds[h];
      holds := holds[h := hold.(state := state, clearedAt := Some(at))];
      if state == ReversalCompleted { cause := Some(Refund(hold.buyer, hold.gross)); }
    }

    method WriteChallengeOpened(key: Key, id: string, at: int)
      modifies this
      ensures Value() == Handle(old(Value()), ChallengeOpened(key, id), at)
    {
      challenges := challenges + [Challenge(id, key, Open, None)];
    }

    method ResolveChallengeTerminal(key: Key, kind: Status, outcome: nat, at: int) returns (id: Option<string>)
      modifies this
      ensures Value() == Handle(old(Value()), ChallengeEnded(key, kind, outcome), at)
      ensures var c := FindOpenChallenge(old(challenges), key);
        id == if c < |old(challenges)| then Some(old(challenges)[c].id) else None
    {
      id := None;
      var c := FindOpenChallenge(challenges, key);
      if c == |challenges| { return; }
      id := Some(challenges[c].id);
      challenges := challenges[c := challenges[c].(status := kind, terminalAt := Some(at))];
    }

    method Dispatch(log: Log, at: int)
      requires log.HoldEnded? ==> IsTerminal(log.state)
      modifies this
      ensures Value() == Handle(old(Value()), log, at)
    {
      match log
      case ConsignmentOpened(k, id) => HandleConsignmentOpened(k, id, at);
      case BidPlaced(k) => HandleBidPlaced(k, at);
      case ConsignmentClosed(k, reason) => HandleConsignmentClosed(k, reason, at);
      case Settled(k, buyer, gross) => HandleSettled(k, buyer, gross, at);
      case ReversalStart(k) => HandleReversalStarted(k, at);
      case HoldEnded(k, state) => var _ := HandleHoldEnded(k, state, at);
      case ChallengeOpened(k, id) => WriteChallengeOpened(k, id, at);
      case ChallengeEnded(k, status, outcome) => var _ := ResolveChallengeTerminal(k, status, outcome, at);
    }
  }

  /** Indexing a stream into fresh tables. */
  method Index(logs: seq<Log>) returns (t: Tables)
    requires forall l :: l in logs && l.HoldEnded? ==> IsTerminal(l.state)
    ensures fresh(t) && t.Value() == Run(EmptyDb, logs)
  {
    t := new Tables();
    assert logs[..|logs|] == logs;
    for i := 0 to |logs|
      invariant fresh(t) && t.Value() == Run(EmptyDb, logs[..i])
    {
      assert logs[..i + 1][..i] == logs[..i];
      t.Dispatch(logs[i], i + 1);
    }
  }

  /** The cause of a completed reversal names the buyer and the gross of the lot's own settlement. */
  lemma RefundNamesTheSettlement(logs: seq<Log>, log: Log)
    requires Emitted(logs) && log.HoldEnded? && May(State(logs), log)
    ensures var holds, lots := Run(EmptyDb, logs).holds, State(logs).lots;
      var h := FindLiveHold(holds, log.key.chain, log.key.token);
      && h < |holds| && log.key in lots
      && Refund(holds[h].buyer, holds[h].gross) == Refund(lots[log.key].buyer, lots[log.key].gross)
  {
    TablesMirrorContracts(logs);
    var h := LiveHoldFound(Run(EmptyDb, logs).holds, State(logs), log.key);
  }
}
