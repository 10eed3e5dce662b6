/**
 The claim handlers of src/commerce-handlers.ts in the source's own form: a bounded insertion-ordered
 map changed in place, and credit rows written as logs arrive. Each method is proved equal to the
 step of module Attribution it stands for.
 */
module AttributionHandlers {
  import opened Common
  import opened Attribution

  class ClaimAttribution {
    var order: seq<string>
    var entries: map<string, TxState>
    var credits: map<CreditId, Credit>

    ghost function St(): State
      reads this
    {
      State(order, entries, credits)
    }

    constructor ()
      ensures St() == Empty
    {
      order, entries, credits := [], map[], map[];
    }

    method GetPendingTxState(key: string) returns (tx: TxState)
      requires OrderValid(St()) && |order| <= MAX_PENDING_TX_ENTRIES
      modifies this
      ensures St() == Touch(Some(MAX_PENDING_TX_ENTRIES), old(St()), key)
      ensures OrderValid(St()) && |order| <= MAX_PENDING_TX_ENTRIES
      ensures key in entries && tx == entries[key]
    {
      TouchKeeps(Some(MAX_PENDING_TX_ENTRIES), St(), key);
      if key !in entries {
        order, entries := order + [key], entries[key := TxState([], [])];
        if |order| > MAX_PENDING_TX_ENTRIES {
          var oldestKey := order[0];
          order, entries := order[1..], entries - {oldestKey};
        }
      }
      tx := entries[key];
    }

    /** The loop of `pushCause`: writes the credits the cause fits, returns the others. */
    method ResolveCredits(parked: seq<Parked>, cause: Cause) returns (stillUnresolved: seq<Parked>)
      modifies this`credits
      ensures credits == Backfill(old(credits), parked, cause)
      ensures stillUnresolved == StillParked(parked, cause)
    {
      stillUnresolved := [];
      for i := 0 to |parked|
        invariant Backfill(credits, parked[i..], cause) == Backfill(old(credits), parked, cause)
        invariant stillUnresolved + StillParked(parked[i..], cause) == StillParked(parked, cause)
      {
        var credit := parked[i];
        ResolveStep(credits, stillUnresolved, parked, i, cause);
        if Lower(credit.account) == Lower(cause.account) &&
          (cause.amount.None? || cause.amount.value == credit.amount) {
          if credit.id in credits {
            credits := credits[credit.id := credits[credit.id].(why := Some(Why(cause.reason, cause.event)))];
          }
        } else {
          stillUnresolved := stillUnresolved + [credit];
        }
      }
    }

    method PushCause(txHash: string, cause: Cause)
      requires OrderValid(St()) && |order| <= MAX_PENDING_TX_ENTRIES
      modifies this
      ensures St() == Push(Some(MAX_PENDING_TX_ENTRIES), old(St()), Lower(txHash), cause)
      ensures OrderValid(St()) && |order| <= MAX_PENDING_TX_ENTRIES
    {
      var key := Lower(txHash);
      var state := GetPendingTxState(key);
      entries := entries[key := state.(causes := state.causes + [cause])];
      if state.parked == [] { return; }
      var stillUnresolved := ResolveCredits(state.parked, cause);
      entries := entries[key := TxState(state.causes + [cause], stillUnresolved)];
    }

    method HandleClaimRecorded(txHash: string, logIndex: int, account: string, amount: nat)
      requires OrderValid(St()) && |order| <= MAX_PENDING_TX_ENTRIES
      modifies this
      ensures St() == Record(Some(MAX_PENDING_TX_ENTRIES), old(St()), ClaimRecorded(txHash, logIndex, account, amount))
      ensures OrderValid(St()) && |order| <= MAX_PENDING_TX_ENTRIES
    {
      var key := Lower(txHash);
      var state := GetPendingTxState(key);
      var why := Correlate(state.causes, account, amount, logIndex);
      var id := CreditId(key, logIndex);
      credits := credits[id := Credit(account, amount, why)];
      if why.None? {
        entries := entries[key := state.(parked := state.parked + [Parked(id, account, amount)])];
      }
    }

    /** A whole stream of logs, from any valid state. */
    method HandleAll(logs: seq<Log>)
      requires OrderValid(St()) && |order| <= MAX_PENDING_TX_ENTRIES
      modifies this
      ensures St() == Run(Some(MAX_PENDING_TX_ENTRIES), old(St()), logs)
    {
      for i := 0 to |logs|
        invariant OrderValid(St()) && |order| <= MAX_PENDING_TX_ENTRIES
        invariant Run(Some(MAX_PENDING_TX_ENTRIES), St(), logs[i..]) ==
          Run(Some(MAX_PENDING_TX_ENTRIES), old(St()), logs)
      {
        assert logs[i..][1..] == logs[i + 1..];
        match logs[i] {
          case ClaimRecorded(tx, logIndex, account, amount) => HandleClaimRecorded(tx, logIndex, account, amount);
          case CauseLogged(tx, cause) => PushCause(tx, cause);
        }
      }
    }
  }

  /** What one parked credit adds to the two results of the loop. */
  lemma ResolveStep(credits: map<CreditId, Credit>, kept: seq<Parked>, parked: seq<Parked>, i: nat, c: Cause)
    requires i < |parked|
    ensures var u := parked[i];
      && (Fits(c, u.account, u.amount) && u.id in credits ==>
            Backfill(credits, parked[i..], c) ==
              Backfill(credits[u.id := credits[u.id].(why := Some(Why(c.reason, c.event)))], parked[i + 1..], c))
      && (!(Fits(c, u.account, u.amount) && u.id in credits) ==>
        Backfill(credits, parked[i..], c) == Backfill(credits, parked[i + 1..], c))
      && kept + StillParked(parked[i..], c) ==
           (if Fits(c, u.account, u.amount) then kept else kept + [u]) + StillParked(parked[i + 1..], c)
  {
    assert parked[i..][1..] == parked[i + 1..];
  }
}
