/**
 What eviction from the bounded map costs a single credit (src/commerce-handlers.ts, getPendingTxState): a parked
 credit gets its reason exactly when, up to the first cause that fits, fewer other transactions than the bound
 have started since its own.
 */
module AttributionEviction {
  import opened Common
  import opened Attribution

  ghost predicate IsParked(s: State, id: CreditId, account: string, amount: nat) {
    id.tx in s.entries && Parked(id, account, amount) in s.entries[id.tx].parked
  }

  ghost predicate NotParked(s: State, id: CreditId) {
    forall k, u :: k in s.entries && u in s.entries[k].parked ==> u.id != id
  }

  predicate FitsLog(log: Log, key: string, account: string, amount: nat) {
    log.CauseLogged? && Key(log) == key && Fits(log.cause, account, amount)
  }

  /** The transaction is still in the map when the first fitting cause comes, or to the end. */
  ghost predicate Survives(cap: Option<nat>, s: State, logs: seq<Log>, key: string, account: string, amount: nat)
    decreases |logs|
  {
    logs == [] || FitsLog(logs[0], key, account, amount)
    || (key in Step(cap, s, logs[0]).entries && Survives(cap, Step(cap, s, logs[0]), logs[1..], key, account, amount))
  }

  // ---------------------------------------------------------------- one step

  /** Unexplained, and either parked where it belongs or nowhere. */
  ghost predicate Waiting(s: State, id: CreditId, account: string, amount: nat, parked: bool) {
    && id in s.credits && s.credits[id] == Credit(account, amount, None)
    && (if parked then IsParked(s, id, account, amount) else NotParked(s, id))
  }

  lemma TouchWaits(cap: Option<nat>, s: State, key: string, id: CreditId, account: string, amount: nat, parked: bool)
    requires Valid(s) && (cap.Some? ==> cap.value >= 1) && Waiting(s, id, account, amount, parked)
    ensures var t := Touch(cap, s, key); Waiting(t, id, account, amount, parked && id.tx in t.entries)
  {
    TouchKeeps(cap, s, key);
    var t := Touch(cap, s, key);
    if parked && id.tx !in t.entries {
      forall k, u | k in t.entries && u in t.entries[k].parked ensures u.id != id {
        if k in s.entries { assert EntryOk(s.credits, k, s.entries[k]) && ParkedOk(s.credits, k, u); }
      }
    }
  }

  lemma RecordWaits(cap: Option<nat>, s: State, log: Log, id: CreditId, account: string, amount: nat, parked: bool)
    requires Valid(s) && (cap.Some? ==> cap.value >= 1) && Waiting(s, id, account, amount, parked)
    requires log.ClaimRecorded? && IdOf(log) !in s.credits
    ensures var t := Record(cap, s, log);
      Waiting(t, id, account, amount, parked && id.tx in t.entries)
  {
    TouchKeeps(cap, s, Key(log));
    TouchWaits(cap, s, Key(log), id, account, amount, parked);
  }

  lemma PushWaits(cap: Option<nat>, s: State, key: string, c: Cause, id: CreditId, account: string, amount: nat,
      parked: bool)
    requires Valid(s) && (cap.Some? ==> cap.value >= 1) && Waiting(s, id, account, amount, parked)
    ensures var t := Push(cap, s, key, c);
      if parked && key == id.tx && Fits(c, account, amount)
      then id in t.credits && t.credits[id] == Credit(account, amount, Explain(Some(c)))
      else Waiting(t, id, account, amount, parked && id.tx in t.entries)
  {
    TouchKeeps(cap, s, key);
    TouchParked(cap, s, key);
    TouchWaits(cap, s, key, id, account, amount, parked);
    PushInWaits(Touch(cap, s, key), key, c, id, account, amount, parked && id.tx in Touch(cap, s, key).entries);
  }

  lemma PushInWaits(s: State, key: string, c: Cause, id: CreditId, account: string, amount: nat, parked: bool)
    requires Valid(s) && key in s.entries && Waiting(s, id, account, amount, parked)
    ensures var t := PushIn(s, key, c);
      if parked && key == id.tx && Fits(c, account, amount)
      then id in t.credits && t.credits[id] == Credit(account, amount, Explain(Some(c)))
      else Waiting(t, id, account, amount, parked)
  {
    var tx := s.entries[key];
    BackfillAt(s.credits, tx.parked, c, id);
    StillParkedAre(tx.parked, c);
    OwnParked(s, key, id, account, amount);
  }

  /** Whoever is parked under the credit's id is the credit itself, in its own transaction. */
  lemma OwnParked(s: State, key: string, id: CreditId, account: string, amount: nat)
    requires Valid(s) && key in s.entries && id in s.credits && s.credits[id] == Credit(account, amount, None)
    ensures forall u :: u in s.entries[key].parked && u.id == id ==> key == id.tx && u == Parked(id, account, amount)
  {
    assert EntryOk(s.credits, key, s.entries[key]);
    forall u | u in s.entries[key].parked && u.id == id ensures key == id.tx && u == Parked(id, account, amount) {
      assert ParkedOk(s.credits, key, u);
    }
  }

  lemma StepWaits(cap: Option<nat>, s: State, log: Log, id: CreditId, account: string, amount: nat, parked: bool)
    requires Valid(s) && Follows(s, [log]) && (cap.Some? ==> cap.value >= 1) && Waiting(s, id, account, amount, parked)
    ensures var t := Step(cap, s, log);
      if parked && FitsLog(log, id.tx, account, amount)
      then id in t.credits && t.credits[id] == Credit(account, amount, Explain(Some(log.cause)))
      else Waiting(t, id, account, amount, parked && id.tx in t.entries)
  {
    assert [log][0] == log;
    if log.ClaimRecorded? {
      RecordWaits(cap, s, log, id, account, amount, parked);
    } else {
      PushWaits(cap, s, Key(log), log.cause, id, account, amount, parked);
    }
  }

  // ---------------------------------------------------------------- the fate of one credit

  /** An explained credit is not touched again, with a bound as without. */
  lemma {:induction false} ExplainedStays(cap: Option<nat>, s: State, logs: seq<Log>, id: CreditId)
    requires Valid(s) && Follows(s, logs) && (cap.Some? ==> cap.value >= 1)
    requires id in s.credits && s.credits[id].why.Some?
    ensures id in Run(cap, s, logs).credits && Run(cap, s, logs).credits[id] == s.credits[id]
    decreases |logs|
  {
    if logs != [] {
      assert Follows(s, [logs[0]]) by { assert [logs[0]][0] == logs[0]; }
      ExplainedKept(cap, s, logs[0], id);
      StepKeeps(cap, s, logs[0]);
      StepFollows(cap, s, logs);
      ExplainedStays(cap, Step(cap, s, logs[0]), logs[1..], id);
    }
  }

  lemma ExplainedKept(cap: Option<nat>, s: State, log: Log, id: CreditId)
    requires Valid(s) && Follows(s, [log]) && (cap.Some? ==> cap.value >= 1)
    requires id in s.credits && s.credits[id].why.Some?
    ensures id in Step(cap, s, log).credits && Step(cap, s, log).credits[id] == s.credits[id]
  {
    assert [log][0] == log;
    TouchKeeps(cap, s, Key(log));
    TouchParked(cap, s, Key(log));
    if log.CauseLogged? {
      var s1 := Touch(cap, s, Key(log));
      assert EntryOk(s1.credits, Key(log), s1.entries[Key(log)]);
      BackfillAt(s1.credits, s1.entries[Key(log)].parked, log.cause, id);
      forall u | u in s1.entries[Key(log)].parked ensures u.id != id { assert ParkedOk(s1.credits, Key(log), u); }
    }
  }

  /** A credit that is parked nowhere stays unexplained. */
  lemma {:induction false} LostStays(cap: Option<nat>, s: State, logs: seq<Log>, id: CreditId, account: string,
      amount: nat)
    requires Valid(s) && Follows(s, logs) && (cap.Some? ==> cap.value >= 1) && Waiting(s, id, account, amount, false)
    ensures id in Run(cap, s, logs).credits && Run(cap, s, logs).credits[id].why == None
    decreases |logs|
  {
    if logs != [] {
      assert Follows(s, [logs[0]]) by { assert [logs[0]][0] == logs[0]; }
      StepWaits(cap, s, logs[0], id, account, amount, false);
      StepKeeps(cap, s, logs[0]);
      StepFollows(cap, s, logs);
      LostStays(cap, Step(cap, s, logs[0]), logs[1..], id, account, amount);
    }
  }

  /** A parked credit ends with the first cause that fits, provided its transaction is in the map until then. */
  lemma {:induction false} BoundedFate(cap: Option<nat>, s: State, logs: seq<Log>, id: CreditId, account: string,
      amount: nat)
    requires Valid(s) && Follows(s, logs) && (cap.Some? ==> cap.value >= 1) && Waiting(s, id, account, amount, true)
    ensures id in Run(cap, s, logs).credits && Run(cap, s, logs).credits[id].why ==
      if Survives(cap, s, logs, id.tx, account, amount) then Explain(FirstFit(id.tx, account, amount, logs)) else None
    decreases |logs|
  {
    if logs != [] {
      var t := Step(cap, s, logs[0]);
      assert Follows(s, [logs[0]]) by { assert [logs[0]][0] == logs[0]; }
      StepWaits(cap, s, logs[0], id, account, amount, true);
      StepKeeps(cap, s, logs[0]);
      StepFollows(cap, s, logs);
      if FitsLog(logs[0], id.tx, account, amount) {
        ExplainedStays(cap, t, logs[1..], id);
      } else if id.tx in t.entries {
        BoundedFate(cap, t, logs[1..], id, account, amount);
      } else {
        LostStays(cap, t, logs[1..], id, account, amount);
      }
    }
  }

  // ---------------------------------------------------------------- starts, read off the logs

  function StartsWith(cap: nat, starts: seq<string>, key: string): seq<string> {
    if key in LastOf(starts, cap) then starts else starts + [key]
  }

  /** The transactions in the order they start: one starts when it is not among the last `cap` that did. */
  function Starts(cap: nat, before: seq<string>, logs: seq<Log>): seq<string>
    decreases |logs|
  {
    if logs == [] then before else Starts(cap, StartsWith(cap, before, Key(logs[0])), logs[1..])
  }

  /** The latest place of a transaction among the starts. */
  function LatestStart(starts: seq<string>, key: string): (p: int)
    ensures -1 <= p < |starts| && (p >= 0 ==> starts[p] == key) && forall j :: p < j < |starts| ==> starts[j] != key
  {
    if starts == [] then -1
    else if starts[|starts| - 1] == key then |starts| - 1
    else LatestStart(starts[..|starts| - 1], key)
  }

  /** How many other transactions start in `more`, and after the one of the newest log of `upTo` did. */
  function StartedSince(cap: nat, upTo: seq<Log>, more: seq<Log>): int
    requires upTo != []
  {
    var starts := Starts(cap, [], upTo);
    |Starts(cap, starts, more)| - 1 - LatestStart(starts, Key(upTo[|upTo| - 1]))
  }

  /** The place of the first log that fits, or the end. */
  function FitAt(logs: seq<Log>, key: string, account: string, amount: nat): (f: nat)
    ensures f <= |logs|
  {
    if logs == [] || FitsLog(logs[0], key, account, amount) then 0 else 1 + FitAt(logs[1..], key, account, amount)
  }

  lemma OrderStep(cap: nat, s: State, starts: seq<string>, log: Log)
    requires cap >= 1 && OrderValid(s) && s.order == LastOf(starts, cap)
    ensures var t, more := Step(Some(cap), s, log), StartsWith(cap, starts, Key(log));
      && t.order == LastOf(more, cap) && OrderValid(t) && Key(log) in LastOf(more, cap)
      && forall key :: key in t.entries <==> key in LastOf(more, cap)
  {
    StepOrder(Some(cap), s, log);
    LastOfAppend(cap, starts, Key(log));
    assert Key(log) in s.entries <==> Key(log) in s.order;
  }

  /** The bounded map holds the last transactions to start. */
  lemma {:induction false} OrderIsStarts(cap: nat, s: State, starts: seq<string>, logs: seq<Log>)
    requires cap >= 1 && OrderValid(s) && s.order == LastOf(starts, cap)
    ensures var t := Run(Some(cap), s, logs); t.order == LastOf(Starts(cap, starts, logs), cap) && OrderValid(t)
    decreases |logs|
  {
    if logs != [] {
      OrderStep(cap, s, starts, logs[0]);
      OrderIsStarts(cap, Step(Some(cap), s, logs[0]), StartsWith(cap, starts, Key(logs[0])), logs[1..]);
    }
  }

  lemma AmongLast(starts: seq<string>, cap: nat, key: string)
    ensures key in LastOf(starts, cap) <==> LatestStart(starts, key) >= 0 && |starts| - LatestStart(starts, key) <= cap
  {
    var p := LatestStart(starts, key);
    if p >= 0 && |starts| - p <= cap && |starts| > cap { assert LastOf(starts, cap)[p - (|starts| - cap)] == key; }
  }

  lemma StartsKeep(cap: nat, starts: seq<string>, key: string, other: string)
    ensures |starts| <= |StartsWith(cap, starts, other)|
    ensures key in LastOf(starts, cap) ==>
      LatestStart(StartsWith(cap, starts, other), key) == LatestStart(starts, key)
  {
    assert (starts + [other])[..|starts|] == starts;
  }

  lemma {:induction false} StartsGrow(cap: nat, starts: seq<string>, logs: seq<Log>)
    ensures |starts| <= |Starts(cap, starts, logs)|
    decreases |logs|
  {
    if logs != [] { StartsGrow(cap, StartsWith(cap, starts, Key(logs[0])), logs[1..]); }
  }

  /** The transaction stays in the map exactly as long as fewer than `cap` others have started since. */
  lemma {:induction false} SurvivesIff(cap: nat, s: State, starts: seq<string>, logs: seq<Log>, key: string,
      account: string, amount: nat, p: int)
    requires cap >= 1 && OrderValid(s) && s.order == LastOf(starts, cap)
    requires key in LastOf(starts, cap) && p == LatestStart(starts, key)
    ensures Survives(Some(cap), s, logs, key, account, amount) <==>
      |Starts(cap, starts, logs[..FitAt(logs, key, account, amount)])| - p <= cap
    decreases |logs|
  {
    AmongLast(starts, cap, key);
    if logs != [] && !FitsLog(logs[0], key, account, amount) {
      var more := StartsWith(cap, starts, Key(logs[0]));
      StartsKeep(cap, starts, key, Key(logs[0]));
      AmongLast(more, cap, key);
      StartsUpTo(cap, starts, logs, FitAt(logs, key, account, amount), more);
      OrderStep(cap, s, starts, logs[0]);
      if key in LastOf(more, cap) {
        SurvivesIff(cap, Step(Some(cap), s, logs[0]), more, logs[1..], key, account, amount, p);
      }
    }
  }

  lemma StartsUpTo(cap: nat, starts: seq<string>, logs: seq<Log>, f: nat, more: seq<string>)
    requires 0 < f <= |logs| && more == StartsWith(cap, starts, Key(logs[0]))
    ensures Starts(cap, starts, logs[..f]) == Starts(cap, more, logs[1..][..f - 1])
    ensures |more| <= |Starts(cap, starts, logs[..f])|
  {
    assert logs[..f][1..] == logs[1..][..f - 1];
    StartsGrow(cap, more, logs[1..][..f - 1]);
  }

  /**
   For every stream and every bound: a credit that is parked when it is recorded ends with the first later
   cause that fits, as without a bound, exactly when there is none or, until that cause is logged, fewer than
   the bound other transactions have started since its own did.
   */
  lemma KeepsReasonIff(cap: nat, logs: seq<Log>, i: nat)
    requires cap >= 1 && WellFormed(logs) && i < |logs| && logs[i].ClaimRecorded?
    requires var c := Run(Some(cap), Empty, logs[..i + 1]).credits; IdOf(logs[i]) in c ==> c[IdOf(logs[i])].why == None
    ensures var c, log := Run(Some(cap), Empty, logs).credits, logs[i];
      var fit := FirstFit(Key(log), log.account, log.amount, logs[i + 1..]);
      var f := FitAt(logs[i + 1..], Key(log), log.account, log.amount);
      && IdOf(log) in c
      && (c[IdOf(log)].why == Explain(fit) <==> fit.None? || StartedSince(cap, logs[..i + 1], logs[i + 1..][..f]) < cap)
  {
    KeepsWhileInMap(cap, logs, i);
    SurvivesFrom(cap, logs[..i + 1], logs[i + 1..], logs[i],
      FitAt(logs[i + 1..], Key(logs[i]), logs[i].account, logs[i].amount));
  }

  lemma SurvivesFrom(cap: nat, upTo: seq<Log>, tail: seq<Log>, log: Log, f: nat)
    requires cap >= 1 && upTo != [] && upTo[|upTo| - 1] == log && log.ClaimRecorded?
    requires f == FitAt(tail, Key(log), log.account, log.amount)
    ensures Survives(Some(cap), Run(Some(cap), Empty, upTo), tail, Key(log), log.account, log.amount) <==>
      StartedSince(cap, upTo, tail[..f]) < cap
  {
    var s, starts := Run(Some(cap), Empty, upTo), Starts(cap, [], upTo);
    JustStarted(cap, upTo);
    OrderIsStarts(cap, Empty, [], upTo);
    SurvivesIff(cap, s, starts, tail, Key(log), log.account, log.amount, LatestStart(starts, Key(log)));
  }

  lemma AmongItself(cap: nat, starts: seq<string>, key: string)
    requires cap >= 1
    ensures key in LastOf(StartsWith(cap, starts, key), cap)
  {
    var last := LastOf(starts + [key], cap);
    assert last[|last| - 1] == key;
  }

  lemma {:induction false} StartsSnoc(cap: nat, before: seq<string>, init: seq<Log>, log: Log)
    ensures Starts(cap, before, init + [log]) == StartsWith(cap, Starts(cap, before, init), Key(log))
    decreases |init|
  {
    if init == [] {
      assert [] + [log] == [log] && [log][1..] == [];
    } else {
      assert (init + [log])[1..] == init[1..] + [log];
      StartsSnoc(cap, StartsWith(cap, before, Key(init[0])), init[1..], log);
    }
  }

  /** The transaction of the newest log is among the last to start. */
  lemma JustStarted(cap: nat, logs: seq<Log>)
    requires cap >= 1 && logs != []
    ensures Key(logs[|logs| - 1]) in LastOf(Starts(cap, [], logs), cap)
  {
    var init, log := logs[..|logs| - 1], logs[|logs| - 1];
    assert logs == init + [log];
    StartsSnoc(cap, [], init, log);
    AmongItself(cap, Starts(cap, [], init), Key(log));
  }

  /** That is: when its transaction stays in the map until that cause. */
  lemma KeepsWhileInMap(cap: nat, logs: seq<Log>, i: nat)
    requires cap >= 1 && WellFormed(logs) && i < |logs| && logs[i].ClaimRecorded?
    requires var c := Run(Some(cap), Empty, logs[..i + 1]).credits; IdOf(logs[i]) in c ==> c[IdOf(logs[i])].why == None
    ensures var c, log := Run(Some(cap), Empty, logs).credits, logs[i];
      var fit := FirstFit(Key(log), log.account, log.amount, logs[i + 1..]);
      && IdOf(log) in c
      && (c[IdOf(log)].why == Explain(fit) <==>
            var upTo := Run(Some(cap), Empty, logs[..i + 1]);
            fit.None? || Survives(Some(cap), upTo, logs[i + 1..], Key(log), log.account, log.amount))
  {
    Slices(logs, i);
    KeepsReasonAround(cap, logs[..i], logs[i], logs[i + 1..], logs[..i + 1], logs);
  }

  lemma Slices(logs: seq<Log>, i: nat)
    requires i < |logs|
    ensures logs == logs[..i] + ([logs[i]] + logs[i + 1..]) && logs[..i + 1] == logs[..i] + [logs[i]]
  {
  }

  lemma KeepsReasonAround(cap: nat, init: seq<Log>, log: Log, tail: seq<Log>, upTo: seq<Log>, logs: seq<Log>)
    requires cap >= 1 && WellFormed(logs) && log.ClaimRecorded? && logs == init + ([log] + tail) && upTo == init + [log]
    requires var c := Run(Some(cap), Empty, upTo).credits; IdOf(log) in c ==> c[IdOf(log)].why == None
    ensures var c, fit := Run(Some(cap), Empty, logs).credits, FirstFit(Key(log), log.account, log.amount, tail);
      && IdOf(log) in c
      && (c[IdOf(log)].why == Explain(fit) <==>
            fit.None? || Survives(Some(cap), Run(Some(cap), Empty, upTo), tail, Key(log), log.account, log.amount))
  {
    RunAround(cap, init, log, tail);
    KeepsReasonFrom(cap, Run(Some(cap), Empty, init), log, tail);
  }

  lemma RunAround(cap: nat, init: seq<Log>, log: Log, tail: seq<Log>)
    requires cap >= 1 && WellFormed(init + ([log] + tail))
    ensures var s := Run(Some(cap), Empty, init);
      && Valid(s) && Follows(s, [log] + tail)
      && Run(Some(cap), Empty, init + [log]) == Step(Some(cap), s, log)
      && Run(Some(cap), Empty, init + ([log] + tail)) == Run(Some(cap), Step(Some(cap), s, log), tail)
  {
    var s := Run(Some(cap), Empty, init);
    BoundedPrefix(cap, init, [log] + tail);
    RunSplit(Some(cap), Empty, init, [log]);
    RunSplit(Some(cap), Empty, init, [log] + tail);
    RunCons(cap, s, log, tail);
    RunOne(cap, s, log);
  }

  lemma RunCons(cap: nat, s: State, log: Log, tail: seq<Log>)
    ensures Run(Some(cap), s, [log] + tail) == Run(Some(cap), Step(Some(cap), s, log), tail)
  {
    assert ([log] + tail)[1..] == tail;
  }

  lemma RunOne(cap: nat, s: State, log: Log)
    ensures Run(Some(cap), s, [log]) == Step(Some(cap), s, log)
  {
    assert [log][1..] == [];
  }

  lemma KeepsReasonFrom(cap: nat, s: State, log: Log, tail: seq<Log>)
    requires cap >= 1 && Valid(s) && log.ClaimRecorded? && Follows(s, [log] + tail)
    requires var c := Step(Some(cap), s, log).credits; IdOf(log) in c ==> c[IdOf(log)].why == None
    ensures var t := Step(Some(cap), s, log);
      var c, fit := Run(Some(cap), t, tail).credits, FirstFit(Key(log), log.account, log.amount, tail);
      && IdOf(log) in c
      && (c[IdOf(log)].why == Explain(fit) <==>
        fit.None? || Survives(Some(cap), t, tail, Key(log), log.account, log.amount))
  {
    assert ([log] + tail)[0] == log && ([log] + tail)[1..] == tail;
    assert Follows(s, [log]) by { assert [log][0] == log; }
    StepKeeps(Some(cap), s, log);
    StepFollows(Some(cap), s, [log] + tail);
    RecordParks(cap, s, log);
    BoundedFate(Some(cap), Step(Some(cap), s, log), tail, IdOf(log), log.account, log.amount);
    FitIsSome(Key(log), log.account, log.amount, tail);
  }

  lemma FitIsSome(key: string, account: string, amount: nat, logs: seq<Log>)
    ensures Explain(FirstFit(key, account, amount, logs)) == None <==> FirstFit(key, account, amount, logs).None?
  {
  }

  lemma RecordParks(cap: nat, s: State, log: Log)
    requires cap >= 1 && Valid(s) && log.ClaimRecorded? && IdOf(log) !in s.credits
    ensures var t := Step(Some(cap), s, log);
      IdOf(log) in t.credits &&
        (t.credits[IdOf(log)].why == None ==> Waiting(t, IdOf(log), log.account, log.amount, true))
  {
    TouchKeeps(Some(cap), s, Key(log));
  }

  lemma BoundedPrefix(cap: nat, a: seq<Log>, b: seq<Log>)
    requires cap >= 1 && WellFormed(a + b)
    ensures Valid(Run(Some(cap), Empty, a)) && Follows(Run(Some(cap), Empty, a), b)
  {
    assert WellFormed(a) by {
      forall i, j | 0 <= i < j < |a| && a[i].ClaimRecorded? && a[j].ClaimRecorded? ensures IdOf(a[i]) != IdOf(a[j]) {
        assert (a + b)[i] == a[i] && (a + b)[j] == a[j];
      }
    }
    RunKeeps(Some(cap), Empty, a);
    FollowsFrom(a, b, Run(Some(cap), Empty, a));
  }
}
