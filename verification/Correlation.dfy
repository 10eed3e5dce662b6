/**
 What correlateClaimReason (src/lib/ponder-commerce.ts) finds among the causes already logged: filter, stable
 sort by falling log index, first match.
 */
module Correlation {
  import opened Common
  import opened Attribution

  predicate Matches(c: Cause, account: string, amount: Option<nat>) {
    Lower(c.account) == Lower(account) && (amount.None? || c.amount == amount)
  }

  ghost predicate Falling(cs: seq<Cause>) {
    forall i, j :: 0 <= i < j < |cs| ==> cs[i].logIndex >= cs[j].logIndex
  }

  lemma {:induction false} InsertFalls(cs: seq<Cause>, c: Cause)
    requires Falling(cs)
    ensures Falling(InsertDesc(cs, c)) && multiset(InsertDesc(cs, c)) == multiset(cs) + multiset{c}
    decreases |cs|
  {
    if cs != [] {
      assert cs == [cs[0]] + cs[1..];
      if cs[0].logIndex >= c.logIndex {
        InsertFalls(cs[1..], c);
        HeadOnTop(cs[0], InsertDesc(cs[1..], c), cs[1..], c);
      }
    }
  }

  lemma HeadOnTop(head: Cause, tail: seq<Cause>, cs: seq<Cause>, c: Cause)
    requires Falling(tail) && multiset(tail) == multiset(cs) + multiset{c}
    requires head.logIndex >= c.logIndex && forall i :: 0 <= i < |cs| ==> head.logIndex >= cs[i].logIndex
    ensures Falling([head] + tail)
  {
    forall i | 0 <= i < |tail| ensures head.logIndex >= tail[i].logIndex {
      assert tail[i] in multiset(tail);
      assert tail[i] in cs || tail[i] == c;
    }
  }

  lemma {:induction false} PriorIsSorted(cs: seq<Cause>, before: int)
    ensures Falling(PriorDesc(cs, before))
    ensures forall c :: c in PriorDesc(cs, before) <==> c in cs && c.logIndex < before
    decreases |cs|
  {
    if cs != [] {
      var init, last := cs[..|cs| - 1], cs[|cs| - 1];
      PriorIsSorted(init, before);
      assert cs == init + [last];
      if last.logIndex < before {
        InsertFalls(PriorDesc(init, before), last);
        Holds(PriorDesc(init, before), last);
      }
    }
  }

  lemma Holds(cs: seq<Cause>, c: Cause)
    requires Falling(cs)
    ensures forall d :: d in InsertDesc(cs, c) <==> d in cs || d == c
  {
    InsertFalls(cs, c);
    forall d ensures d in InsertDesc(cs, c) <==> d in multiset(cs) + multiset{c} {
      assert d in InsertDesc(cs, c) <==> d in multiset(InsertDesc(cs, c));
    }
  }

  /** Find takes the first match of the list. */
  lemma {:induction false} FindIsFirst(cs: seq<Cause>, account: string, amount: Option<nat>) returns (n: nat)
    ensures match Find(cs, account, amount)
      case Some(c) => n < |cs| && cs[n] == c && Matches(c, account, amount) &&
        forall i :: 0 <= i < n ==> !Matches(cs[i], account, amount)
      case None => forall i :: 0 <= i < |cs| ==> !Matches(cs[i], account, amount)
    decreases |cs|
  {
    n := 0;
    if cs != [] && !Matches(cs[0], account, amount) {
      n := FindIsFirst(cs[1..], account, amount);
      n := n + 1;
      assert forall i :: 1 <= i < |cs| ==> cs[i] == cs[1..][i - 1];
    }
  }

  /** Causes of one log index, in the order they were built. */
  function Level(cs: seq<Cause>, at: int): seq<Cause> {
    if cs == [] then [] else Level(cs[..|cs| - 1], at) + if cs[|cs| - 1].logIndex == at then [cs[|cs| - 1]] else []
  }

  /** c is the newest earlier cause that matches, and among those of its log index the first built. */
  ghost predicate NewestEarlier(cs: seq<Cause>, before: int, account: string, amount: Option<nat>, c: Cause) {
    && c in cs && c.logIndex < before && Matches(c, account, amount)
    && (forall d :: d in cs && d.logIndex < before && Matches(d, account, amount) ==> d.logIndex <= c.logIndex)
    && Find(Level(cs, c.logIndex), account, amount) == Some(c)
  }

  lemma {:induction false} LevelAppend(a: seq<Cause>, b: seq<Cause>, at: int)
    ensures Level(a + b, at) == Level(a, at) + Level(b, at)
    decreases |b|
  {
    if b == [] {
      assert a + b == a;
    } else {
      assert (a + b)[..|a + b| - 1] == a + b[..|b| - 1];
      LevelAppend(a, b[..|b| - 1], at);
    }
  }

  lemma LevelCons(c: Cause, cs: seq<Cause>, at: int)
    ensures Level([c] + cs, at) == (if c.logIndex == at then [c] else []) + Level(cs, at)
  {
    LevelAppend([c], cs, at);
    assert [c][..0] == [];
  }

  lemma {:induction false} NoLevel(cs: seq<Cause>, at: int)
    requires forall i :: 0 <= i < |cs| ==> cs[i].logIndex != at
    ensures Level(cs, at) == []
    decreases |cs|
  {
    if cs != [] { NoLevel(cs[..|cs| - 1], at); }
  }

  /** Insertion is stable: a cause goes behind those of its own log index. */
  lemma {:induction false} InsertLevel(cs: seq<Cause>, c: Cause, at: int)
    requires Falling(cs)
    ensures Level(InsertDesc(cs, c), at) == Level(cs + [c], at)
    decreases |cs|
  {
    LevelAppend(cs, [c], at);
    LevelCons(c, [], at);
    assert [c] + [] == [c];
    if cs == [] || cs[0].logIndex < c.logIndex {
      LevelCons(c, cs, at);
      if c.logIndex == at { NoLevel(cs, at); }
    } else {
      var tail := cs[1..];
      InsertLevel(tail, c, at);
      LevelCons(cs[0], InsertDesc(tail, c), at);
      LevelCons(cs[0], tail + [c], at);
      assert [cs[0]] + (tail + [c]) == cs + [c];
    }
  }

  lemma {:induction false} LevelKept(cs: seq<Cause>, before: int, at: int)
    requires at < before
    ensures Level(PriorDesc(cs, before), at) == Level(cs, at)
    decreases |cs|
  {
    if cs != [] {
      var init, last := cs[..|cs| - 1], cs[|cs| - 1];
      LevelKept(init, before, at);
      PriorIsSorted(init, before);
      if last.logIndex < before {
        InsertLevel(PriorDesc(init, before), last, at);
        LevelAppend(PriorDesc(init, before), [last], at);
        LevelCons(last, [], at);
        assert [last] + [] == [last];
      }
    }
  }

  /** The first match of a list is the first match among those of its log index. */
  lemma {:induction false} FoundInLevel(cs: seq<Cause>, account: string, amount: Option<nat>)
    ensures var r := Find(cs, account, amount); r.Some? ==> Find(Level(cs, r.value.logIndex), account, amount) == r
    decreases |cs|
  {
    if cs != [] && Find(cs, account, amount).Some? {
      var at := Find(cs, account, amount).value.logIndex;
      assert cs == [cs[0]] + cs[1..];
      LevelCons(cs[0], cs[1..], at);
      if !Matches(cs[0], account, amount) {
        FoundInLevel(cs[1..], account, amount);
        if cs[0].logIndex == at {
          assert Level(cs, at)[1..] == Level(cs[1..], at);
        } else {
          assert Level(cs, at) == Level(cs[1..], at);
        }
      }
    }
  }

  ghost predicate NoneEarlier(cs: seq<Cause>, before: int, account: string, amount: Option<nat>) {
    forall d :: d in cs && d.logIndex < before ==> !Matches(d, account, amount)
  }

  lemma FindIsNewest(cs: seq<Cause>, before: int, account: string, amount: Option<nat>)
    ensures match Find(PriorDesc(cs, before), account, amount)
      case Some(c) => NewestEarlier(cs, before, account, amount, c)
      case None => NoneEarlier(cs, before, account, amount)
  {
    var prior := PriorDesc(cs, before);
    PriorIsSorted(cs, before);
    var n := FindIsFirst(prior, account, amount);
    FoundInLevel(prior, account, amount);
    var r := Find(prior, account, amount);
    if r.Some? { LevelKept(cs, before, r.value.logIndex); }
    forall d | d in cs && d.logIndex < before && Matches(d, account, amount)
      ensures Find(prior, account, amount).Some? && d.logIndex <= Find(prior, account, amount).value.logIndex
    {
      assert d in prior;
      var i :| 0 <= i < |prior| && prior[i] == d;
    }
  }

  /**
   A claim is explained by the newest earlier cause of its account and amount, else by the newest earlier
   one of its account, and by nothing exactly when its account has no earlier cause. Of the causes one event
   builds, which share a log index, the first built wins.
   */
  lemma CorrelateMeans(cs: seq<Cause>, account: string, amount: nat, logIndex: int)
    ensures var why := Correlate(cs, account, amount, logIndex);
      && (why.None? <==> NoneEarlier(cs, logIndex, account, None))
      && (why.Some? && !NoneEarlier(cs, logIndex, account, Some(amount)) ==>
            exists c :: NewestEarlier(cs, logIndex, account, Some(amount), c) && why == Explain(Some(c)))
      && (why.Some? && NoneEarlier(cs, logIndex, account, Some(amount)) ==>
            exists c :: NewestEarlier(cs, logIndex, account, None, c) && why == Explain(Some(c)))
  {
    FindIsNewest(cs, logIndex, account, Some(amount));
    FindIsNewest(cs, logIndex, account, None);
    var exact := Find(PriorDesc(cs, logIndex), account, Some(amount));
    if exact.Some? {
      var c := exact.value;
      assert NewestEarlier(cs, logIndex, account, Some(amount), c);
      assert Matches(c, account, None);
    }
  }
}
