/**
 The gated tallies of the commons hooks (hooks/use-commons-reviews.ts, hooks/use-commons-confirmations.ts):
 which attesters a claim lists, how often, and in which order.
 */
module Tallies {
  import opened Common

  // ---------------------------------------------------------------- string order

  /** Code unit order, as the default sort compares strings. */
  predicate Before(s: string, t: string)
    decreases |s|
  {
    t != "" && (s == "" || s[0] < t[0] || (s[0] == t[0] && Before(s[1..], t[1..])))
  }

  lemma {:induction false} Total(s: string, t: string)
    ensures !Before(s, t) && !Before(t, s) ==> s == t
    ensures !(Before(s, t) && Before(t, s))
    decreases |s|
  {
    if s != "" && t != "" && s[0] == t[0] {
      Total(s[1..], t[1..]);
      assert s == [s[0]] + s[1..] && t == [t[0]] + t[1..];
    }
  }

  lemma {:induction false} Transitive(s: string, t: string, u: string)
    requires !Before(t, s) && !Before(u, t)
    ensures !Before(u, s)
    decreases |s|
  {
    if u != "" && s != "" && t != "" && s[0] == t[0] == u[0] { Transitive(s[1..], t[1..], u[1..]); }
  }

  ghost predicate Sorted(xs: seq<string>) {
    forall i, j :: 0 <= i < j < |xs| ==> !Before(xs[j], xs[i])
  }

  function Insert(x: string, xs: seq<string>): seq<string> {
    if xs == [] || !Before(xs[0], x) then [x] + xs else [xs[0]] + Insert(x, xs[1..])
  }

  function Sort(xs: seq<string>): seq<string> {
    if xs == [] then [] else Insert(xs[0], Sort(xs[1..]))
  }

  lemma {:induction false} InsertSorts(x: string, xs: seq<string>)
    requires Sorted(xs)
    ensures Sorted(Insert(x, xs)) && multiset(Insert(x, xs)) == multiset{x} + multiset(xs)
    decreases |xs|
  {
    if xs != [] {
      assert xs == [xs[0]] + xs[1..];
      if Before(xs[0], x) {
        Total(xs[0], x);
        InsertSorts(x, xs[1..]);
        FirstIsLeast(xs[0], Insert(x, xs[1..]), x, xs[1..]);
      } else {
        forall j | 0 <= j < |xs| ensures !Before(xs[j], x) {
          if j > 0 { Transitive(x, xs[0], xs[j]); }
        }
      }
    }
  }

  /** y before x and before every element of xs is before every element of their mixture. */
  lemma FirstIsLeast(y: string, mixed: seq<string>, x: string, xs: seq<string>)
    requires Sorted(mixed) && multiset(mixed) == multiset{x} + multiset(xs)
    requires !Before(x, y) && forall i :: 0 <= i < |xs| ==> !Before(xs[i], y)
    ensures Sorted([y] + mixed)
  {
    forall i | 0 <= i < |mixed| ensures !Before(mixed[i], y) {
      assert mixed[i] in multiset(mixed);
      assert mixed[i] == x || mixed[i] in xs;
    }
  }

  lemma {:induction false} SortSorts(xs: seq<string>)
    ensures Sorted(Sort(xs)) && multiset(Sort(xs)) == multiset(xs)
    decreases |xs|
  {
    if xs != [] {
      SortSorts(xs[1..]);
      InsertSorts(xs[0], Sort(xs[1..]));
      assert xs == [xs[0]] + xs[1..];
    }
  }

  /** The first of a sorted list is the least of what it holds. */
  lemma SameFirst(xs: seq<string>, ys: seq<string>)
    requires Sorted(xs) && Sorted(ys) && multiset(xs) == multiset(ys) && xs != [] && ys != []
    ensures xs[0] == ys[0]
  {
    assert xs[0] in multiset(ys) && ys[0] in multiset(xs);
    var i :| 0 <= i < |ys| && ys[i] == xs[0];
    var j :| 0 <= j < |xs| && xs[j] == ys[0];
    Total(xs[0], ys[0]);
  }

  lemma TailHolds<T>(xs: seq<T>)
    requires xs != []
    ensures multiset(xs) == multiset{xs[0]} + multiset(xs[1..])
  {
    assert xs == [xs[0]] + xs[1..];
  }

  lemma Cancel<T>(x: T, a: multiset<T>, b: multiset<T>)
    requires multiset{x} + a == multiset{x} + b
    ensures a == b
  {
    assert a == (multiset{x} + a) - multiset{x} && b == (multiset{x} + b) - multiset{x};
  }

  lemma SameLength<T>(xs: seq<T>, ys: seq<T>)
    requires multiset(xs) == multiset(ys)
    ensures |xs| == |ys|
  {
    assert |multiset(xs)| == |xs| && |multiset(ys)| == |ys|;
  }

  /** A sorted list is fixed by what it holds. */
  lemma {:induction false} SortedIsUnique(xs: seq<string>, ys: seq<string>)
    requires Sorted(xs) && Sorted(ys) && multiset(xs) == multiset(ys)
    ensures xs == ys
    decreases |xs|
  {
    SameLength(xs, ys);
    if xs != [] {
      SameFirst(xs, ys);
      TailHolds(xs);
      TailHolds(ys);
      Cancel(xs[0], multiset(xs[1..]), multiset(ys[1..]));
      SortedIsUnique(xs[1..], ys[1..]);
      assert xs == [xs[0]] + xs[1..] && ys == [ys[0]] + ys[1..];
    }
  }

  // ---------------------------------------------------------------- gates

  datatype Entry = Entry(author: string, attester: string, claim: string, endorse: bool)

  /** Resolved gates: the attested pubkey of each address, and the addresses known to be active members. */
  datatype Gates = Gates(bound: map<string, string>, active: set<string>)

  /** Both gates, failing closed; an empty pubkey is no pubkey. */
  predicate Passes(g: Gates, e: Entry) {
    var a := Lower(e.attester);
    && a in g.bound && g.bound[a] != "" && g.bound[a] == e.author
    && a in g.active
  }

  predicate Counts(g: Gates, e: Entry, claim: string, endorse: bool) {
    Passes(g, e) && e.claim == claim && e.endorse == endorse
  }

  /** Attesters of the claim's passing entries of one verdict, in entry order. */
  function Collect(g: Gates, entries: seq<Entry>, claim: string, endorse: bool): seq<string> {
    if entries == [] then []
    else
      var e := entries[|entries| - 1];
      Collect(g, entries[..|entries| - 1], claim, endorse) + if Counts(g, e, claim, endorse) then [Lower(e.attester)]
        else []
  }

  predicate Mentioned(g: Gates, entries: seq<Entry>, claim: string) {
    exists i :: 0 <= i < |entries| && Passes(g, entries[i]) && entries[i].claim == claim
  }

  function Pubkeys(g: Gates, entries: seq<Entry>, claim: string): map<string, string> {
    if entries == [] then map[]
    else
      var e := entries[|entries| - 1];
      var before := Pubkeys(g, entries[..|entries| - 1], claim);
      if Counts(g, e, claim, true) then before[Lower(e.attester) := e.author] else before
  }

  // ---------------------------------------------------------------- reviews

  datatype Tally = Tally(endorsers: seq<string>, rejecters: seq<string>, pubkeys: map<string, string>)

  function Unsorted(g: Gates, entries: seq<Entry>, claim: string): Tally {
    Tally(Collect(g, entries, claim, true), Collect(g, entries, claim, false), Pubkeys(g, entries, claim))
  }

  function Final(g: Gates, entries: seq<Entry>, claim: string): Tally {
    Tally(Sort(Collect(g, entries, claim, true)), Sort(Collect(g, entries, claim, false)), Pubkeys(g, entries, claim))
  }

  /** The tally of every mentioned claim; with the pubkey gate unresolved there is none. */
  ghost predicate IsTally(g: Option<Gates>, entries: seq<Entry>, r: map<string, Tally>) {
    match g
    case None => r == map[]
    case Some(gates) => forall claim ::
      (claim in r <==> Mentioned(gates, entries, claim)) && (claim in r ==> r[claim] == Final(gates, entries, claim))
  }

  /** The unsorted tallies after i entries. */
  ghost predicate TalliedTo(g: Gates, entries: seq<Entry>, i: nat, r: map<string, Tally>)
    requires i <= |entries|
  {
    forall claim :: OneTalliedTo(g, entries, i, r, claim)
  }

  ghost predicate OneTalliedTo(g: Gates, entries: seq<Entry>, i: nat, r: map<string, Tally>, claim: string)
    requires i <= |entries|
  {
    (claim in r <==> Mentioned(g, entries[..i], claim)) && (claim in r ==> r[claim] == Unsorted(g, entries[..i], claim))
  }

  method VerifiedByClaim(g: Option<Gates>, entries: seq<Entry>) returns (r: map<string, Tally>)
    ensures IsTally(g, entries, r)
  {
    if g.None? { return map[]; }
    var gates := g.value;
    r := map[];
    for i := 0 to |entries|
      invariant TalliedTo(gates, entries, i, r)
    {
      r := AddEntry(gates, entries, i, r);
    }
    assert entries[..|entries|] == entries;
    ghost var unsorted := r;
    r := SortAll(r);
    forall claim
      ensures (claim in r <==> Mentioned(gates, entries, claim)) &&
      (claim in r ==> r[claim] == Final(gates, entries, claim)) {
      assert OneTalliedTo(gates, entries, |entries|, unsorted, claim);
    }
  }

  method AddEntry(gates: Gates, entries: seq<Entry>, i: nat, tallies: map<string, Tally>)
      returns (r: map<string, Tally>)
    requires i < |entries| && TalliedTo(gates, entries, i, tallies)
    ensures TalliedTo(gates, entries, i + 1, r)
  {
    r := tallies;
    var entry := entries[i];
    OneMore(gates, entries, i, entry.claim);
    assert OneTalliedTo(gates, entries, i, tallies, entry.claim);
    var attester := Lower(entry.attester);
    if attester in gates.bound && gates.bound[attester] != "" && gates.bound[attester] == entry.author &&
      attester in gates.active {
      var tally := if entry.claim in r then r[entry.claim] else Tally([], [], map[]);
      if entry.endorse {
        tally := tally.(endorsers := tally.endorsers + [attester], pubkeys := tally.pubkeys[attester := entry.author]);
      } else {
        tally := tally.(rejecters := tally.rejecters + [attester]);
      }
      r := r[entry.claim := tally];
    }
    assert OneTalliedTo(gates, entries, i + 1, r, entry.claim);
    ghost var n := i + 1;
    forall claim | claim != entry.claim ensures OneTalliedTo(gates, entries, n, r, claim) {
      OneMore(gates, entries, i, claim);
      assert OneTalliedTo(gates, entries, i, tallies, claim);
    }
  }

  method SortAll(tallies: map<string, Tally>) returns (r: map<string, Tally>)
    ensures r.Keys == tallies.Keys
    ensures forall c ::
      c in tallies ==> r[c] == Tally(Sort(tallies[c].endorsers), Sort(tallies[c].rejecters), tallies[c].pubkeys)
  {
    r := tallies;
    var rest := tallies.Keys;
    while rest != {}
      invariant rest <= tallies.Keys == r.Keys
      invariant forall c :: c in tallies ==>
        r[c] == if c in rest then tallies[c]
          else Tally(Sort(tallies[c].endorsers), Sort(tallies[c].rejecters), tallies[c].pubkeys)
      decreases |rest|
    {
      var c :| c in rest;
      r := r[c := r[c].(endorsers := Sort(r[c].endorsers), rejecters := Sort(r[c].rejecters))];
      rest := rest - {c};
    }
  }

  /** One more entry: it changes the tally of its own claim, if it passes. */
  lemma OneMore(g: Gates, entries: seq<Entry>, i: nat, claim: string)
    requires i < |entries|
    ensures var e, before, after := entries[i], Unsorted(g, entries[..i], claim), Unsorted(g, entries[..i + 1], claim);
      && (Mentioned(g, entries[..i + 1], claim) <==>
        Mentioned(g, entries[..i], claim) || (Passes(g, e) && e.claim == claim))
      && (!(Passes(g, e) && e.claim == claim) ==> after == before)
      && (Passes(g, e) && e.claim == claim && e.endorse ==>
            after ==
              Tally(before.endorsers +
              [Lower(e.attester)], before.rejecters, before.pubkeys[Lower(e.attester) := e.author]))
      && (Passes(g, e) && e.claim == claim && !e.endorse ==>
        after == before.(rejecters := before.rejecters + [Lower(e.attester)]))
    ensures !Mentioned(g, entries[..i], claim) ==> Unsorted(g, entries[..i], claim) == Tally([], [], map[])
  {
    assert entries[..i + 1][..i] == entries[..i];
    if Passes(g, entries[i]) && entries[i].claim == claim { assert entries[..i + 1][i] == entries[i]; }
    if j :| 0 <= j < i && Passes(g, entries[..i][j]) && entries[..i][j].claim == claim {
      assert entries[..i + 1][j] == entries[..i][j];
    }
    if !Mentioned(g, entries[..i], claim) { Unmentioned(g, entries[..i], claim); }
  }

  lemma {:induction false} Unmentioned(g: Gates, entries: seq<Entry>, claim: string)
    requires !Mentioned(g, entries, claim)
    ensures Unsorted(g, entries, claim) == Tally([], [], map[])
    decreases |entries|
  {
    if entries != [] {
      var l := |entries| - 1;
      assert !(Passes(g, entries[l]) && entries[l].claim == claim);
      assert forall i :: 0 <= i < l ==> entries[..l][i] == entries[i];
      Unmentioned(g, entries[..l], claim);
    }
  }

  /** Entries that count for the attester. */
  function CountFor(g: Gates, entries: seq<Entry>, claim: string, endorse: bool, attester: string): nat {
    if entries == [] then 0
    else
      var e := entries[|entries| - 1];
      CountFor(g, entries[..|entries| - 1], claim, endorse, attester) +
      if Counts(g, e, claim, endorse) && Lower(e.attester) == attester then 1 else 0
  }

  lemma {:induction false} CollectCounts(g: Gates, entries: seq<Entry>, claim: string, endorse: bool, attester: string)
    ensures multiset(Collect(g, entries, claim, endorse))[attester] == CountFor(g, entries, claim, endorse, attester)
    decreases |entries|
  {
    if entries != [] { CollectCounts(g, entries[..|entries| - 1], claim, endorse, attester); }
  }

  /** An attester is listed as often as they have passing entries of that verdict on the claim. */
  lemma ListedAsOftenAsCounted(g: Gates, entries: seq<Entry>, claim: string, attester: string)
    ensures multiset(Final(g, entries, claim).endorsers)[attester] == CountFor(g, entries, claim, true, attester)
    ensures multiset(Final(g, entries, claim).rejecters)[attester] == CountFor(g, entries, claim, false, attester)
  {
    SortSorts(Collect(g, entries, claim, true));
    SortSorts(Collect(g, entries, claim, false));
    CollectCounts(g, entries, claim, true, attester);
    CollectCounts(g, entries, claim, false, attester);
  }

  lemma {:induction false} CountedIff(g: Gates, entries: seq<Entry>, claim: string, endorse: bool, attester: string)
    ensures CountFor(g, entries, claim, endorse, attester) > 0 <==>
      exists i :: 0 <= i < |entries| && Counts(g, entries[i], claim, endorse) && Lower(entries[i].attester) == attester
    decreases |entries|
  {
    if entries != [] {
      var l := |entries| - 1;
      CountedIff(g, entries[..l], claim, endorse, attester);
      if i :| 0 <= i < l && Counts(g, entries[..l][i], claim, endorse) && Lower(entries[..l][i].attester) == attester {
        assert entries[i] == entries[..l][i];
      }
      if i :| 0 <= i < l && Counts(g, entries[i], claim, endorse) && Lower(entries[i].attester) == attester {
        assert entries[i] == entries[..l][i];
      }
    }
  }

  /** Listed exactly when an entry of that verdict passes both gates. */
  lemma ListedIff(g: Gates, entries: seq<Entry>, claim: string, attester: string)
    ensures attester in Final(g, entries, claim).endorsers <==>
      exists i :: 0 <= i < |entries| && Counts(g, entries[i], claim, true) && Lower(entries[i].attester) == attester
    ensures attester in Final(g, entries, claim).rejecters <==>
      exists i :: 0 <= i < |entries| && Counts(g, entries[i], claim, false) && Lower(entries[i].attester) == attester
  {
    ListedAsOftenAsCounted(g, entries, claim, attester);
    CountedIff(g, entries, claim, true, attester);
    CountedIff(g, entries, claim, false, attester);
    var t := Final(g, entries, claim);
    assert attester in t.endorsers <==> multiset(t.endorsers)[attester] > 0;
    assert attester in t.rejecters <==> multiset(t.rejecters)[attester] > 0;
  }

  /** What the subscription delivers: the latest entry per author and claim. */
  ghost predicate LatestOnly(entries: seq<Entry>) {
    forall i, j ::
      0 <= i < j < |entries| ==> !(entries[i].author == entries[j].author && entries[i].claim == entries[j].claim)
  }

  /** The bound pubkey is a function of the attester, so they appear at most once, on one side only. */
  lemma {:induction false} AtMostOnce(g: Gates, entries: seq<Entry>, claim: string, attester: string)
    requires LatestOnly(entries)
    ensures CountFor(g, entries, claim, true, attester) + CountFor(g, entries, claim, false, attester) <= 1
    decreases |entries|
  {
    if entries != [] {
      var l := |entries| - 1;
      var init, e := entries[..l], entries[l];
      AtMostOnce(g, init, claim, attester);
      if Passes(g, e) && e.claim == claim && Lower(e.attester) == attester {
        CountedIff(g, init, claim, true, attester);
        CountedIff(g, init, claim, false, attester);
        forall i | 0 <= i < l
          ensures !(Passes(g, init[i]) && init[i].claim == claim && Lower(init[i].attester) == attester)
        {
          assert init[i] == entries[i];
        }
      }
    }
  }

  /** The listed tallies then hold every attester at most once, endorsers and rejecters together. */
  lemma ListedOnce(g: Gates, entries: seq<Entry>, claim: string, attester: string)
    requires LatestOnly(entries)
    ensures var t := Final(g, entries, claim); multiset(t.endorsers + t.rejecters)[attester] <= 1
  {
    ListedAsOftenAsCounted(g, entries, claim, attester);
    AtMostOnce(g, entries, claim, attester);
    var t := Final(g, entries, claim);
    assert multiset(t.endorsers + t.rejecters) == multiset(t.endorsers) + multiset(t.rejecters);
  }

  /** The pubkeys recorded are those of the endorsers, each the bound one. */
  lemma {:induction false} PubkeysAreBound(g: Gates, entries: seq<Entry>, claim: string, attester: string)
    ensures attester in Pubkeys(g, entries, claim) <==> CountFor(g, entries, claim, true, attester) > 0
    ensures attester in Pubkeys(g, entries, claim) ==>
      attester in g.bound && Pubkeys(g, entries, claim)[attester] == g.bound[attester]
    decreases |entries|
  {
    if entries != [] { PubkeysAreBound(g, entries[..|entries| - 1], claim, attester); }
  }

  lemma {:induction false} CountAppend(g: Gates, a: seq<Entry>, b: seq<Entry>, claim: string, endorse: bool,
      attester: string)
    ensures CountFor(g, a + b, claim, endorse, attester) ==
      CountFor(g, a, claim, endorse, attester) + CountFor(g, b, claim, endorse, attester)
    decreases |b|
  {
    if b == [] {
      assert a + b == a;
    } else {
      var c := b[..|b| - 1];
      CountAppend(g, a, c, claim, endorse, attester);
      assert (a + b)[..|a + b| - 1] == a + c;
    }
  }

  lemma CountMoves(g: Gates, a: seq<Entry>, e: Entry, b: seq<Entry>, claim: string, endorse: bool, attester: string)
    ensures CountFor(g, a + [e] + b, claim, endorse, attester) ==
      CountFor(g, a + b, claim, endorse, attester) + CountFor(g, [e], claim, endorse, attester)
  {
    CountAppend(g, a + [e], b, claim, endorse, attester);
    CountAppend(g, a, [e], claim, endorse, attester);
    CountAppend(g, a, b, claim, endorse, attester);
  }

  /** One occurrence of the last entry of xs taken out of ys. */
  lemma TakeLastOut<T>(xs: seq<T>, ys: seq<T>) returns (i: nat)
    requires xs != [] && multiset(xs) == multiset(ys)
    ensures i < |ys| && ys == ys[..i] + [xs[|xs| - 1]] + ys[i + 1..]
    ensures multiset(xs[..|xs| - 1]) == multiset(ys[..i] + ys[i + 1..])
  {
    var l := |xs| - 1;
    var e := xs[l];
    assert xs == xs[..l] + [e];
    assert e in multiset(ys);
    i :| 0 <= i < |ys| && ys[i] == e;
    assert ys == ys[..i] + [e] + ys[i + 1..];
    assert multiset(ys[..i] + ys[i + 1..]) == multiset(ys[..i]) + multiset(ys[i + 1..]);
    assert multiset(xs) == multiset{e} + multiset(xs[..l]);
    assert multiset(ys) == multiset{e} + (multiset(ys[..i]) + multiset(ys[i + 1..])) by {
      assert multiset(ys) == multiset(ys[..i] + [e]) + multiset(ys[i + 1..]);
    }
    Cancel(e, multiset(xs[..l]), multiset(ys[..i]) + multiset(ys[i + 1..]));
  }

  /** The count depends on which entries there are, not on their order. */
  lemma {:induction false} CountIgnoresOrder(g: Gates, xs: seq<Entry>, ys: seq<Entry>, claim: string, endorse: bool,
      attester: string)
    requires multiset(xs) == multiset(ys)
    ensures CountFor(g, xs, claim, endorse, attester) == CountFor(g, ys, claim, endorse, attester)
    decreases |xs|
  {
    SameLength(xs, ys);
    if xs != [] {
      var i := TakeLastOut(xs, ys);
      CountIgnoresOrder(g, xs[..|xs| - 1], ys[..i] + ys[i + 1..], claim, endorse, attester);
      CountAppend(g, xs[..|xs| - 1], [xs[|xs| - 1]], claim, endorse, attester);
      assert xs == xs[..|xs| - 1] + [xs[|xs| - 1]];
      CountMoves(g, ys[..i], xs[|xs| - 1], ys[i + 1..], claim, endorse, attester);
    }
  }

  lemma SortedSidesEqual(g: Gates, xs: seq<Entry>, ys: seq<Entry>, claim: string, endorse: bool)
    requires multiset(xs) == multiset(ys)
    ensures Sort(Collect(g, xs, claim, endorse)) == Sort(Collect(g, ys, claim, endorse))
  {
    var a, b := Collect(g, xs, claim, endorse), Collect(g, ys, claim, endorse);
    forall attester ensures multiset(a)[attester] == multiset(b)[attester] {
      CollectCounts(g, xs, claim, endorse, attester);
      CollectCounts(g, ys, claim, endorse, attester);
      CountIgnoresOrder(g, xs, ys, claim, endorse, attester);
    }
    assert multiset(a) == multiset(b);
    SortSorts(a);
    SortSorts(b);
    SortedIsUnique(Sort(a), Sort(b));
  }

  /** The tally of a claim does not depend on the order of the entries. */
  lemma OrderDoesNotMatter(g: Gates, xs: seq<Entry>, ys: seq<Entry>, claim: string)
    requires multiset(xs) == multiset(ys)
    ensures Final(g, xs, claim) == Final(g, ys, claim)
    ensures Mentioned(g, xs, claim) <==> Mentioned(g, ys, claim)
  {
    SortedSidesEqual(g, xs, ys, claim, true);
    SortedSidesEqual(g, xs, ys, claim, false);
    forall a ensures a in Pubkeys(g, xs, claim) <==> a in Pubkeys(g, ys, claim)
      ensures a in Pubkeys(g, xs, claim) ==> Pubkeys(g, xs, claim)[a] == Pubkeys(g, ys, claim)[a]
    {
      PubkeysAreBound(g, xs, claim, a);
      PubkeysAreBound(g, ys, claim, a);
      CountIgnoresOrder(g, xs, ys, claim, true, a);
    }
    assert Pubkeys(g, xs, claim) == Pubkeys(g, ys, claim);
    if Mentioned(g, xs, claim) { MentionedMoves(g, xs, ys, claim); }
    if Mentioned(g, ys, claim) { MentionedMoves(g, ys, xs, claim); }
  }

  lemma MentionedMoves(g: Gates, xs: seq<Entry>, ys: seq<Entry>, claim: string)
    requires multiset(xs) == multiset(ys) && Mentioned(g, xs, claim)
    ensures Mentioned(g, ys, claim)
  {
    var i :| 0 <= i < |xs| && Passes(g, xs[i]) && xs[i].claim == claim;
    assert xs[i] in multiset(ys);
    var j :| 0 <= j < |ys| && ys[j] == xs[i];
  }

  // ---------------------------------------------------------------- confirmations

  /** Attesters of the manifest's passing entries, each taken the first time only; the verdict plays no part. */
  function Confirmed(g: Gates, entries: seq<Entry>, manifest: string): seq<string> {
    if entries == [] then []
    else
      var e := entries[|entries| - 1];
      var before := Confirmed(g, entries[..|entries| - 1], manifest);
      if Passes(g, e) && e.claim == manifest && Lower(e.attester) !in before then before + [Lower(e.attester)]
        else before
  }

  ghost predicate IsConfirmations(g: Option<Gates>, entries: seq<Entry>, r: map<string, seq<string>>) {
    match g
    case None => r == map[]
    case Some(gates) => forall m ::
      (m in r <==> Mentioned(gates, entries, m)) && (m in r ==> r[m] == Sort(Confirmed(gates, entries, m)))
  }

  ghost predicate ConfirmedTo(g: Gates, entries: seq<Entry>, i: nat, r: map<string, seq<string>>)
    requires i <= |entries|
  {
    forall m :: OneConfirmedTo(g, entries, i, r, m)
  }

  ghost predicate OneConfirmedTo(g: Gates, entries: seq<Entry>, i: nat, r: map<string, seq<string>>, m: string)
    requires i <= |entries|
  {
    (m in r <==> Mentioned(g, entries[..i], m)) && (m in r ==> r[m] == Confirmed(g, entries[..i], m))
  }

  method ConfirmationsByManifest(g: Option<Gates>, entries: seq<Entry>) returns (r: map<string, seq<string>>)
    ensures IsConfirmations(g, entries, r)
  {
    if g.None? { return map[]; }
    var gates := g.value;
    r := map[];
    for i := 0 to |entries|
      invariant ConfirmedTo(gates, entries, i, r)
    {
      r := AddConfirmation(gates, entries, i, r);
    }
    assert entries[..|entries|] == entries;
    ghost var unsorted := r;
    r := SortLists(r);
    forall m
      ensures (m in r <==> Mentioned(gates, entries, m)) && (m in r ==> r[m] == Sort(Confirmed(gates, entries, m)))
    {
      assert OneConfirmedTo(gates, entries, |entries|, unsorted, m);
    }
  }

  /** The lists with one more entry seen. */
  function WithConfirmation(g: Gates, entry: Entry, lists: map<string, seq<string>>): map<string, seq<string>> {
    var list := if entry.claim in lists then lists[entry.claim] else [];
    if !Passes(g, entry) then lists
    else lists[entry.claim := if Lower(entry.attester) in list then list else list + [Lower(entry.attester)]]
  }

  lemma ConfirmationAdded(g: Gates, entries: seq<Entry>, i: nat, lists: map<string, seq<string>>, m: string)
    requires i < |entries| && OneConfirmedTo(g, entries, i, lists, m)
    ensures OneConfirmedTo(g, entries, i + 1, WithConfirmation(g, entries[i], lists), m)
  {
    OneMoreConfirmed(g, entries, i, m);
  }

  method AddConfirmation(gates: Gates, entries: seq<Entry>, i: nat, lists: map<string, seq<string>>)
    returns (r: map<string, seq<string>>)
    requires i < |entries| && ConfirmedTo(gates, entries, i, lists)
    ensures ConfirmedTo(gates, entries, i + 1, r)
  {
    r := AddOne(gates, entries[i], lists);
    ghost var n := i + 1;
    forall m ensures OneConfirmedTo(gates, entries, n, r, m) {
      assert OneConfirmedTo(gates, entries, i, lists, m);
      ConfirmationAdded(gates, entries, i, lists, m);
    }
  }

  method AddOne(gates: Gates, entry: Entry, lists: map<string, seq<string>>) returns (r: map<string, seq<string>>)
    ensures r == WithConfirmation(gates, entry, lists)
  {
    r := lists;
    var attester := Lower(entry.attester);
    if attester in gates.bound && gates.bound[attester] != "" && gates.bound[attester] == entry.author
      && attester in gates.active
    {
      var list := if entry.claim in r then r[entry.claim] else [];
      if attester !in list { list := list + [attester]; }
      r := r[entry.claim := list];
    }
  }

  method SortLists(lists: map<string, seq<string>>) returns (r: map<string, seq<string>>)
    ensures r.Keys == lists.Keys && forall m :: m in lists ==> r[m] == Sort(lists[m])
  {
    r := lists;
    var rest := lists.Keys;
    while rest != {}
      invariant rest <= lists.Keys == r.Keys
      invariant forall m :: m in lists ==> r[m] == if m in rest then lists[m] else Sort(lists[m])
      decreases |rest|
    {
      var m :| m in rest;
      r := r[m := Sort(r[m])];
      rest := rest - {m};
    }
  }

  lemma OneMoreConfirmed(g: Gates, entries: seq<Entry>, i: nat, m: string)
    requires i < |entries|
    ensures var e, before, after := entries[i], Confirmed(g, entries[..i], m), Confirmed(g, entries[..i + 1], m);
      && (Mentioned(g, entries[..i + 1], m) <==> Mentioned(g, entries[..i], m) || (Passes(g, e) && e.claim == m))
      && after ==
        if Passes(g, e) && e.claim == m && Lower(e.attester) !in before then before + [Lower(e.attester)] else before
    ensures !Mentioned(g, entries[..i], m) ==> Confirmed(g, entries[..i], m) == []
  {
    assert entries[..i + 1][..i] == entries[..i];
    OneMore(g, entries, i, m);
    if !Mentioned(g, entries[..i], m) { NoneConfirmed(g, entries[..i], m); }
  }

  lemma {:induction false} NoneConfirmed(g: Gates, entries: seq<Entry>, m: string)
    requires !Mentioned(g, entries, m)
    ensures Confirmed(g, entries, m) == []
    decreases |entries|
  {
    if entries != [] {
      var l := |entries| - 1;
      assert !(Passes(g, entries[l]) && entries[l].claim == m);
      assert forall i :: 0 <= i < l ==> entries[..l][i] == entries[i];
      NoneConfirmed(g, entries[..l], m);
    }
  }

  /** Confirmers are listed once each, exactly those with a passing entry, whatever the subscription repeats. */
  lemma {:induction false} ConfirmedIff(g: Gates, entries: seq<Entry>, m: string, attester: string)
    ensures multiset(Confirmed(g, entries, m))[attester] ==
      if CountFor(g, entries, m, true, attester) + CountFor(g, entries, m, false, attester) > 0 then 1 else 0
    decreases |entries|
  {
    if entries != [] {
      var before := Confirmed(g, entries[..|entries| - 1], m);
      ConfirmedIff(g, entries[..|entries| - 1], m, attester);
      assert attester in before <==> multiset(before)[attester] > 0;
    }
  }

  /** So the sorted list depends only on which entries there are, not on their order nor on repeats. */
  lemma ConfirmationsIgnoreOrderAndRepeats(g: Gates, xs: seq<Entry>, ys: seq<Entry>, m: string)
    requires forall e :: e in xs <==> e in ys
    ensures Sort(Confirmed(g, xs, m)) == Sort(Confirmed(g, ys, m))
  {
    var a, b := Confirmed(g, xs, m), Confirmed(g, ys, m);
    forall attester ensures multiset(a)[attester] == multiset(b)[attester] {
      ConfirmedIff(g, xs, m, attester);
      ConfirmedIff(g, ys, m, attester);
      SameCounted(g, xs, ys, m, true, attester);
      SameCounted(g, xs, ys, m, false, attester);
    }
    assert multiset(a) == multiset(b);
    SortSorts(a);
    SortSorts(b);
    SortedIsUnique(Sort(a), Sort(b));
  }

  lemma SameCounted(g: Gates, xs: seq<Entry>, ys: seq<Entry>, claim: string, endorse: bool, attester: string)
    requires forall e :: e in xs <==> e in ys
    ensures CountFor(g, xs, claim, endorse, attester) > 0 <==> CountFor(g, ys, claim, endorse, attester) > 0
  {
    CountedIff(g, xs, claim, endorse, attester);
    CountedIff(g, ys, claim, endorse, attester);
    if CountFor(g, xs, claim, endorse, attester) > 0 { CountedThere(g, xs, ys, claim, endorse, attester); }
    if CountFor(g, ys, claim, endorse, attester) > 0 { CountedThere(g, ys, xs, claim, endorse, attester); }
  }

  lemma CountedThere(g: Gates, xs: seq<Entry>, ys: seq<Entry>, claim: string, endorse: bool, attester: string)
    requires (forall e :: e in xs ==> e in ys) && CountFor(g, xs, claim, endorse, attester) > 0
    ensures CountFor(g, ys, claim, endorse, attester) > 0
  {
    CountedIff(g, xs, claim, endorse, attester);
    var i :| 0 <= i < |xs| && Counts(g, xs[i], claim, endorse) && Lower(xs[i].attester) == attester;
    assert xs[i] in xs;
    var j :| 0 <= j < |ys| && ys[j] == xs[i];
    CountedIff(g, ys, claim, endorse, attester);
  }
}
