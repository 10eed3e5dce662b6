/**
 Who the commons tallies list (hooks/use-commons-reviews.ts, hooks/use-commons-confirmations.ts), read off the maps
 they return and the two gates: the bound pubkey and the active members.
 */
module TallyMeaning {
  import opened Common
  import opened Tallies

  /** The entry is of this attester, signed by the pubkey bound to the address, and the attester is active. */
  ghost predicate Admitted(g: Gates, e: Entry, attester: string) {
    && Lower(e.attester) == attester
    && attester in g.bound && g.bound[attester] == e.author && e.author != ""
    && attester in g.active
  }

  ghost predicate SomeAdmitted(g: Gates, entries: seq<Entry>, claim: string, attester: string) {
    exists e :: e in entries && e.claim == claim && Admitted(g, e, attester)
  }

  ghost predicate SomeVerdict(g: Gates, entries: seq<Entry>, claim: string, endorse: bool, attester: string) {
    exists e :: e in entries && e.claim == claim && e.endorse == endorse && Admitted(g, e, attester)
  }

  lemma VerdictsCount(g: Gates, entries: seq<Entry>, claim: string, endorse: bool, attester: string)
    ensures CountFor(g, entries, claim, endorse, attester) > 0 <==> SomeVerdict(g, entries, claim, endorse, attester)
  {
    CountedIff(g, entries, claim, endorse, attester);
    if SomeVerdict(g, entries, claim, endorse, attester) {
      var e :| e in entries && e.claim == claim && e.endorse == endorse && Admitted(g, e, attester);
      var i :| 0 <= i < |entries| && entries[i] == e;
      assert Counts(g, entries[i], claim, endorse);
    }
    if CountFor(g, entries, claim, endorse, attester) > 0 {
      var i :| 0 <= i < |entries| && Counts(g, entries[i], claim, endorse) && Lower(entries[i].attester) == attester;
      assert entries[i] in entries && Admitted(g, entries[i], attester);
    }
  }

  lemma MentionedMeans(g: Gates, entries: seq<Entry>, claim: string)
    ensures Mentioned(g, entries, claim) <==> exists attester :: SomeAdmitted(g, entries, claim, attester)
  {
    if Mentioned(g, entries, claim) {
      var i :| 0 <= i < |entries| && Passes(g, entries[i]) && entries[i].claim == claim;
      assert entries[i] in entries && Admitted(g, entries[i], Lower(entries[i].attester));
      assert SomeAdmitted(g, entries, claim, Lower(entries[i].attester));
    }
    if attester :| SomeAdmitted(g, entries, claim, attester) {
      var e :| e in entries && e.claim == claim && Admitted(g, e, attester);
      var i :| 0 <= i < |entries| && entries[i] == e;
      assert Passes(g, entries[i]);
    }
  }

  /**
   The tallies returned: a claim has one exactly when some attester is admitted for it; whoever is listed on a side is
   admitted with that verdict, and the other way round; the lists are sorted, and the pubkeys are those of the
   endorsers, each the bound one.
   */
  lemma TalliesMean(g: Gates, entries: seq<Entry>, r: map<string, Tally>, claim: string, attester: string)
    requires IsTally(Some(g), entries, r)
    ensures claim in r <==> exists someone :: SomeAdmitted(g, entries, claim, someone)
    ensures claim in r ==>
      && (attester in r[claim].endorsers <==> SomeVerdict(g, entries, claim, true, attester))
      && (attester in r[claim].rejecters <==> SomeVerdict(g, entries, claim, false, attester))
      && Sorted(r[claim].endorsers) && Sorted(r[claim].rejecters)
      && (attester in r[claim].pubkeys <==> attester in r[claim].endorsers)
      && (attester in r[claim].pubkeys ==> attester in g.bound && r[claim].pubkeys[attester] == g.bound[attester])
  {
    MentionedMeans(g, entries, claim);
    if claim in r {
      ListedIff(g, entries, claim, attester);
      CountedIff(g, entries, claim, true, attester);
      CountedIff(g, entries, claim, false, attester);
      VerdictsCount(g, entries, claim, true, attester);
      VerdictsCount(g, entries, claim, false, attester);
      PubkeysAreBound(g, entries, claim, attester);
      SortSorts(Collect(g, entries, claim, true));
      SortSorts(Collect(g, entries, claim, false));
    }
  }

  /** The confirmations returned: likewise, whatever the verdict, each attester once. */
  lemma ConfirmationsMean(g: Gates, entries: seq<Entry>, r: map<string, seq<string>>, m: string, attester: string)
    requires IsConfirmations(Some(g), entries, r)
    ensures m in r <==> exists someone :: SomeAdmitted(g, entries, m, someone)
    ensures m in r ==>
      && Sorted(r[m])
      && multiset(r[m])[attester] == if SomeAdmitted(g, entries, m, attester) then 1 else 0
  {
    MentionedMeans(g, entries, m);
    if m in r {
      ConfirmedIff(g, entries, m, attester);
      VerdictsCount(g, entries, m, true, attester);
      VerdictsCount(g, entries, m, false, attester);
      SomeEither(g, entries, m, attester);
      SortSorts(Confirmed(g, entries, m));
    }
  }

  lemma SomeEither(g: Gates, entries: seq<Entry>, m: string, attester: string)
    ensures SomeAdmitted(g, entries, m, attester) <==>
      SomeVerdict(g, entries, m, true, attester) || SomeVerdict(g, entries, m, false, attester)
  {
    if SomeAdmitted(g, entries, m, attester) {
      var e :| e in entries && e.claim == m && Admitted(g, e, attester);
      assert SomeVerdict(g, entries, m, e.endorse, attester);
    }
  }
}
