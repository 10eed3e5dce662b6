/** The bind-modes planner on a fresh stack: the exact plan, its cost, and the outcome of sending it. */
module FreshStack {
  import opened Common
  import opened BindModes

  /** Nothing bound and nothing registered, for any programs, rents and balances. */
  ghost predicate Fresh(c: Chain, rents: map<nat, nat>, rent: nat -> nat) {
    && Admission(c).None? && c.fp != c.asc && c.fpBinding == c.ascBinding == Absent
    && c.config.sources == [] && c.config.len == EncodedLen([])
    && Fetched(c, rents, rent)
  }

  function Fp(c: Chain): Source { Source(c.fp, FIXED_PRICE_PREFIX) }
  function Asc(c: Chain): Source { Source(c.asc, ASCENDING_PREFIX) }

  function BindAction(rent: nat -> nat, m: Mode): Action { Planned(Bind(m), 0, 41, rent(41)) }

  function FpAction(c: Chain, rent: nat -> nat): Action
    requires c.config.Config?
  {
    Planned(Register(FixedPrice), 233, 275, Max(0, rent(275) - c.config.lamports))
  }

  function AscAction(c: Chain, rent: nat -> nat): Action
    requires c.config.Config?
  {
    Planned(Register(Ascending), 275, 318, Max(0, rent(318) - Max(c.config.lamports, rent(275))))
  }

  function Four(c: Chain, rent: nat -> nat): seq<Action>
    requires c.config.Config?
  {
    [BindAction(rent, FixedPrice), BindAction(rent, Ascending), FpAction(c, rent), AscAction(c, rent)]
  }

  /** Two bindings, and what the config lacks for the larger of its two new sizes. */
  function Cost(c: Chain, rent: nat -> nat): nat
    requires c.config.Config?
  {
    2 * rent(41) + Max(0, Max(rent(275), rent(318)) - c.config.lamports)
  }

  lemma Lengths(c: Chain)
    ensures EncodedLen([]) == 233 && EncodedLen([Fp(c)]) == 275 && EncodedLen([Fp(c), Asc(c)]) == 318
  {
    assert [Fp(c), Asc(c)][..1] == [Fp(c)] && [Fp(c)][..0] == [];
    assert EntryBytes([Fp(c)]) == 42;
    assert EntryBytes([Fp(c), Asc(c)]) == 85;
  }

  lemma FourCost(c: Chain, rent: nat -> nat)
    requires c.config.Config?
    ensures TotalRent(Four(c, rent)) == Cost(c, rent)
  {
    var s := Four(c, rent);
    assert s[..3][..2] == s[..2] && s[..2][..1] == s[..1] && s[..1][..0] == [];
    assert TotalRent(s[..1]) == rent(41);
    assert TotalRent(s[..2]) == 2 * rent(41);
    assert TotalRent(s[..3]) == 2 * rent(41) + FpAction(c, rent).rentTopUp;
  }

  lemma RentsKnown(c: Chain, rents: map<nat, nat>, rent: nat -> nat)
    requires Fresh(c, rents, rent)
    ensures {41, 275, 318} <= rents.Keys && rents[41] == rent(41) && rents[275] == rent(275) && rents[318] == rent(318)
  {
    Lengths(c);
    assert [] + [Fp(c)] == [Fp(c)] && [Fp(c)] + [Asc(c)] == [Fp(c), Asc(c)];
    assert PrefetchLens(c) == {41, 233, 275, 318};
  }

  lemma Bindings(c: Chain, rents: map<nat, nat>, rent: nat -> nat)
    requires Fresh(c, rents, rent)
    ensures StepsTo(c, rents, 2) == Next(Work(Four(c, rent)[..2], [], 233, c.config.lamports))
  {
    RentsKnown(c, rents, rent);
    Lengths(c);
    assert StepsTo(c, rents, 0) == Next(Start(c));
    assert StepsTo(c, rents, 1) == Next(Work([BindAction(rent, FixedPrice)], [], 233, c.config.lamports));
  }

  lemma RegisterFp(c: Chain, rents: map<nat, nat>, rent: nat -> nat)
    requires Fresh(c, rents, rent)
    ensures StepsTo(c, rents, 3) == Next(Work(Four(c, rent)[..3], [Fp(c)], 275, Max(c.config.lamports, rent(275))))
  {
    Bindings(c, rents, rent);
    RentsKnown(c, rents, rent);
    Lengths(c);
    assert [] + [Fp(c)] == [Fp(c)];
    assert Four(c, rent)[..2] + [FpAction(c, rent)] == Four(c, rent)[..3];
    assert StepsTo(c, rents, 3) == RegisterStep(c, rents, StepsTo(c, rents, 2).work, FixedPrice);
  }

  lemma RegisterAsc(c: Chain, rents: map<nat, nat>, rent: nat -> nat) returns (w: Work)
    requires Fresh(c, rents, rent)
    ensures StepsTo(c, rents, STEPS) == Next(w) && w.actions == Four(c, rent)
  {
    RegisterFp(c, rents, rent);
    RentsKnown(c, rents, rent);
    Lengths(c);
    assert [Fp(c)] + [Asc(c)] == [Fp(c), Asc(c)];
    assert Four(c, rent)[..3] + [AscAction(c, rent)] == Four(c, rent);
    assert StepsTo(c, rents, 4) == RegisterStep(c, rents, StepsTo(c, rents, 3).work, Ascending);
    w := StepsTo(c, rents, 4).work;
  }

  /**
   A fresh stack is planned as four actions exactly when the payer has their cost, whatever the rents; sent,
   they take that cost from the payer and leave a chain that passes the readback.
   */
  lemma FreshStackIsBound(c: Chain, rents: map<nat, nat>, rent: nat -> nat)
    requires Fresh(c, rents, rent)
    ensures Plan(c, rents) ==
      if c.payer < Cost(c, rent) then Refused(PayerCannotCoverRent) else Ok(Four(c, rent), Cost(c, rent))
    ensures Cost(c, rent) <= c.payer ==>
      var d := Execute(c, rent, Four(c, rent));
      d.Some? && Readback(d.value) && d.value.payer == c.payer - Cost(c, rent)
  {
    var w := RegisterAsc(c, rents, rent);
    FourCost(c, rent);
    if Cost(c, rent) <= c.payer { FreshRun(c, rents, rent); }
  }

  lemma FreshRun(c: Chain, rents: map<nat, nat>, rent: nat -> nat)
    requires Fresh(c, rents, rent) && Plan(c, rents) == Ok(Four(c, rent), Cost(c, rent))
    ensures
      var d := Execute(c, rent, Four(c, rent));
      d.Some? && Readback(d.value) && d.value.payer == c.payer - Cost(c, rent)
  {
    var w := AcceptedPlanRuns(c, rents, rent);
    ReachedState(c, w);
    ReadbackIff(c, rents, rent, Reached(c, w, 4));
  }
}
