/**
 The bind-modes planner (scripts/svm-devnet-bind-modes.ts): four steps that bind the two sale modes to the
 passport program and register them as encumbrance sources. The planner works out sizes and rent from a
 snapshot; the programs then do the work. Plan, execution, second plan and readback are put side by side.
 */
module BindModes {
  import opened Common

  const FIXED_PRICE_PREFIX := "fp-ans"
  const ASCENDING_PREFIX := "asc-ans"
  const MAX_SEED_PREFIX_LEN := 32
  const PASSPORT_BINDING_SPACE := 41
  const MAX_ENCUMBRANCE_SOURCES := 8
  const MAX_CONFIG_GROWTH := 10240

  datatype Source = Source(program: string, prefix: string)

  datatype Config = Config(authority: string, sources: seq<Source>, len: nat, lamports: nat) | ConfigWrongTag
      | ConfigMalformed
  datatype ModeConfig = ModeConfig(authority: string) | ModeWrongTag | ModeMalformed

  /**
   Funded: the account holds lamports and no data. Unreadable: it holds data that does not decode. The planner
   takes both for absent.
   */
  datatype Binding = Absent | Funded | Unreadable | Bound(passport: string)
  {
    /** Neither bound, nor an account that can still be created. */
    predicate Stuck() { Funded? || Unreadable? }
  }

  datatype Mode = FixedPrice | Ascending

  /** What the planner is given and the programs change. */
  datatype Chain = Chain(passport: string, fp: string, asc: string, authority: string, config: Config,
                         fpConfig: ModeConfig, ascConfig: ModeConfig, fpBinding: Binding, ascBinding: Binding,
                         payer: nat)
  {
    function Id(m: Mode): string { if m.FixedPrice? then fp else asc }
    function BindingOf(m: Mode): Binding { if m.FixedPrice? then fpBinding else ascBinding }
    function ModeConfigOf(m: Mode): ModeConfig { if m.FixedPrice? then fpConfig else ascConfig }
  }

  function PrefixOf(m: Mode): string { if m.FixedPrice? then FIXED_PRICE_PREFIX else ASCENDING_PREFIX }

  datatype Kind = Bind(mode: Mode) | Register(mode: Mode)
  datatype Action = AlreadyDone(kind: Kind) | Planned(kind: Kind, sizeBefore: nat, sizeAfter: nat, rentTopUp: nat)

  datatype Cause =
    | AuthorityMismatch | PayerCannotCoverRent | BindingForeignProgram | SourcePrefixMismatch | ConfigCannotGrow
    | ConfigDiscriminatorMismatch | ModeConfigNotFound | ModeConfigDiscriminatorMismatch

  datatype Result = Ok(actions: seq<Action>, total: nat) | Refused(cause: Cause) | RentCacheMiss(len: nat)

  /** Bytes of the encoded registry entries. */
  function EntryBytes(sources: seq<Source>): nat {
    if sources == [] then 0
    else EntryBytes(sources[..|sources| - 1]) + 36 + |sources[|sources| - 1].prefix|
  }

  /** Bytes of the encoded passport config. */
  function EncodedLen(sources: seq<Source>): nat {
    233 + EntryBytes(sources)
  }

  /** First entry of the program, or the number of entries. */
  function FindSource(sources: seq<Source>, program: string): (i: nat)
    ensures i <= |sources|
    ensures i < |sources| ==> sources[i].program == program
    ensures forall j :: 0 <= j < i ==> sources[j].program != program
  {
    if sources == [] || sources[0].program == program then 0
    else
      var i := FindSource(sources[1..], program);
      assert forall j :: 1 <= j < i + 1 ==> sources[j] == sources[1..][j - 1];
      i + 1
  }

  predicate Registered(sources: seq<Source>, program: string) {
    FindSource(sources, program) < |sources|
  }

  function TotalRent(actions: seq<Action>): nat {
    if actions == [] then 0
    else
      var a := actions[|actions| - 1];
      TotalRent(actions[..|actions| - 1]) + if a.Planned? then a.rentTopUp else 0
  }

  // ---------------------------------------------------------------- planner

  /** Running values of the plan: what the registry will hold once the actions so far are sent. */
  datatype Work = Work(actions: seq<Action>, sources: seq<Source>, len: nat, lamports: nat)
  datatype Step = Next(work: Work) | Stop(result: Result)

  function BindStep(c: Chain, rents: map<nat, nat>, w: Work, m: Mode): Step {
    if c.BindingOf(m).Bound? then
      if c.BindingOf(m).passport != c.passport then Stop(Refused(BindingForeignProgram))
      else Next(w.(actions := w.actions + [AlreadyDone(Bind(m))]))
    else if PASSPORT_BINDING_SPACE !in rents then Stop(RentCacheMiss(PASSPORT_BINDING_SPACE))
    else Next(w.(actions := w.actions + [Planned(Bind(m), 0, PASSPORT_BINDING_SPACE, rents[PASSPORT_BINDING_SPACE])]))
  }

  function RegisterStep(c: Chain, rents: map<nat, nat>, w: Work, m: Mode): Step
    requires c.config.Config?
  {
    var i := FindSource(c.config.sources, c.Id(m));
    if i < |c.config.sources| then
      if c.config.sources[i].prefix != PrefixOf(m) then Stop(Refused(SourcePrefixMismatch))
      else Next(w.(actions := w.actions + [AlreadyDone(Register(m))]))
    else if |w.sources| >= MAX_ENCUMBRANCE_SOURCES then Stop(Refused(ConfigCannotGrow))
    else
      var sources := w.sources + [Source(c.Id(m), PrefixOf(m))];
      var len := EncodedLen(sources);
      if len - w.len > MAX_CONFIG_GROWTH then Stop(Refused(ConfigCannotGrow))
      else if len !in rents then Stop(RentCacheMiss(len))
      else
        var topUp := Max(0, rents[len] - w.lamports);
        Next(Work(w.actions + [Planned(Register(m), w.len, len, topUp)], sources, len, w.lamports + topUp))
  }

  function StepFor(c: Chain, rents: map<nat, nat>, w: Work, k: Kind): Step
    requires c.config.Config?
  {
    if k.Bind? then BindStep(c, rents, w, k.mode) else RegisterStep(c, rents, w, k.mode)
  }

  const STEPS: nat := 4

  function ModeAt(i: nat): Mode { if i == 0 then FixedPrice else Ascending }

  /** The four steps in the order planned: both bindings, then both registrations. */
  function KindAt(i: nat): Kind { if i < 2 then Bind(ModeAt(i)) else Register(ModeAt(i - 2)) }

  function Start(c: Chain): Work
    requires c.config.Config?
  {
    Work([], c.config.sources, c.config.len, c.config.lamports)
  }

  function StepsTo(c: Chain, rents: map<nat, nat>, n: nat): (s: Step)
    requires c.config.Config? && n <= STEPS
    ensures s.Stop? ==> !s.result.Ok?
  {
    if n == 0 then Next(Start(c))
    else
      var s := StepsTo(c, rents, n - 1);
      if s.Stop? then s else StepFor(c, rents, s.work, KindAt(n - 1))
  }

  function ModeCheck(m: ModeConfig): Option<Cause> {
    match m
    case ModeConfig(_) => None
    case ModeWrongTag => Some(ModeConfigDiscriminatorMismatch)
    case ModeMalformed => Some(ModeConfigNotFound)
  }

  /** The refusals before any step. */
  function Admission(c: Chain): Option<Cause> {
    if c.config.ConfigWrongTag? then Some(ConfigDiscriminatorMismatch)
    else if c.config.ConfigMalformed? then Some(ConfigCannotGrow)
    else if ModeCheck(c.fpConfig).Some? then ModeCheck(c.fpConfig)
    else if ModeCheck(c.ascConfig).Some? then ModeCheck(c.ascConfig)
    else if c.config.authority != c.authority || c.fpConfig.authority != c.authority ||
      c.ascConfig.authority != c.authority then
      Some(AuthorityMismatch)
    else None
  }

  function Plan(c: Chain, rents: map<nat, nat>): Result {
    if Admission(c).Some? then Refused(Admission(c).value)
    else
      match StepsTo(c, rents, STEPS)
      case Stop(result) => result
      case Next(w) =>
        if c.payer < TotalRent(w.actions) then Refused(PayerCannotCoverRent) else Ok(w.actions, TotalRent(w.actions))
  }

  /** The planner as it runs: two loops over the modes, then the sum of the rents. */
  method PlanBindModes(c: Chain, rents: map<nat, nat>) returns (r: Result)
    ensures r == Plan(c, rents)
  {
    var admission := Admission(c);
    if admission.Some? { return Refused(admission.value); }
    var w := Start(c);
    for i := 0 to 2
      invariant StepsTo(c, rents, i) == Next(w)
    {
      var s := PlanBind(c, rents, w, ModeAt(i));
      if s.Stop? {
        Halted(c, rents, i + 1);
        return s.result;
      }
      w := s.work;
    }
    for i := 0 to 2
      invariant StepsTo(c, rents, i + 2) == Next(w)
    {
      var s := PlanRegister(c, rents, w, ModeAt(i));
      if s.Stop? {
        Halted(c, rents, i + 3);
        return s.result;
      }
      w := s.work;
    }
    var total := SumRent(w.actions);
    if c.payer < total { return Refused(PayerCannotCoverRent); }
    return Ok(w.actions, total);
  }

  method PlanBind(c: Chain, rents: map<nat, nat>, w: Work, mode: Mode) returns (s: Step)
    ensures s == BindStep(c, rents, w, mode)
  {
    var bound := c.BindingOf(mode);
    if bound.Bound? {
      if bound.passport != c.passport { return Stop(Refused(BindingForeignProgram)); }
      return Next(w.(actions := w.actions + [AlreadyDone(Bind(mode))]));
    }
    if PASSPORT_BINDING_SPACE !in rents { return Stop(RentCacheMiss(PASSPORT_BINDING_SPACE)); }
    var rentTopUp := rents[PASSPORT_BINDING_SPACE];
    return Next(w.(actions := w.actions + [Planned(Bind(mode), 0, PASSPORT_BINDING_SPACE, rentTopUp)]));
  }

  method PlanRegister(c: Chain, rents: map<nat, nat>, w: Work, mode: Mode) returns (s: Step)
    requires c.config.Config?
    ensures s == RegisterStep(c, rents, w, mode)
  {
    var existing := FindSource(c.config.sources, c.Id(mode));
    if existing < |c.config.sources| {
      if c.config.sources[existing].prefix != PrefixOf(mode) { return Stop(Refused(SourcePrefixMismatch)); }
      return Next(w.(actions := w.actions + [AlreadyDone(Register(mode))]));
    }
    if |w.sources| >= MAX_ENCUMBRANCE_SOURCES { return Stop(Refused(ConfigCannotGrow)); }
    var sources, lamports := w.sources + [Source(c.Id(mode), PrefixOf(mode))], w.lamports;
    var len := EncodedLen(sources);
    if len - w.len > MAX_CONFIG_GROWTH { return Stop(Refused(ConfigCannotGrow)); }
    if len !in rents { return Stop(RentCacheMiss(len)); }
    var rentTopUp := Max(0, rents[len] - lamports);
    lamports := lamports + rentTopUp;
    return Next(Work(w.actions + [Planned(Register(mode), w.len, len, rentTopUp)], sources, len, lamports));
  }

  method SumRent(actions: seq<Action>) returns (total: nat)
    ensures total == TotalRent(actions)
  {
    total := 0;
    assert actions[..|actions|] == actions;
    for i := 0 to |actions|
      invariant total == TotalRent(actions[..i])
    {
      assert actions[..i + 1][..i] == actions[..i];
      if actions[i].Planned? { total := total + actions[i].rentTopUp; }
    }
  }

  lemma {:induction false} Halted(c: Chain, rents: map<nat, nat>, n: nat)
    requires c.config.Config? && n <= STEPS && StepsTo(c, rents, n).Stop?
    ensures StepsTo(c, rents, STEPS) == StepsTo(c, rents, n)
    decreases STEPS - n
  {
    if n < STEPS { Halted(c, rents, n + 1); }
  }

  // ---------------------------------------------------------------- rent prefetch

  /** Sizes whose rent is fetched before planning. */
  function PrefetchLens(c: Chain): set<nat>
    requires c.config.Config?
  {
    var s0 := c.config.sources;
    var s1 := if Registered(s0, c.fp) then s0 else s0 + [Source(c.fp, FIXED_PRICE_PREFIX)];
    var s2 := if Registered(s0, c.asc) then s1 else s1 + [Source(c.asc, ASCENDING_PREFIX)];
    {PASSPORT_BINDING_SPACE, c.config.len}
    + (if Registered(s0, c.fp) then {} else {EncodedLen(s1)})
    + (if Registered(s0, c.asc) then {} else {EncodedLen(s2)})
  }

  /** The cache main fills: every size that can come up, each with the network's answer. */
  ghost predicate Fetched(c: Chain, rents: map<nat, nat>, rent: nat -> nat)
    requires c.config.Config?
  {
    rents.Keys == PrefetchLens(c) && forall len :: len in rents ==> rents[len] == rent(len)
  }

  method PrefetchRents(c: Chain, rent: nat -> nat) returns (cache: map<nat, nat>)
    requires c.config.Config?
    ensures Fetched(c, cache, rent)
  {
    var lens, probe := {c.config.len}, c.config.sources;
    if !Registered(c.config.sources, c.fp) {
      probe := probe + [Source(c.fp, FIXED_PRICE_PREFIX)];
      lens := lens + {EncodedLen(probe)};
    }
    if !Registered(c.config.sources, c.asc) {
      probe := probe + [Source(c.asc, ASCENDING_PREFIX)];
      lens := lens + {EncodedLen(probe)};
    }
    assert lens + {PASSPORT_BINDING_SPACE} == PrefetchLens(c);
    cache := FetchAll(lens, map[PASSPORT_BINDING_SPACE := rent(PASSPORT_BINDING_SPACE)], rent);
  }

  method FetchAll(lens: set<nat>, known: map<nat, nat>, rent: nat -> nat) returns (cache: map<nat, nat>)
    requires forall len :: len in known ==> known[len] == rent(len)
    ensures cache.Keys == known.Keys + lens && forall len :: len in cache ==> cache[len] == rent(len)
  {
    cache := known;
    var rest := lens;
    while rest != {}
      invariant rest <= lens
      invariant forall len :: len in cache <==> len in known || (len in lens && len !in rest)
      invariant forall len :: len in cache ==> cache[len] == rent(len)
      decreases |rest|
    {
      var len :| len in rest;
      if len !in cache { cache := cache[len := rent(len)]; }
      rest := rest - {len};
    }
  }

  // ---------------------------------------------------------------- the programs

  /**
   BindPassportProgram: the binding account must hold no data, and creating it is refused when it holds lamports;
   the payer funds it.
   */
  function BindOnChain(c: Chain, rent: nat -> nat, m: Mode): Option<Chain> {
    var cost := rent(PASSPORT_BINDING_SPACE);
    if c.ModeConfigOf(m) != ModeConfig(c.authority) || c.BindingOf(m) != Absent || c.payer < cost then None
    else if m.FixedPrice? then Some(c.(fpBinding := Bound(c.passport), payer := c.payer - cost))
    else Some(c.(ascBinding := Bound(c.passport), payer := c.payer - cost))
  }

  /**
   AddEncumbranceSource: the account must decode with no byte left over; its rent is topped up, or paid
   back on shrinking.
   */
  function AddSourceOnChain(c: Chain, rent: nat -> nat, s: Source): Option<Chain> {
    if !c.config.Config? || c.config.len != EncodedLen(c.config.sources) || c.config.authority != c.authority
      || !(1 <= |s.prefix| <= MAX_SEED_PREFIX_LEN) || |c.config.sources| >= MAX_ENCUMBRANCE_SOURCES
      || Registered(c.config.sources, s.program) then None
    else
      var sources := c.config.sources + [s];
      var len := EncodedLen(sources);
      var deficit := Max(0, rent(len) - c.config.lamports);
      if len - c.config.len > MAX_CONFIG_GROWTH || c.payer < deficit then None
      else
        var lamports := c.config.lamports + deficit;
        var excess := if len < c.config.len then Max(0, lamports - rent(len)) else 0;
        Some(c.(config := Config(c.config.authority, sources, len, lamports - excess),
                payer := c.payer - deficit + excess))
  }

  function Send(c: Chain, rent: nat -> nat, a: Action): Option<Chain> {
    match a
    case AlreadyDone(_) => Some(c)
    case Planned(Bind(m), _, _, _) => BindOnChain(c, rent, m)
    case Planned(Register(m), _, _, _) => AddSourceOnChain(c, rent, Source(c.Id(m), PrefixOf(m)))
  }

  /** Sends the planned actions in order; the first refusal ends the run. */
  function Execute(c: Chain, rent: nat -> nat, actions: seq<Action>): Option<Chain> {
    if actions == [] then Some(c)
    else
      var before := Execute(c, rent, actions[..|actions| - 1]);
      if before.None? then None else Send(before.value, rent, actions[|actions| - 1])
  }

  method SendPlanned(c: Chain, rent: nat -> nat, actions: seq<Action>) returns (r: Option<Chain>)
    ensures r == Execute(c, rent, actions)
  {
    r := Some(c);
    assert actions[..|actions|] == actions;
    for i := 0 to |actions|
      invariant r == Execute(c, rent, actions[..i])
    {
      assert actions[..i + 1][..i] == actions[..i];
      if r.Some? { r := Send(r.value, rent, actions[i]); }
    }
  }

  // ---------------------------------------------------------------- readback

  function ModeEntries(c: Chain, sources: seq<Source>): seq<Source> {
    if sources == [] then []
    else
      var s := sources[|sources| - 1];
      ModeEntries(c, sources[..|sources| - 1]) + if s.program == c.fp || s.program == c.asc then [s] else []
  }

  predicate HasSource(sources: seq<Source>, program: string, prefix: string) {
    var i := FindSource(sources, program);
    i < |sources| && sources[i].prefix == prefix
  }

  predicate Readback(c: Chain) {
    && c.fpBinding == Bound(c.passport) && c.ascBinding == Bound(c.passport)
    && c.config.Config?
    && HasSource(c.config.sources, c.fp, FIXED_PRICE_PREFIX) && HasSource(c.config.sources, c.asc, ASCENDING_PREFIX)
    && var entries := ModeEntries(c, c.config.sources);
       |entries| >= 2 && entries[0].program == c.fp && entries[1].program == c.asc
  }

  // ---------------------------------------------------------------- the prefetch answers every question

  /** The planner never asks for a rent that was not fetched. */
  lemma PrefetchAnswers(c: Chain, rents: map<nat, nat>, rent: nat -> nat)
    requires c.config.Config? && Fetched(c, rents, rent)
    ensures !Plan(c, rents).RentCacheMiss?
  {
    BindsKeepWork(c, rents);
    if StepsTo(c, rents, 2).Next? {
      RegistersAsk(c, rents);
    } else {
      Halted(c, rents, 2);
    }
  }

  lemma BindsKeepWork(c: Chain, rents: map<nat, nat>)
    requires c.config.Config? && PASSPORT_BINDING_SPACE in rents
    ensures match StepsTo(c, rents, 2)
      case Stop(r) => r == Refused(BindingForeignProgram)
      case Next(w) => w.(actions := []) == Start(c)
  {
    assert StepsTo(c, rents, 0) == Next(Start(c));
    assert StepsTo(c, rents, 1) == BindStep(c, rents, Start(c), FixedPrice);
  }

  lemma RegistersAsk(c: Chain, rents: map<nat, nat>)
    requires c.config.Config? && PrefetchLens(c) <= rents.Keys && StepsTo(c, rents, 2).Next?
    ensures StepsTo(c, rents, 4).Stop? ==> StepsTo(c, rents, 4).result.Refused?
  {
    BindsKeepWork(c, rents);
    var w := StepsTo(c, rents, 2).work;
    FirstAsks(c, rents, w);
    assert StepsTo(c, rents, 3) == RegisterStep(c, rents, w, FixedPrice);
    if StepsTo(c, rents, 3).Next? { SecondAsks(c, rents, StepsTo(c, rents, 3).work); }
  }

  function WithFixedPrice(c: Chain, sources: seq<Source>): seq<Source> {
    if Registered(sources, c.fp) then sources else sources + [Source(c.fp, FIXED_PRICE_PREFIX)]
  }

  lemma FirstAsks(c: Chain, rents: map<nat, nat>, w: Work)
    requires c.config.Config? && PrefetchLens(c) <= rents.Keys && w.(actions := []) == Start(c)
    ensures match RegisterStep(c, rents, w, FixedPrice)
      case Stop(r) => r.Refused?
      case Next(v) => v.sources == WithFixedPrice(c, c.config.sources)
  {
  }

  lemma SecondAsks(c: Chain, rents: map<nat, nat>, v: Work)
    requires c.config.Config? && PrefetchLens(c) <= rents.Keys && v.sources == WithFixedPrice(c, c.config.sources)
    ensures RegisterStep(c, rents, v, Ascending).Stop? ==> RegisterStep(c, rents, v, Ascending).result.Refused?
  {
  }

  // ---------------------------------------------------------------- plan and execution

  /** A stuck binding is taken for absent and cannot be bound; a padded config account cannot be resized. */
  predicate Runs(c: Chain, n: nat)
    requires c.config.Config?
  {
    && (n >= 1 ==> !c.fpBinding.Stuck())
    && (n >= 2 ==> !c.ascBinding.Stuck())
    && ((n >= 3 && !Registered(c.config.sources, c.fp)) || (n >= 4 && !Registered(c.config.sources, c.asc)) ==>
         c.config.len == EncodedLen(c.config.sources))
  }

  /** The chain once the first n steps of the plan are sent. */
  function Reached(c: Chain, w: Work, n: nat): Chain
    requires c.config.Config? && TotalRent(w.actions) <= c.payer
  {
    c.(config := Config(c.config.authority, w.sources, w.len, w.lamports),
       fpBinding := if n >= 1 then Bound(c.passport) else c.fpBinding,
       ascBinding := if n >= 2 then Bound(c.passport) else c.ascBinding,
       payer := c.payer - TotalRent(w.actions))
  }

  lemma StepAdds(c: Chain, rents: map<nat, nat>, rent: nat -> nat, n: nat) returns (v: Work, w: Work, a: Action)
    requires c.config.Config? && 1 <= n <= STEPS && StepsTo(c, rents, n).Next?
    ensures StepsTo(c, rents, n - 1) == Next(v) && StepsTo(c, rents, n) == Next(w) &&
      StepFor(c, rents, v, KindAt(n - 1)) == Next(w)
    ensures w.actions == v.actions + [a] && a.kind == KindAt(n - 1)
    ensures TotalRent(w.actions) == TotalRent(v.actions) + if a.Planned? then a.rentTopUp else 0
    ensures Execute(c, rent, w.actions) ==
      if Execute(c, rent, v.actions).None? then None else Send(Execute(c, rent, v.actions).value, rent, a)
  {
    v, w := StepsTo(c, rents, n - 1).work, StepsTo(c, rents, n).work;
    a := w.actions[|w.actions| - 1];
    assert w.actions == v.actions + [a];
    assert w.actions[..|w.actions| - 1] == v.actions;
  }

  ghost predicate Executes(c: Chain, rent: nat -> nat, w: Work, n: nat)
    requires c.config.Config?
  {
    Execute(c, rent, w.actions) ==
      if Runs(c, n) && TotalRent(w.actions) <= c.payer then Some(Reached(c, w, n)) else None
  }

  lemma BindExecutes(c: Chain, rents: map<nat, nat>, rent: nat -> nat, n: nat)
    requires Admission(c).None? && Fetched(c, rents, rent) && 1 <= n <= 2 && StepsTo(c, rents, n).Next?
    requires StepsTo(c, rents, n - 1).Next? ==> Executes(c, rent, StepsTo(c, rents, n - 1).work, n - 1)
    ensures Executes(c, rent, StepsTo(c, rents, n).work, n)
  {
    var v, w, a := StepAdds(c, rents, rent, n);
    StepShape(c, rents, v, KindAt(n - 1), w, a);
    if Runs(c, n - 1) && TotalRent(v.actions) <= c.payer { BindSends(c, rent, n, v, w, a); }
    ExecutesOn(c, rent, v, w, a, n);
  }

  lemma BindSends(c: Chain, rent: nat -> nat, n: nat, v: Work, w: Work, a: Action)
    requires Admission(c).None? && 1 <= n <= 2 && w == v.(actions := w.actions)
    requires TotalRent(w.actions) == TotalRent(v.actions) + if a.Planned? then a.rentTopUp else 0
    requires var m := ModeAt(n - 1);
      if c.BindingOf(m).Bound? then c.BindingOf(m).passport == c.passport && a == AlreadyDone(Bind(m))
      else a == Planned(Bind(m), 0, PASSPORT_BINDING_SPACE, rent(PASSPORT_BINDING_SPACE))
    requires Runs(c, n - 1) && TotalRent(v.actions) <= c.payer
    ensures Send(Reached(c, v, n - 1), rent, a) ==
      if Runs(c, n) && TotalRent(w.actions) <= c.payer then Some(Reached(c, w, n)) else None
  {
  }

  lemma RegisterExecutes(c: Chain, rents: map<nat, nat>, rent: nat -> nat, n: nat)
    requires Admission(c).None? && c.fp != c.asc && Fetched(c, rents, rent) && 3 <= n <= 4 && StepsTo(c, rents, n).Next?
    requires StepsTo(c, rents, n - 1).Next? ==>
      Executes(c, rent, StepsTo(c, rents, n - 1).work, n - 1) && WorkAt(c, StepsTo(c, rents, n - 1).work, n - 1)
    ensures Executes(c, rent, StepsTo(c, rents, n).work, n)
  {
    var v, w, a := StepAdds(c, rents, rent, n);
    if Runs(c, n - 1) && TotalRent(v.actions) <= c.payer { SendsAsPlanned(c, rents, rent, n, v, w, a); }
    ExecutesOn(c, rent, v, w, a, n);
  }

  lemma SendsAsPlanned(c: Chain, rents: map<nat, nat>, rent: nat -> nat, n: nat, v: Work, w: Work, a: Action)
    requires Admission(c).None? && c.fp != c.asc && Fetched(c, rents, rent) && 3 <= n <= 4
    requires StepFor(c, rents, v, Register(ModeAt(n - 3))) == Next(w) && w.actions == v.actions + [a] &&
      WorkAt(c, v, n - 1)
    requires TotalRent(w.actions) == TotalRent(v.actions) + if a.Planned? then a.rentTopUp else 0
    requires Runs(c, n - 1) && TotalRent(v.actions) <= c.payer
    ensures Send(Reached(c, v, n - 1), rent, a) ==
      if Runs(c, n) && TotalRent(w.actions) <= c.payer then Some(Reached(c, w, n)) else None
  {
    StepShape(c, rents, v, Register(ModeAt(n - 3)), w, a);
    if Registered(c.config.sources, c.Id(ModeAt(n - 3))) {
      NothingToSend(c, n, v, w);
    } else {
      ExactSoFar(c, v, n);
      assert rents[w.len] == rent(w.len);
      RegisterSends(c, rent, n, v, w, a);
    }
  }

  lemma NothingToSend(c: Chain, n: nat, v: Work, w: Work)
    requires c.config.Config? && 3 <= n <= 4 && Registered(c.config.sources, c.Id(ModeAt(n - 3))) &&
      TotalRent(v.actions) <= c.payer
    requires w == v.(actions := w.actions) && TotalRent(w.actions) == TotalRent(v.actions)
    ensures Runs(c, n) == Runs(c, n - 1) && Reached(c, w, n) == Reached(c, v, n - 1)
  {
  }

  lemma ExecutesOn(c: Chain, rent: nat -> nat, v: Work, w: Work, a: Action, n: nat)
    requires c.config.Config? && n >= 1 && Executes(c, rent, v, n - 1) && TotalRent(v.actions) <= TotalRent(w.actions)
    requires Execute(c, rent, w.actions) ==
      if Execute(c, rent, v.actions).None? then None else Send(Execute(c, rent, v.actions).value, rent, a)
    requires Runs(c, n - 1) && TotalRent(v.actions) <= c.payer ==>
      Send(Reached(c, v, n - 1), rent, a) ==
        if Runs(c, n) && TotalRent(w.actions) <= c.payer then Some(Reached(c, w, n)) else None
    ensures Executes(c, rent, w, n)
  {
  }

  /** What a step that does not stop appends. */
  lemma StepShape(c: Chain, rents: map<nat, nat>, v: Work, k: Kind, w: Work, a: Action)
    requires c.config.Config? && StepFor(c, rents, v, k) == Next(w) && w.actions == v.actions + [a]
    ensures k.Bind? ==> w == v.(actions := w.actions)
    ensures k.Bind? && c.BindingOf(k.mode).Bound? ==> a == AlreadyDone(k) && c.BindingOf(k.mode).passport == c.passport
    ensures k.Bind? && !c.BindingOf(k.mode).Bound? ==>
      PASSPORT_BINDING_SPACE in rents && a == Planned(k, 0, PASSPORT_BINDING_SPACE, rents[PASSPORT_BINDING_SPACE])
    ensures k.Register? && Registered(c.config.sources, c.Id(k.mode)) ==>
      a == AlreadyDone(k) && w == v.(actions := w.actions)
    ensures k.Register? && !Registered(c.config.sources, c.Id(k.mode)) ==>
      && w.sources == v.sources + [Source(c.Id(k.mode), PrefixOf(k.mode))] && |v.sources| < MAX_ENCUMBRANCE_SOURCES
      && w.len == EncodedLen(w.sources) && w.len - v.len <= MAX_CONFIG_GROWTH && w.len in rents
      && a == Planned(k, v.len, w.len, Max(0, rents[w.len] - v.lamports)) && w.lamports == v.lamports + a.rentTopUp
  {
    assert w.actions[|v.actions|] == a;
  }

  lemma ExactSoFar(c: Chain, v: Work, n: nat)
    requires c.config.Config? && c.fp != c.asc && 3 <= n <= 4 && WorkAt(c, v, n - 1) && Runs(c, n - 1)
    requires !Registered(c.config.sources, c.Id(ModeAt(n - 3)))
    ensures !Registered(v.sources, c.Id(ModeAt(n - 3)))
    ensures v.len == EncodedLen(v.sources) <==> Runs(c, n)
  {
    var s := c.config.sources;
    assert s + [] + [] == s && s + [Source(c.fp, FIXED_PRICE_PREFIX)] + [] == s + [Source(c.fp, FIXED_PRICE_PREFIX)];
    FoundInAppended(s, [Source(c.fp, FIXED_PRICE_PREFIX)], c.asc);
  }

  lemma RegisterSends(c: Chain, rent: nat -> nat, n: nat, v: Work, w: Work, a: Action)
    requires Admission(c).None? && 3 <= n <= 4 && TotalRent(v.actions) <= c.payer
    requires !Registered(v.sources, c.Id(ModeAt(n - 3))) && |v.sources| < MAX_ENCUMBRANCE_SOURCES
    requires w.sources == v.sources + [Source(c.Id(ModeAt(n - 3)), PrefixOf(ModeAt(n - 3)))]
    requires w.len == EncodedLen(w.sources) && w.len - v.len <= MAX_CONFIG_GROWTH
    requires a == Planned(Register(ModeAt(n - 3)), v.len, w.len, Max(0, rent(w.len) - v.lamports)) &&
      w.lamports == v.lamports + a.rentTopUp
    requires TotalRent(w.actions) == TotalRent(v.actions) + a.rentTopUp
    ensures Send(Reached(c, v, n - 1), rent, a) ==
      if v.len == EncodedLen(v.sources) && TotalRent(w.actions) <= c.payer then Some(Reached(c, w, n)) else None
  {
    var m := ModeAt(n - 3);
    AddRuns(Reached(c, v, n - 1), rent, Source(c.Id(m), PrefixOf(m)), v.len == EncodedLen(v.sources));
  }

  lemma AddRuns(d: Chain, rent: nat -> nat, s: Source, exact: bool)
    requires d.config.Config? && d.config.authority == d.authority && s.prefix in {FIXED_PRICE_PREFIX, ASCENDING_PREFIX}
    requires !Registered(d.config.sources, s.program) && |d.config.sources| < MAX_ENCUMBRANCE_SOURCES
    requires exact <==> d.config.len == EncodedLen(d.config.sources)
    requires EncodedLen(d.config.sources + [s]) - d.config.len <= MAX_CONFIG_GROWTH
    ensures var len := EncodedLen(d.config.sources + [s]);
      var topUp := Max(0, rent(len) - d.config.lamports);
      AddSourceOnChain(d, rent, s) ==
      if !exact || d.payer < topUp then None
      else Some(d.(config := Config(d.config.authority, d.config.sources + [s], len, d.config.lamports + topUp),
                   payer := d.payer - topUp))
  {
    assert (d.config.sources + [s])[..|d.config.sources|] == d.config.sources;
  }

  /** The registry worked on: the one on chain with the missing modes so far appended; its size is exact if it was. */
  ghost predicate WorkAt(c: Chain, w: Work, n: nat)
    requires c.config.Config?
  {
    && w.sources == c.config.sources
       + (if n >= 3 && !Registered(c.config.sources, c.fp) then [Source(c.fp, FIXED_PRICE_PREFIX)] else [])
       + (if n >= 4 && !Registered(c.config.sources, c.asc) then [Source(c.asc, ASCENDING_PREFIX)] else [])
    && (w.sources == c.config.sources ==> w.len == c.config.len)
    && (w.sources != c.config.sources ==> w.len == EncodedLen(w.sources))
    && (n <= 2 || (Registered(c.config.sources, c.fp) ==> HasSource(c.config.sources, c.fp, FIXED_PRICE_PREFIX)))
    && (n <= 3 || (Registered(c.config.sources, c.asc) ==> HasSource(c.config.sources, c.asc, ASCENDING_PREFIX)))
  }

  lemma WorkSteps(c: Chain, rents: map<nat, nat>, rent: nat -> nat, n: nat)
    requires c.config.Config? && 2 <= n <= 4 && PASSPORT_BINDING_SPACE in rents && StepsTo(c, rents, n).Next?
    ensures WorkAt(c, StepsTo(c, rents, n).work, n)
    decreases n
  {
    if n == 2 {
      BindsKeepWork(c, rents);
    } else {
      var v, w, a := StepAdds(c, rents, rent, n);
      WorkSteps(c, rents, rent, n - 1);
    }
  }

  lemma StepsDown(c: Chain, rents: map<nat, nat>, n: nat)
    requires c.config.Config? && 1 <= n <= 4 && StepsTo(c, rents, n).Next?
    ensures StepsTo(c, rents, n - 1).Next?
  {
  }

  lemma BindsExecute(c: Chain, rents: map<nat, nat>, rent: nat -> nat)
    requires Admission(c).None? && Fetched(c, rents, rent) && StepsTo(c, rents, 2).Next?
    ensures Executes(c, rent, StepsTo(c, rents, 2).work, 2)
  {
    StepsDown(c, rents, 2);
    StepsDown(c, rents, 1);
    assert Executes(c, rent, Start(c), 0);
    BindExecutes(c, rents, rent, 1);
    BindExecutes(c, rents, rent, 2);
  }

  lemma PlanTaken(c: Chain, rents: map<nat, nat>) returns (w: Work)
    requires Plan(c, rents).Ok?
    ensures Admission(c).None? && c.config.Config? && StepsTo(c, rents, 4) == Next(w)
    ensures Plan(c, rents) == Ok(w.actions, TotalRent(w.actions)) && TotalRent(w.actions) <= c.payer
  {
    var s := StepsTo(c, rents, STEPS);
    w := s.work;
  }

  /**
   An accepted plan runs to its end exactly when no binding is stuck and no padded config has to
   grow; then the chain is as planned.
   */
  lemma AcceptedPlanRuns(c: Chain, rents: map<nat, nat>, rent: nat -> nat) returns (w: Work)
    requires c.fp != c.asc && c.config.Config? && Fetched(c, rents, rent) && Plan(c, rents).Ok?
    ensures WorkAt(c, w, 4) && Plan(c, rents) == Ok(w.actions, TotalRent(w.actions)) && TotalRent(w.actions) <= c.payer
    ensures StepsTo(c, rents, 4) == Next(w)
    ensures Execute(c, rent, w.actions) == if Runs(c, 4) then Some(Reached(c, w, 4)) else None
  {
    w := PlanTaken(c, rents);
    StepsExecute(c, rents, rent, 4);
  }

  /** From the second step on, the steps planned so far are executed as planned. */
  lemma {:induction false} StepsExecute(c: Chain, rents: map<nat, nat>, rent: nat -> nat, n: nat)
    requires Admission(c).None? && c.fp != c.asc && Fetched(c, rents, rent) && 2 <= n <= 4 && StepsTo(c, rents, n).Next?
    ensures Executes(c, rent, StepsTo(c, rents, n).work, n) && WorkAt(c, StepsTo(c, rents, n).work, n)
  {
    WorkSteps(c, rents, rent, n);
    if n == 2 {
      BindsExecute(c, rents, rent);
    } else {
      StepsDown(c, rents, n);
      StepsExecute(c, rents, rent, n - 1);
      RegisterExecutes(c, rents, rent, n);
    }
  }

  // ---------------------------------------------------------------- what the finished run leaves

  /** The chain after an accepted plan was sent without a refusal. */
  ghost predicate Finished(c: Chain, rents: map<nat, nat>, rent: nat -> nat, d: Chain) {
    && c.fp != c.asc && c.config.Config? && Fetched(c, rents, rent) && Plan(c, rents).Ok?
    && Execute(c, rent, Plan(c, rents).actions) == Some(d)
  }

  lemma FoundInAppended(sources: seq<Source>, tail: seq<Source>, program: string)
    ensures FindSource(sources + tail, program) ==
      if Registered(sources, program) then FindSource(sources, program) else |sources| + FindSource(tail, program)
  {
    var all, i, j := sources + tail, FindSource(sources + tail, program), FindSource(sources, program);
    if j < |sources| {
      assert all[j].program == program;
      assert i < |sources| ==> sources[i].program == program;
    } else {
      var k := FindSource(tail, program);
      assert forall n :: 0 <= n < |sources| ==> all[n].program != program;
      if k < |tail| { assert all[|sources| + k].program == program; }
      if i < |all| { assert tail[i - |sources|].program == program; }
      assert k < |tail| ==> i <= |sources| + k;
    }
  }

  /** The registry with the missing modes appended. */
  function WithModes(c: Chain, sources: seq<Source>): seq<Source> {
    sources + (if Registered(sources, c.fp) then [] else [Source(c.fp, FIXED_PRICE_PREFIX)])
            + (if Registered(sources, c.asc) then [] else [Source(c.asc, ASCENDING_PREFIX)])
  }

  lemma ModesFound(c: Chain, sources: seq<Source>)
    requires c.fp != c.asc
    ensures var n := if Registered(sources, c.fp) then 0 else 1;
      && FindSource(WithModes(c, sources), c.fp) == FindSource(sources, c.fp)
      && FindSource(WithModes(c, sources), c.asc) ==
        if Registered(sources, c.asc) then FindSource(sources, c.asc) else |sources| + n
  {
    var t1 := if Registered(sources, c.fp) then [] else [Source(c.fp, FIXED_PRICE_PREFIX)];
    var t2 := if Registered(sources, c.asc) then [] else [Source(c.asc, ASCENDING_PREFIX)];
    FoundInAppended(sources, t1, c.fp);
    FoundInAppended(sources + t1, t2, c.fp);
    FoundInAppended(sources, t1, c.asc);
    FoundInAppended(sources + t1, t2, c.asc);
  }

  /** Both modes are registered under their prefixes; entries already there keep their places. */
  lemma RegistryAfter(c: Chain, rents: map<nat, nat>, rent: nat -> nat, d: Chain)
    requires Finished(c, rents, rent, d)
    ensures d.config.Config? && d.config.sources == WithModes(c, c.config.sources) &&
      c.config.sources <= d.config.sources
    ensures HasSource(d.config.sources, c.fp, FIXED_PRICE_PREFIX) &&
      HasSource(d.config.sources, c.asc, ASCENDING_PREFIX)
    ensures d.config.authority == c.config.authority &&
      d.(config := c.config, fpBinding := c.fpBinding, ascBinding := c.ascBinding, payer := c.payer) == c
    ensures d.fpBinding == d.ascBinding == Bound(c.passport) && d.payer == c.payer - Plan(c, rents).total
  {
    var w := AcceptedPlanRuns(c, rents, rent);
    ReachedState(c, w);
    ModesHeld(c, c.config.sources);
  }

  /** The chain after a finished run, in its own names: admissible, bound and registered. */
  lemma ReadyAgain(c: Chain, rents: map<nat, nat>, rent: nat -> nat, d: Chain)
    requires Finished(c, rents, rent, d)
    ensures Admission(d).None? && d.fpBinding == d.ascBinding == Bound(d.passport)
    ensures HasSource(d.config.sources, d.fp, FIXED_PRICE_PREFIX) &&
      HasSource(d.config.sources, d.asc, ASCENDING_PREFIX)
  {
    var w := PlanTaken(c, rents);
    RegistryAfter(c, rents, rent, d);
    SameNames(c, d);
  }

  lemma SameNames(c: Chain, d: Chain)
    requires d.(config := c.config, fpBinding := c.fpBinding, ascBinding := c.ascBinding, payer := c.payer) == c
    requires Admission(c).None? && d.config.Config? && d.config.authority == c.config.authority
    ensures d.fp == c.fp && d.asc == c.asc && d.passport == c.passport && Admission(d).None?
  {
    assert d.authority == c.authority && d.fpConfig == c.fpConfig && d.ascConfig == c.ascConfig;
  }

  lemma ReachedState(c: Chain, w: Work)
    requires c.config.Config? && TotalRent(w.actions) <= c.payer && WorkAt(c, w, 4)
    ensures var d := Reached(c, w, 4);
      && d.config.Config? && d.config.sources == WithModes(c, c.config.sources) &&
        d.config.authority == c.config.authority
      && d.(config := c.config, fpBinding := c.fpBinding, ascBinding := c.ascBinding, payer := c.payer) == c
      && d.fpBinding == d.ascBinding == Bound(c.passport) && d.payer == c.payer - TotalRent(w.actions)
    ensures Registered(c.config.sources, c.fp) ==> HasSource(c.config.sources, c.fp, FIXED_PRICE_PREFIX)
    ensures Registered(c.config.sources, c.asc) ==> HasSource(c.config.sources, c.asc, ASCENDING_PREFIX)
  {
  }

  lemma ModesHeld(c: Chain, sources: seq<Source>)
    requires c.fp != c.asc
    requires Registered(sources, c.fp) ==> HasSource(sources, c.fp, FIXED_PRICE_PREFIX)
    requires Registered(sources, c.asc) ==> HasSource(sources, c.asc, ASCENDING_PREFIX)
    ensures sources <= WithModes(c, sources)
    ensures HasSource(WithModes(c, sources), c.fp, FIXED_PRICE_PREFIX) &&
      HasSource(WithModes(c, sources), c.asc, ASCENDING_PREFIX)
  {
    ModesFound(c, sources);
  }

  lemma BoundTwice(d: Chain, rents: map<nat, nat>)
    requires Admission(d).None? && d.fpBinding == d.ascBinding == Bound(d.passport)
    ensures StepsTo(d, rents, 2) ==
      Next(Start(d).(actions := [AlreadyDone(Bind(FixedPrice)), AlreadyDone(Bind(Ascending))]))
  {
    assert StepsTo(d, rents, 1) == BindStep(d, rents, Start(d), FixedPrice);
    assert StepsTo(d, rents, 2) == BindStep(d, rents, StepsTo(d, rents, 1).work, Ascending);
  }

  function AllDone(): seq<Action> {
    [AlreadyDone(Bind(FixedPrice)), AlreadyDone(Bind(Ascending)), AlreadyDone(Register(FixedPrice)),
     AlreadyDone(Register(Ascending))]
  }

  lemma NothingLeft(d: Chain, rents: map<nat, nat>)
    requires Admission(d).None? && d.fpBinding == d.ascBinding == Bound(d.passport)
    requires HasSource(d.config.sources, d.fp, FIXED_PRICE_PREFIX) &&
      HasSource(d.config.sources, d.asc, ASCENDING_PREFIX)
    ensures Plan(d, rents) == Ok(AllDone(), 0)
  {
    BoundTwice(d, rents);
    var w2 := StepsTo(d, rents, 2).work;
    assert StepsTo(d, rents, 3) == Next(w2.(actions := w2.actions + [AlreadyDone(Register(FixedPrice))]));
    var w3 := StepsTo(d, rents, 3).work;
    assert StepsTo(d, rents, 4) == Next(w3.(actions := w3.actions + [AlreadyDone(Register(Ascending))]));
    var done := w3.actions + [AlreadyDone(Register(Ascending))];
    assert forall a :: a in done ==> a.AlreadyDone?;
    NoRent(done);
  }

  lemma {:induction false} NoRent(actions: seq<Action>)
    requires forall a :: a in actions ==> a.AlreadyDone?
    ensures TotalRent(actions) == 0
    decreases |actions|
  {
    if actions != [] {
      assert actions[|actions| - 1] in actions;
      NoRent(actions[..|actions| - 1]);
    }
  }

  /** Planning again finds four steps done and no rent to pay, with whatever rents are cached. */
  lemma PlanConverges(c: Chain, rents: map<nat, nat>, rent: nat -> nat, d: Chain, again: map<nat, nat>)
    requires Finished(c, rents, rent, d)
    ensures Plan(d, again) == Ok(AllDone(), 0)
  {
    ReadyAgain(c, rents, rent, d);
    NothingLeft(d, again);
  }

  // ---------------------------------------------------------------- what the planner accepts

  /** Sending, without a plan, the instruction of each of the first n steps whose result is not there yet. */
  function SendMissing(c: Chain, rent: nat -> nat, n: nat): Option<Chain>
    requires c.config.Config? && n <= STEPS
  {
    if n == 0 then Some(c)
    else
      var b, k := SendMissing(c, rent, n - 1), KindAt(n - 1);
      if b.None? then None
      else if k.Bind? then if c.BindingOf(k.mode).Bound? then b else BindOnChain(b.value, rent, k.mode)
      else if Registered(c.config.sources, c.Id(k.mode)) then b
      else AddSourceOnChain(b.value, rent, Source(c.Id(k.mode), PrefixOf(k.mode)))
  }

  /** Both modes bound to this passport program and registered under their prefixes. */
  predicate Goal(c: Chain, d: Chain) {
    && d.fpBinding == Bound(c.passport) && d.ascBinding == Bound(c.passport) && d.config.Config?
    && HasSource(d.config.sources, c.fp, FIXED_PRICE_PREFIX) && HasSource(d.config.sources, c.asc, ASCENDING_PREFIX)
  }

  lemma {:induction false} MissingIsPlanned(c: Chain, rents: map<nat, nat>, rent: nat -> nat, n: nat)
    requires Admission(c).None? && n <= 4 && StepsTo(c, rents, n).Next?
    ensures SendMissing(c, rent, n) == Execute(c, rent, StepsTo(c, rents, n).work.actions)
    decreases n
  {
    if n > 0 {
      var v, w, a := StepAdds(c, rents, rent, n);
      StepShape(c, rents, v, KindAt(n - 1), w, a);
      MissingIsPlanned(c, rents, rent, n - 1);
      if SendMissing(c, rent, n - 1).Some? { IdsStay(c, rent, n - 1); }
    }
  }

  lemma {:induction false} IdsStay(c: Chain, rent: nat -> nat, n: nat)
    requires c.config.Config? && n <= 4 && SendMissing(c, rent, n).Some?
    ensures SendMissing(c, rent, n).value.fp == c.fp && SendMissing(c, rent, n).value.asc == c.asc
    decreases n
  {
    if n > 0 { IdsStay(c, rent, n - 1); }
  }

  /** A binding in place and the entries of the registry stay. */
  lemma {:induction false} MissingKeeps(c: Chain, rent: nat -> nat, n: nat)
    requires c.config.Config? && n <= 4 && SendMissing(c, rent, n).Some?
    ensures var d := SendMissing(c, rent, n).value;
      && (c.fpBinding.Bound? ==> d.fpBinding == c.fpBinding) && (c.ascBinding.Bound? ==> d.ascBinding == c.ascBinding)
      && d.config.Config? && c.config.sources <= d.config.sources
    decreases n
  {
    if n > 0 { MissingKeeps(c, rent, n - 1); }
  }

  predicate NoClash(c: Chain)
    requires c.config.Config?
  {
    && (c.fpBinding.Bound? ==> c.fpBinding.passport == c.passport) &&
      (c.ascBinding.Bound? ==> c.ascBinding.passport == c.passport)
    && (Registered(c.config.sources, c.fp) ==> HasSource(c.config.sources, c.fp, FIXED_PRICE_PREFIX))
    && (Registered(c.config.sources, c.asc) ==> HasSource(c.config.sources, c.asc, ASCENDING_PREFIX))
  }

  lemma GoalHasNoClash(c: Chain, rent: nat -> nat)
    requires c.config.Config? && SendMissing(c, rent, 4).Some? && Goal(c, SendMissing(c, rent, 4).value)
    ensures NoClash(c)
  {
    MissingKeeps(c, rent, 4);
    var s, t := c.config.sources, SendMissing(c, rent, 4).value.config.sources;
    assert t == s + t[|s|..];
    FoundInAppended(s, t[|s|..], c.fp);
    FoundInAppended(s, t[|s|..], c.asc);
  }

  lemma {:induction false} NoneStays(c: Chain, rent: nat -> nat, n: nat)
    requires c.config.Config? && n <= 4 && SendMissing(c, rent, 4).Some?
    ensures SendMissing(c, rent, n).Some?
    decreases 4 - n
  {
    if n < 4 { NoneStays(c, rent, n + 1); }
  }

  /** Where the next instruction succeeds the planner does not stop. */
  lemma PlannerGoesOn(c: Chain, rents: map<nat, nat>, rent: nat -> nat, n: nat)
    requires Admission(c).None? && Fetched(c, rents, rent) && NoClash(c) && 1 <= n <= 4
    requires SendMissing(c, rent, n).Some? && SendMissing(c, rent, n - 1).Some? && StepsTo(c, rents, n - 1).Next?
    requires Executes(c, rent, StepsTo(c, rents, n - 1).work, n - 1) &&
      (n > 2 ==> WorkAt(c, StepsTo(c, rents, n - 1).work, n - 1))
    ensures StepsTo(c, rents, n).Next?
  {
    var w, k := StepsTo(c, rents, n - 1).work, KindAt(n - 1);
    if n > 2 && !Registered(c.config.sources, c.Id(k.mode)) {
      MissingIsPlanned(c, rents, rent, n - 1);
      AddNeeds(Reached(c, w, n - 1), rent, Source(c.Id(k.mode), PrefixOf(k.mode)));
      SizesKnown(c, rents, w, n);
    }
    StepGoesOn(c, rents, w, k);
  }

  lemma AddNeeds(d: Chain, rent: nat -> nat, s: Source)
    requires AddSourceOnChain(d, rent, s).Some?
    ensures d.config.Config? && |d.config.sources| < MAX_ENCUMBRANCE_SOURCES
    ensures EncodedLen(d.config.sources + [s]) - d.config.len <= MAX_CONFIG_GROWTH
  {
  }

  lemma StepGoesOn(c: Chain, rents: map<nat, nat>, w: Work, k: Kind)
    requires c.config.Config? && NoClash(c) && PASSPORT_BINDING_SPACE in rents
    requires k.Register? && !Registered(c.config.sources, c.Id(k.mode)) ==>
      var len := EncodedLen(w.sources + [Source(c.Id(k.mode), PrefixOf(k.mode))]);
      |w.sources| < MAX_ENCUMBRANCE_SOURCES && len - w.len <= MAX_CONFIG_GROWTH && len in rents
    ensures StepFor(c, rents, w, k).Next?
  {
  }

  lemma SizesKnown(c: Chain, rents: map<nat, nat>, w: Work, n: nat)
    requires c.config.Config? && PrefetchLens(c) == rents.Keys && 3 <= n <= 4 && WorkAt(c, w, n - 1)
    ensures var m := ModeAt(n - 3);
      !Registered(c.config.sources, c.Id(m)) ==> EncodedLen(w.sources + [Source(c.Id(m), PrefixOf(m))]) in rents
  {
    var s := c.config.sources;
    assert s + [] + [] == s && s + [Source(c.fp, FIXED_PRICE_PREFIX)] + [] == s + [Source(c.fp, FIXED_PRICE_PREFIX)];
  }

  lemma OneBindGoesOn(c: Chain, rents: map<nat, nat>, rent: nat -> nat, n: nat)
    requires Admission(c).None? && Fetched(c, rents, rent) && NoClash(c) && SendMissing(c, rent, 4).Some? && 1 <= n <= 2
    requires StepsTo(c, rents, n - 1).Next? && Executes(c, rent, StepsTo(c, rents, n - 1).work, n - 1)
    ensures StepsTo(c, rents, n).Next? && Executes(c, rent, StepsTo(c, rents, n).work, n)
  {
    NoneStays(c, rent, n);
    NoneStays(c, rent, n - 1);
    PlannerGoesOn(c, rents, rent, n);
    BindExecutes(c, rents, rent, n);
  }

  lemma StartExecutes(c: Chain, rents: map<nat, nat>, rent: nat -> nat)
    requires c.config.Config?
    ensures StepsTo(c, rents, 0) == Next(Start(c)) && Executes(c, rent, Start(c), 0)
  {
  }

  lemma BindsGoOn(c: Chain, rents: map<nat, nat>, rent: nat -> nat)
    requires Admission(c).None? && Fetched(c, rents, rent) && NoClash(c) && SendMissing(c, rent, 4).Some?
    ensures StepsTo(c, rents, 2).Next? && Executes(c, rent, StepsTo(c, rents, 2).work, 2)
  {
    StartExecutes(c, rents, rent);
    OneBindGoesOn(c, rents, rent, 1);
    OneBindGoesOn(c, rents, rent, 2);
  }

  lemma GoesOnToTheEnd(c: Chain, rents: map<nat, nat>, rent: nat -> nat)
    requires Admission(c).None? && c.fp != c.asc && Fetched(c, rents, rent) && NoClash(c) &&
      SendMissing(c, rent, 4).Some?
    ensures StepsTo(c, rents, 4).Next? && Executes(c, rent, StepsTo(c, rents, 4).work, 4)
  {
    NoneStays(c, rent, 3);
    NoneStays(c, rent, 2);
    BindsGoOn(c, rents, rent);
    WorkSteps(c, rents, rent, 2);
    PlannerGoesOn(c, rents, rent, 3);
    RegisterExecutes(c, rents, rent, 3);
    WorkSteps(c, rents, rent, 3);
    PlannerGoesOn(c, rents, rent, 4);
    RegisterExecutes(c, rents, rent, 4);
  }

  /**
   With configs that decode and the right authority, the planner accepts a plan that runs exactly where
   the missing instructions, sent without any plan, would all succeed and leave both modes in place: it
   refuses nothing that would work, and the rent and size checks let nothing through that would not.
   */
  lemma AcceptsExactly(c: Chain, rents: map<nat, nat>, rent: nat -> nat)
    requires Admission(c).None? && c.fp != c.asc && Fetched(c, rents, rent)
    ensures Plan(c, rents).Ok? && Runs(c, 4) <==>
      SendMissing(c, rent, 4).Some? && Goal(c, SendMissing(c, rent, 4).value)
  {
    if Plan(c, rents).Ok? && Runs(c, 4) {
      var w := AcceptedPlanRuns(c, rents, rent);
      MissingIsPlanned(c, rents, rent, 4);
      RegistryAfter(c, rents, rent, Reached(c, w, 4));
    }
    if SendMissing(c, rent, 4).Some? && Goal(c, SendMissing(c, rent, 4).value) {
      GoalHasNoClash(c, rent);
      GoesOnToTheEnd(c, rents, rent);
      MissingIsPlanned(c, rents, rent, 4);
      assert StepsTo(c, rents, STEPS).Next?;
    }
  }

  // ---------------------------------------------------------------- rent

  /** Largest of a balance and the rents of the sizes the config passes through. */
  function HighWater(lamports: nat, actions: seq<Action>, rent: nat -> nat): nat {
    if actions == [] then lamports
    else
      var a := actions[|actions| - 1];
      var below := HighWater(lamports, actions[..|actions| - 1], rent);
      if a.Planned? && a.kind.Register? then Max(below, rent(a.sizeAfter)) else below
  }

  lemma {:induction false} LamportsAreHighWater(c: Chain, rents: map<nat, nat>, rent: nat -> nat, n: nat)
    requires c.config.Config? && n <= 4 && StepsTo(c, rents, n).Next? &&
      forall len :: len in rents ==> rents[len] == rent(len)
    ensures StepsTo(c, rents, n).work.lamports == HighWater(c.config.lamports, StepsTo(c, rents, n).work.actions, rent)
    decreases n
  {
    if n > 0 {
      var v, w, a := StepAdds(c, rents, rent, n);
      LamportsAreHighWater(c, rents, rent, n - 1);
      StepShape(c, rents, v, KindAt(n - 1), w, a);
      HighWaterStep(c.config.lamports, v.actions, a, rent);
    }
  }

  lemma HighWaterStep(lamports: nat, actions: seq<Action>, a: Action, rent: nat -> nat)
    ensures HighWater(lamports, actions + [a], rent) ==
      if a.Planned? && a.kind.Register? then Max(HighWater(lamports, actions, rent), rent(a.sizeAfter))
        else HighWater(lamports, actions, rent)
  {
    assert (actions + [a])[..|actions|] == actions;
  }

  lemma {:induction false} HighWaterCovers(lamports: nat, actions: seq<Action>, rent: nat -> nat, i: nat)
    requires i < |actions| && actions[i].Planned? && actions[i].kind.Register?
    ensures HighWater(lamports, actions, rent) >= rent(actions[i].sizeAfter)
    ensures HighWater(lamports, actions, rent) >= lamports
    decreases |actions|
  {
    HighWaterAbove(lamports, actions, rent);
    if i < |actions| - 1 { HighWaterCovers(lamports, actions[..|actions| - 1], rent, i); }
  }

  lemma {:induction false} HighWaterAbove(lamports: nat, actions: seq<Action>, rent: nat -> nat)
    ensures HighWater(lamports, actions, rent) >= lamports
    decreases |actions|
  {
    if actions != [] { HighWaterAbove(lamports, actions[..|actions| - 1], rent); }
  }

  lemma PrefixOfAppended(actions: seq<Action>, a: Action, m: nat)
    requires m <= |actions|
    ensures (actions + [a])[..m] == actions[..m] && |actions + [a]| == |actions| + 1
  {
  }

  /** Each step of the plan adds one action. */
  lemma {:induction false} ActionsPrefix(c: Chain, rents: map<nat, nat>, rent: nat -> nat, m: nat, n: nat)
    requires c.config.Config? && m <= n <= 4 && StepsTo(c, rents, n).Next?
    ensures StepsTo(c, rents, m).Next? && |StepsTo(c, rents, m).work.actions| == m
    ensures |StepsTo(c, rents, n).work.actions| == n &&
      StepsTo(c, rents, n).work.actions[..m] == StepsTo(c, rents, m).work.actions
    decreases n
  {
    if n > 0 {
      var v, w, a := StepAdds(c, rents, rent, n);
      ActionsPrefix(c, rents, rent, if m < n then m else n - 1, n - 1);
      PrefixOfAppended(v.actions, a, if m < n then m else n - 1);
      assert m == n ==> w.actions[..m] == w.actions;
    }
  }

  lemma {:induction false} RunsDown(c: Chain, m: nat, n: nat)
    requires c.config.Config? && m <= n <= 4 && Runs(c, n)
    ensures Runs(c, m)
  {
  }

  lemma {:induction false} RentGrows(actions: seq<Action>, n: nat)
    requires n <= |actions|
    ensures TotalRent(actions[..n]) <= TotalRent(actions)
    decreases |actions|
  {
    if n == |actions| {
      assert actions[..n] == actions;
    } else {
      RentGrows(actions[..|actions| - 1], n);
      assert actions[..|actions| - 1][..n] == actions[..n];
    }
  }

  /** A step that registers plans the size it works out, and covers its rent. */
  lemma PlannedSize(c: Chain, rents: map<nat, nat>, rent: nat -> nat, n: nat)
    requires c.config.Config? && Fetched(c, rents, rent) && 3 <= n <= 4 && StepsTo(c, rents, n).Next?
    requires !Registered(c.config.sources, c.Id(ModeAt(n - 3)))
    ensures var w := StepsTo(c, rents, n).work;
      && |w.actions| == n && w.actions[n - 1].Planned?
      && w.len == w.actions[n - 1].sizeAfter && w.lamports >= rent(w.len)
  {
    ActionsPrefix(c, rents, rent, n, n);
    var v, w, a := StepAdds(c, rents, rent, n);
    StepShape(c, rents, v, KindAt(n - 1), w, a);
  }

  /** Once sent, it leaves the config at that size with that rent. */
  lemma ResizeIsExempt(c: Chain, rents: map<nat, nat>, rent: nat -> nat, n: nat)
    requires Admission(c).None? && c.fp != c.asc && Fetched(c, rents, rent) && 3 <= n <= 4 && StepsTo(c, rents, n).Next?
    requires var w := StepsTo(c, rents, n).work; Runs(c, n) && TotalRent(w.actions) <= c.payer
    requires !Registered(c.config.sources, c.Id(ModeAt(n - 3)))
    ensures var w := StepsTo(c, rents, n).work;
      && |w.actions| == n && w.actions[n - 1].Planned?
      && Execute(c, rent, w.actions) == Some(Reached(c, w, n))
      && w.len == w.actions[n - 1].sizeAfter && w.lamports >= rent(w.len)
  {
    StepsExecute(c, rents, rent, n);
    PlannedSize(c, rents, rent, n);
  }

  /** Right after action i of the plan, a config it grew has the planned size and is rent-exempt at it. */
  ghost predicate ExemptAfter(c: Chain, rent: nat -> nat, actions: seq<Action>, i: nat)
    requires i < |actions|
  {
    var e := Execute(c, rent, actions[..i + 1]);
    actions[i].Planned? && actions[i].kind.Register? ==>
      && e.Some? && e.value.config.Config?
      && e.value.config.len == actions[i].sizeAfter && e.value.config.lamports >= rent(e.value.config.len)
  }

  lemma StepIsExempt(c: Chain, rents: map<nat, nat>, rent: nat -> nat, n: nat, actions: seq<Action>)
    requires Admission(c).None? && c.fp != c.asc && Fetched(c, rents, rent) && 1 <= n <= 4 && StepsTo(c, rents, n).Next?
    requires actions == StepsTo(c, rents, n).work.actions && Runs(c, n) && TotalRent(actions) <= c.payer
    ensures |actions| == n && ExemptAfter(c, rent, actions, n - 1)
  {
    KindOfAction(c, rents, rent, n);
    assert actions[..n] == actions;
    if actions[n - 1].Planned? && actions[n - 1].kind.Register? { ResizeIsExempt(c, rents, rent, n); }
  }

  lemma ExemptInPrefix(c: Chain, rent: nat -> nat, actions: seq<Action>, i: nat)
    requires i < |actions| && ExemptAfter(c, rent, actions[..i + 1], i)
    ensures ExemptAfter(c, rent, actions, i)
  {
    assert actions[..i + 1][..i + 1] == actions[..i + 1];
  }

  lemma EachResizeIsExempt(c: Chain, rents: map<nat, nat>, rent: nat -> nat, w: Work, i: nat)
    requires Admission(c).None? && c.fp != c.asc && Fetched(c, rents, rent) && StepsTo(c, rents, 4) == Next(w)
    requires Runs(c, 4) && TotalRent(w.actions) <= c.payer && i < 4
    ensures |w.actions| == 4 && ExemptAfter(c, rent, w.actions, i)
  {
    ActionsPrefix(c, rents, rent, 4, 4);
    ActionsPrefix(c, rents, rent, i + 1, 4);
    RunsDown(c, i + 1, 4);
    RentGrows(w.actions, i + 1);
    StepIsExempt(c, rents, rent, i + 1, w.actions[..i + 1]);
    ExemptInPrefix(c, rent, w.actions, i);
  }

  lemma KindOfAction(c: Chain, rents: map<nat, nat>, rent: nat -> nat, n: nat)
    requires c.config.Config? && 1 <= n <= 4 && StepsTo(c, rents, n).Next?
    ensures var actions := StepsTo(c, rents, n).work.actions;
      && |actions| == n && actions[n - 1].kind == KindAt(n - 1)
      && (actions[n - 1].Planned? && actions[n - 1].kind.Register? ==>
        !Registered(c.config.sources, c.Id(ModeAt(n - 3))))
  {
    ActionsPrefix(c, rents, rent, n, n);
    var v, w, a := StepAdds(c, rents, rent, n);
    StepShape(c, rents, v, KindAt(n - 1), w, a);
  }

  /**
   When an action of a finished plan has resized the config, the config has the planned size and at least
   its rent; at the end it has the largest of its balance and every rent minimum on the way, and the payer
   has paid the planned total.
   */
  lemma RentIsExact(c: Chain, rents: map<nat, nat>, rent: nat -> nat, d: Chain)
    requires Finished(c, rents, rent, d)
    ensures forall i :: 0 <= i < |Plan(c, rents).actions| ==> ExemptAfter(c, rent, Plan(c, rents).actions, i)
    ensures d.config.Config? && d.config.lamports == HighWater(c.config.lamports, Plan(c, rents).actions, rent)
    ensures d.payer + Plan(c, rents).total == c.payer
  {
    var w := AcceptedPlanRuns(c, rents, rent);
    LamportsAreHighWater(c, rents, rent, 4);
    ActionsPrefix(c, rents, rent, 4, 4);
    forall i | 0 <= i < |w.actions| ensures ExemptAfter(c, rent, w.actions, i) {
      EachResizeIsExempt(c, rents, rent, w, i);
    }
  }

  /** So the final balance covers the rent of every size the config went through. */
  lemma FinalBalanceCovers(c: Chain, rents: map<nat, nat>, rent: nat -> nat, d: Chain, i: nat)
    requires Finished(c, rents, rent, d) && i < |Plan(c, rents).actions|
    requires Plan(c, rents).actions[i].Planned? && Plan(c, rents).actions[i].kind.Register?
    ensures d.config.Config? && d.config.lamports >= rent(Plan(c, rents).actions[i].sizeAfter)
  {
    RentIsExact(c, rents, rent, d);
    HighWaterCovers(c.config.lamports, Plan(c, rents).actions, rent, i);
  }

  // ---------------------------------------------------------------- readback

  ghost predicate DistinctPrograms(sources: seq<Source>) {
    forall i, j :: 0 <= i < j < |sources| ==> sources[i].program != sources[j].program
  }

  /** The program adds no program twice. */
  lemma AddKeepsDistinct(c: Chain, rent: nat -> nat, s: Source)
    requires c.config.Config? && DistinctPrograms(c.config.sources) && AddSourceOnChain(c, rent, s).Some?
    ensures DistinctPrograms(AddSourceOnChain(c, rent, s).value.config.sources)
  {
  }

  /** The entries at two positions, in registry order; a position at or past the end holds none. */
  function EntriesAt(sources: seq<Source>, i: nat, j: nat): seq<Source> {
    var n := |sources|;
    if i < n && j < n then (if i < j then [sources[i], sources[j]] else [sources[j], sources[i]])
    else if i < n then [sources[i]] else if j < n then [sources[j]] else []
  }

  lemma EntriesAtLast(init: seq<Source>, last: Source, i: nat, j: nat)
    requires i <= |init| + 1 && j <= |init| + 1 && !(i == j == |init|)
    ensures var before := EntriesAt(init, i, j);
      EntriesAt(init + [last], i, j) == if i == |init| || j == |init| then before + [last] else before
  {
    var all := init + [last];
    assert forall k :: 0 <= k < |init| ==> all[k] == init[k];
  }

  /** The mode entries in registry order, read off their positions. */
  ghost predicate EntriesAre(c: Chain, sources: seq<Source>) {
    ModeEntries(c, sources) == EntriesAt(sources, FindSource(sources, c.fp), FindSource(sources, c.asc))
  }

  lemma EntriesAppend(c: Chain, init: seq<Source>, last: Source)
    ensures ModeEntries(c, init + [last]) ==
      ModeEntries(c, init) + if last.program == c.fp || last.program == c.asc then [last] else []
  {
    assert (init + [last])[..|init + [last]| - 1] == init;
  }

  lemma FoundWithLast(init: seq<Source>, last: Source, program: string)
    requires !Registered(init, last.program)
    ensures FindSource(init + [last], program) == if program == last.program || FindSource(init, program) < |init|
                                                  then FindSource(init, program) else |init| + 1
  {
    FoundInAppended(init, [last], program);
    assert [last][1..] == [] && FindSource([], program) == 0;
  }

  lemma EntriesStep(c: Chain, init: seq<Source>, last: Source)
    requires c.fp != c.asc && EntriesAre(c, init) && !Registered(init, last.program)
    ensures EntriesAre(c, init + [last])
  {
    EntriesAppend(c, init, last);
    FoundWithLast(init, last, c.fp);
    FoundWithLast(init, last, c.asc);
    var i, j := FindSource(init + [last], c.fp), FindSource(init + [last], c.asc);
    EntriesAtLast(init, last, i, j);
  }

  lemma {:induction false} EntriesByPosition(c: Chain, sources: seq<Source>)
    requires c.fp != c.asc && DistinctPrograms(sources)
    ensures EntriesAre(c, sources)
    decreases |sources|
  {
    if sources != [] {
      var init, last := sources[..|sources| - 1], sources[|sources| - 1];
      DistinctInit(sources);
      EntriesByPosition(c, init);
      EntriesStep(c, init, last);
      assert sources == init + [last];
    }
  }

  lemma DistinctInit(sources: seq<Source>)
    requires DistinctPrograms(sources) && sources != []
    ensures DistinctPrograms(sources[..|sources| - 1]) &&
      !Registered(sources[..|sources| - 1], sources[|sources| - 1].program)
  {
    var init := sources[..|sources| - 1];
    forall i | 0 <= i < |init| ensures init[i].program != sources[|sources| - 1].program {
      assert init[i] == sources[i];
    }
  }

  /** FixedPrice before Ascending wherever Ascending is registered. */
  predicate FixedPriceFirst(c: Chain, sources: seq<Source>) {
    Registered(sources, c.asc) ==> FindSource(sources, c.fp) < FindSource(sources, c.asc)
  }

  lemma ModesKeepDistinct(c: Chain, sources: seq<Source>)
    requires c.fp != c.asc && DistinctPrograms(sources)
    ensures DistinctPrograms(WithModes(c, sources))
  {
  }

  /** The readback after a finished run passes exactly when Ascending was not registered first at the start. */
  lemma ReadbackIff(c: Chain, rents: map<nat, nat>, rent: nat -> nat, d: Chain)
    requires Finished(c, rents, rent, d) && DistinctPrograms(c.config.sources)
    ensures Readback(d) <==> FixedPriceFirst(c, c.config.sources)
  {
    RegistryAfter(c, rents, rent, d);
    ReadbackOf(c, d);
  }

  lemma ReadbackOf(c: Chain, d: Chain)
    requires c.config.Config? && d.config.Config? && DistinctPrograms(c.config.sources) && c.fp != c.asc
    requires d.fp == c.fp && d.asc == c.asc && d.passport == c.passport &&
      d.fpBinding == d.ascBinding == Bound(c.passport)
    requires d.config.sources == WithModes(c, c.config.sources)
    requires HasSource(d.config.sources, c.fp, FIXED_PRICE_PREFIX) &&
      HasSource(d.config.sources, c.asc, ASCENDING_PREFIX)
    ensures Readback(d) <==> FixedPriceFirst(c, c.config.sources)
  {
    ModesFound(c, c.config.sources);
    ModesKeepDistinct(c, c.config.sources);
    EntriesByPosition(d, d.config.sources);
  }
}
