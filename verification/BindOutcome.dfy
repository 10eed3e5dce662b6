/**
 The bind-modes plan in closed form (scripts/svm-devnet-bind-modes.ts, planBindModes): for every chain the exact
 four actions, or the exact refusal, by the fields of the chain; and the size of the config from its Borsh layout.
 */
module BindOutcome {
  import opened Common
  import opened Bytes
  import opened BindModes

  // ---------------------------------------------------------------- the size of the config

  /** The fields of PassportConfig before its registry, and its bump. */
  datatype Fields = Fields(discriminator: seq<byte>, authority: seq<byte>, namespace: nat, localEid: nat,
                           endpoint: seq<byte>, deposit: nat, staking: seq<byte>, gateway: seq<byte>,
                           forfeit: seq<byte>, nextTokenId: seq<byte>, bump: byte)

  ghost predicate Sized(f: Fields) {
    && |f.discriminator| == 8 && |f.authority| == |f.endpoint| == |f.staking| == |f.gateway| == |f.forfeit| == 32
    && |f.nextTokenId| == 32
  }

  /** An entry: the program's 32 bytes, the length of the seed prefix and the prefix. */
  function EncodeEntry(s: Source, key: string -> seq<byte>, text: string -> seq<byte>): seq<byte> {
    key(s.program) + ToLE(|text(s.prefix)|, 4) + text(s.prefix)
  }

  function EncodeEntries(sources: seq<Source>, key: string -> seq<byte>, text: string -> seq<byte>): seq<byte> {
    if sources == [] then []
    else EncodeEntry(sources[0], key, text) + EncodeEntries(sources[1..], key, text)
  }

  function EncodeConfig(f: Fields, sources: seq<Source>, key: string -> seq<byte>,
      text: string -> seq<byte>): seq<byte> {
    f.discriminator + f.authority + ToLE(f.namespace, 16) + ToLE(f.localEid, 4) + f.endpoint + ToLE(f.deposit, 8)
    + f.staking + f.gateway + f.forfeit + f.nextTokenId
    + ToLE(|sources|, 4) + EncodeEntries(sources, key, text) + [f.bump]
  }

  lemma {:induction false} EntriesSize(sources: seq<Source>, key: string -> seq<byte>, text: string -> seq<byte>)
    requires forall p :: |key(p)| == 32 && |text(p)| == |p|
    ensures |EncodeEntries(sources, key, text)| == EntryBytes(sources)
    decreases |sources|
  {
    if sources != [] {
      EntriesSize(sources[1..], key, text);
      EntryBytesFirst(sources);
    }
  }

  lemma {:induction false} EntryBytesFirst(sources: seq<Source>)
    requires sources != []
    ensures EntryBytes(sources) == 36 + |sources[0].prefix| + EntryBytes(sources[1..])
    decreases |sources|
  {
    if |sources| == 1 {
      assert sources[..0] == [] && sources[1..] == [];
    } else {
      EntryBytesFirst(sources[..|sources| - 1]);
      assert sources[..|sources| - 1][1..] == sources[1..][..|sources| - 2];
    }
  }

  /** The size the planner and the program work with is the length of the encoded config. */
  lemma ConfigSize(f: Fields, sources: seq<Source>, key: string -> seq<byte>, text: string -> seq<byte>)
    requires Sized(f) && forall p :: |key(p)| == 32 && |text(p)| == |p|
    ensures |EncodeConfig(f, sources, key, text)| == EncodedLen(sources)
  {
    EntriesSize(sources, key, text);
  }

  // ---------------------------------------------------------------- what the plan says

  ghost predicate Decodes(c: Chain) {
    c.config.Config? && c.fpConfig.ModeConfig? && c.ascConfig.ModeConfig?
  }

  ghost predicate SameAuthority(c: Chain)
    requires Decodes(c)
  {
    c.config.authority == c.authority && c.fpConfig.authority == c.authority && c.ascConfig.authority == c.authority
  }

  ghost predicate BoundElsewhere(b: Binding, passport: string) {
    b.Bound? && b.passport != passport
  }

  /** The accounts decode, the authority is one, and neither mode is bound to another program. */
  ghost predicate Admitted(c: Chain) {
    && Decodes(c) && SameAuthority(c)
    && !BoundElsewhere(c.fpBinding, c.passport) && !BoundElsewhere(c.ascBinding, c.passport)
  }

  ghost predicate Known(sources: seq<Source>, program: string) {
    exists i :: 0 <= i < |sources| && sources[i].program == program
  }

  /** The first entry of the program has another prefix. */
  ghost predicate WrongPrefix(sources: seq<Source>, program: string, prefix: string) {
    exists i ::
      0 <= i < |sources| && sources[i].program == program && sources[i].prefix != prefix
      && forall j :: 0 <= j < i ==> sources[j].program != program
  }

  /** One more entry fits: there are fewer than 8, and the account grows by at most 10240 bytes. */
  ghost predicate Fits(sources: seq<Source>, len: nat, s: Source) {
    |sources| < 8 && EncodedLen(sources + [s]) - len <= 10240
  }

  function FpSource(c: Chain): Source { Source(c.fp, "fp-ans") }
  function AscSource(c: Chain): Source { Source(c.asc, "asc-ans") }

  /** The registry and the size and balance of its account once FixedPrice is registered. */
  ghost function WithFp(c: Chain, rent: nat -> nat): (r: (seq<Source>, nat, nat))
    requires c.config.Config?
  {
    var s, len, lamports := c.config.sources, c.config.len, c.config.lamports;
    if Known(s, c.fp) then (s, len, lamports)
    else
      var more := s + [FpSource(c)];
      (more, EncodedLen(more), Max(lamports, rent(EncodedLen(more))))
  }

  ghost predicate FpFits(c: Chain)
    requires c.config.Config?
  {
    Known(c.config.sources, c.fp) || Fits(c.config.sources, c.config.len, FpSource(c))
  }

  ghost predicate AscFits(c: Chain, rent: nat -> nat)
    requires c.config.Config?
  {
    var w := WithFp(c, rent);
    Known(c.config.sources, c.asc) || Fits(w.0, w.1, AscSource(c))
  }

  ghost predicate FpWrong(c: Chain)
    requires c.config.Config?
  {
    WrongPrefix(c.config.sources, c.fp, "fp-ans")
  }

  ghost predicate AscWrong(c: Chain)
    requires c.config.Config?
  {
    WrongPrefix(c.config.sources, c.asc, "asc-ans")
  }

  /** The two bindings: done, or an account of 41 bytes with its rent. */
  function BindAction(b: Binding, m: Mode, rent: nat -> nat): Action {
    if b.Bound? then AlreadyDone(Bind(m)) else Planned(Bind(m), 0, 41, rent(41))
  }

  ghost function FpAction(c: Chain, rent: nat -> nat): Action
    requires c.config.Config?
  {
    if Known(c.config.sources, c.fp) then AlreadyDone(Register(FixedPrice))
    else
      var len := EncodedLen(c.config.sources + [FpSource(c)]);
      Planned(Register(FixedPrice), c.config.len, len, Max(0, rent(len) - c.config.lamports))
  }

  ghost function AscAction(c: Chain, rent: nat -> nat): Action
    requires c.config.Config?
  {
    if Known(c.config.sources, c.asc) then AlreadyDone(Register(Ascending))
    else
      var w := WithFp(c, rent);
      var len := EncodedLen(w.0 + [AscSource(c)]);
      Planned(Register(Ascending), w.1, len, Max(0, rent(len) - w.2))
  }

  function RentOf(a: Action): nat { if a.Planned? then a.rentTopUp else 0 }

  ghost function Four(c: Chain, rent: nat -> nat): seq<Action>
    requires c.config.Config?
  {
    [BindAction(c.fpBinding, FixedPrice, rent), BindAction(c.ascBinding, Ascending, rent), FpAction(c, rent),
      AscAction(c, rent)]
  }

  ghost function Total(c: Chain, rent: nat -> nat): nat
    requires c.config.Config?
  {
    RentOf(BindAction(c.fpBinding, FixedPrice, rent)) + RentOf(BindAction(c.ascBinding, Ascending, rent))
    + RentOf(FpAction(c, rent)) + RentOf(AscAction(c, rent))
  }

  // ---------------------------------------------------------------- steps

  lemma KnownIs(sources: seq<Source>, program: string, prefix: string)
    ensures var i := FindSource(sources, program);
      && (Known(sources, program) <==> i < |sources|)
      && (WrongPrefix(sources, program, prefix) <==> i < |sources| && sources[i].prefix != prefix)
  {
    var i := FindSource(sources, program);
    if WrongPrefix(sources, program, prefix) {
      var j :| 0 <= j < |sources| && sources[j].program == program && sources[j].prefix != prefix
               && forall k :: 0 <= k < j ==> sources[k].program != program;
      assert i == j;
    }
  }

  lemma BindIs(c: Chain, rents: map<nat, nat>, rent: nat -> nat, w: Work, m: Mode)
    requires 41 in rents && rents[41] == rent(41)
    ensures BindStep(c, rents, w, m) ==
      if BoundElsewhere(c.BindingOf(m), c.passport) then Stop(Refused(BindingForeignProgram))
      else Next(w.(actions := w.actions + [BindAction(c.BindingOf(m), m, rent)]))
  {
  }

  lemma FpIs(c: Chain, rents: map<nat, nat>, rent: nat -> nat, w: Work)
    requires c.config.Config? && Fetched(c, rents, rent) && w.(actions := []) == Start(c)
    ensures RegisterStep(c, rents, w, FixedPrice) ==
      if FpWrong(c) then Stop(Refused(SourcePrefixMismatch))
      else if !FpFits(c) then Stop(Refused(ConfigCannotGrow))
      else
        var x := WithFp(c, rent);
        Next(Work(w.actions + [FpAction(c, rent)], x.0, x.1, x.2))
  {
    KnownIs(c.config.sources, c.fp, "fp-ans");
    FetchedLens(c, rents, rent);
  }

  lemma AscIs(c: Chain, rents: map<nat, nat>, rent: nat -> nat, w: Work)
    requires c.config.Config? && Fetched(c, rents, rent)
    requires var x := WithFp(c, rent); w.sources == x.0 && w.len == x.1 && w.lamports == x.2
    ensures var r := RegisterStep(c, rents, w, Ascending);
      if AscWrong(c) then r == Stop(Refused(SourcePrefixMismatch))
      else if !AscFits(c, rent) then r == Stop(Refused(ConfigCannotGrow))
      else r.Next? && r.work.actions == w.actions + [AscAction(c, rent)]
  {
    KnownIs(c.config.sources, c.asc, "asc-ans");
    FetchedLens(c, rents, rent);
    RegisterUnfolds(c, rents, w, Ascending, "asc-ans");
  }

  /** A registration by the place of the program in the registry. */
  lemma RegisterUnfolds(c: Chain, rents: map<nat, nat>, w: Work, m: Mode, prefix: string)
    requires c.config.Config? && prefix == PrefixOf(m)
    ensures var i, r := FindSource(c.config.sources, c.Id(m)), RegisterStep(c, rents, w, m);
      var len := EncodedLen(w.sources + [Source(c.Id(m), prefix)]);
      if i < |c.config.sources| then
        r == if c.config.sources[i].prefix != prefix then Stop(Refused(SourcePrefixMismatch))
             else Next(w.(actions := w.actions + [AlreadyDone(Register(m))]))
      else if |w.sources| >= 8 || len - w.len > 10240 then r == Stop(Refused(ConfigCannotGrow))
      else len in rents ==>
        r.Next? && r.work.actions == w.actions + [Planned(Register(m), w.len, len, Max(0, rents[len] - w.lamports))]
  {
  }

  /** Every size that comes up was fetched. */
  lemma FetchedLens(c: Chain, rents: map<nat, nat>, rent: nat -> nat)
    requires c.config.Config? && Fetched(c, rents, rent)
    ensures 41 in rents && rents[41] == rent(41)
    ensures !Known(c.config.sources, c.fp) ==>
      var len := EncodedLen(c.config.sources + [FpSource(c)]); len in rents && rents[len] == rent(len)
    ensures !Known(c.config.sources, c.asc) ==>
      var len := EncodedLen(WithFp(c, rent).0 + [AscSource(c)]); len in rents && rents[len] == rent(len)
  {
    KnownIs(c.config.sources, c.fp, "fp-ans");
    KnownIs(c.config.sources, c.asc, "asc-ans");
  }

  // ---------------------------------------------------------------- the closed form

  /** Where the four steps end. */
  lemma StepsAre(c: Chain, rents: map<nat, nat>, rent: nat -> nat)
    requires c.config.Config? && Fetched(c, rents, rent)
    ensures var s := StepsTo(c, rents, 4);
      if BoundElsewhere(c.fpBinding, c.passport) || BoundElsewhere(c.ascBinding, c.passport) then
        s == Stop(Refused(BindingForeignProgram))
      else if FpWrong(c) then s == Stop(Refused(SourcePrefixMismatch))
      else if !FpFits(c) then s == Stop(Refused(ConfigCannotGrow))
      else if AscWrong(c) then s == Stop(Refused(SourcePrefixMismatch))
      else if !AscFits(c, rent) then s == Stop(Refused(ConfigCannotGrow))
      else s.Next? && s.work.actions == Four(c, rent)
  {
    FetchedLens(c, rents, rent);
    var w0 := Start(c);
    var w1 := w0.(actions := [BindAction(c.fpBinding, FixedPrice, rent)]);
    var w2 := w0.(actions := [BindAction(c.fpBinding, FixedPrice, rent), BindAction(c.ascBinding, Ascending, rent)]);
    BindIs(c, rents, rent, w0, FixedPrice);
    BindIs(c, rents, rent, w1, Ascending);
    BindsAre(c, rents, rent, w0, w1, w2);
    FpIs(c, rents, rent, w2);
    var x := WithFp(c, rent);
    AscIs(c, rents, rent, Work(w2.actions + [FpAction(c, rent)], x.0, x.1, x.2));
    LastTwo(c, rents, w2);
  }

  lemma BindsAre(c: Chain, rents: map<nat, nat>, rent: nat -> nat, w0: Work, w1: Work, w2: Work)
    requires c.config.Config? && w0 == Start(c) && w1 == w0.(actions := [BindAction(c.fpBinding, FixedPrice, rent)])
    requires w2 ==
      w0.(actions := [BindAction(c.fpBinding, FixedPrice, rent), BindAction(c.ascBinding, Ascending, rent)])
    requires 41 in rents && rents[41] == rent(41)
    ensures StepsTo(c, rents, 2) ==
      if BoundElsewhere(c.fpBinding, c.passport) || BoundElsewhere(c.ascBinding, c.passport) then
        Stop(Refused(BindingForeignProgram))
      else Next(w2)
  {
    assert StepsTo(c, rents, 0) == Next(w0);
    assert [] + [BindAction(c.fpBinding, FixedPrice, rent)] == w1.actions;
    assert StepsTo(c, rents, 1) == BindStep(c, rents, w0, FixedPrice);
    assert w1.actions + [BindAction(c.ascBinding, Ascending, rent)] == w2.actions;
    BindIs(c, rents, rent, w0, FixedPrice);
    BindIs(c, rents, rent, w1, Ascending);
  }

  lemma LastTwo(c: Chain, rents: map<nat, nat>, w: Work)
    requires c.config.Config?
    ensures StepsTo(c, rents, 2).Stop? ==> StepsTo(c, rents, 4) == StepsTo(c, rents, 2)
    ensures StepsTo(c, rents, 2) == Next(w) ==>
      var s := RegisterStep(c, rents, w, FixedPrice);
      StepsTo(c, rents, 4) == if s.Stop? then s else RegisterStep(c, rents, s.work, Ascending)
  {
    assert StepsTo(c, rents, 3) ==
      if StepsTo(c, rents, 2).Stop? then StepsTo(c, rents, 2)
      else RegisterStep(c, rents, StepsTo(c, rents, 2).work, FixedPrice);
  }

  lemma FourRent(a: Action, b: Action, c: Action, d: Action)
    ensures TotalRent([a, b, c, d]) == RentOf(a) + RentOf(b) + RentOf(c) + RentOf(d)
  {
    var s := [a, b, c, d];
    assert s[..3][..2] == s[..2] && s[..2][..1] == s[..1] && s[..1][..0] == [];
    assert TotalRent(s[..1]) == RentOf(a);
    assert TotalRent(s[..2]) == RentOf(a) + RentOf(b);
    assert TotalRent(s[..3]) == RentOf(a) + RentOf(b) + RentOf(c);
  }

  /**
   The plan of every chain whose rents were fetched: the four actions with their sizes and rents, exactly when the
   accounts decode under one authority, nothing is bound or registered otherwise, the entries fit and the payer
   has the rent; and otherwise which refusal.
   */
  lemma PlanIs(c: Chain, rents: map<nat, nat>, rent: nat -> nat)
    requires c.config.Config? ==> Fetched(c, rents, rent)
    ensures var r := Plan(c, rents);
      && (r == Refused(ConfigDiscriminatorMismatch) <==> c.config.ConfigWrongTag?)
      && (r == Refused(ModeConfigDiscriminatorMismatch) <==>
            c.config.Config? && (c.fpConfig.ModeWrongTag? || (c.fpConfig.ModeConfig? && c.ascConfig.ModeWrongTag?)))
      && (r == Refused(ModeConfigNotFound) <==>
            c.config.Config? && (c.fpConfig.ModeMalformed? || (c.fpConfig.ModeConfig? && c.ascConfig.ModeMalformed?)))
      && (r == Refused(AuthorityMismatch) <==> Decodes(c) && !SameAuthority(c))
      && (r == Refused(BindingForeignProgram) <==> Decodes(c) && SameAuthority(c) && !Admitted(c))
      && (r == Refused(SourcePrefixMismatch) <==> Admitted(c) && (FpWrong(c) || (FpFits(c) && AscWrong(c))))
      && (r == Refused(ConfigCannotGrow) <==>
            || c.config.ConfigMalformed?
            || (Admitted(c) && !FpWrong(c) && (!FpFits(c) || (!AscWrong(c) && !AscFits(c, rent)))))
      && (r == Refused(PayerCannotCoverRent) <==> Plannable(c, rent) && c.payer < Total(c, rent))
      && (r.Ok? <==> Plannable(c, rent) && Total(c, rent) <= c.payer)
      && (r.Ok? ==> r.actions == Four(c, rent) && r.total == Total(c, rent))
  {
    if c.config.Config? {
      StepsAre(c, rents, rent);
      var f := Four(c, rent);
      FourRent(f[0], f[1], f[2], f[3]);
    }
  }

  ghost predicate Plannable(c: Chain, rent: nat -> nat) {
    Admitted(c) && !FpWrong(c) && FpFits(c) && !AscWrong(c) && AscFits(c, rent)
  }
}
