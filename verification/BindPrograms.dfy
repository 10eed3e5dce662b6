/**
 What the programs behind the bind-modes plan do (svm/programs), by the fields of the accounts; and what the rent
 prefetch and the readback (scripts/svm-devnet-bind-modes.ts) have to do with the plan.
 */
module BindPrograms {
  import opened Common
  import opened BindModes
  import opened BindOutcome

  // ---------------------------------------------------------------- the two instructions

  /** A mode is bound once: to this passport, by its authority, in a new account that the payer funds. */
  lemma BindMeans(c: Chain, rent: nat -> nat, m: Mode)
    ensures var r := BindOnChain(c, rent, m);
      && (r.Some? <==>
            && (m == FixedPrice ==> c.fpConfig == ModeConfig(c.authority) && c.fpBinding == Absent)
            && (m == Ascending ==> c.ascConfig == ModeConfig(c.authority) && c.ascBinding == Absent)
            && rent(41) <= c.payer)
      && (r.Some? ==>
            && r.value == c.(fpBinding := r.value.fpBinding, ascBinding := r.value.ascBinding, payer := r.value.payer)
            && r.value.fpBinding == (if m == FixedPrice then Bound(c.passport) else c.fpBinding)
            && r.value.ascBinding == (if m == Ascending then Bound(c.passport) else c.ascBinding)
            && r.value.payer + rent(41) == c.payer)
  {
  }

  /**
   A source is added exactly when the account is its own encoding under the authority, the prefix has 1 to 32 bytes,
   there are fewer than 8 entries and none of the program, and payer and account together have the rent. The account
   grows by the entry, holds the larger of its balance and the rent, and no lamport is lost between the two.
   */
  lemma AddSourceMeans(c: Chain, rent: nat -> nat, s: Source)
    ensures var r := AddSourceOnChain(c, rent, s);
      && (r.Some? <==>
            && c.config.Config? && c.config.len == EncodedLen(c.config.sources) && c.config.authority == c.authority
            && 1 <= |s.prefix| <= 32 && |c.config.sources| < 8 && !Known(c.config.sources, s.program)
            && rent(c.config.len + 36 + |s.prefix|) <= c.payer + c.config.lamports)
      && (r.Some? ==>
            var d, len := r.value.config, c.config.len + 36 + |s.prefix|;
            && r.value == c.(config := d, payer := r.value.payer) && d.Config? && d.authority == c.config.authority
            && d.sources == c.config.sources + [s] && d.len == len && d.lamports == Max(c.config.lamports, rent(len))
            && r.value.payer + d.lamports == c.payer + c.config.lamports)
  {
    if c.config.Config? {
      KnownIs(c.config.sources, s.program, "");
      var sources := c.config.sources + [s];
      assert sources[..|sources| - 1] == c.config.sources;
      assert EncodedLen(sources) == EncodedLen(c.config.sources) + 36 + |s.prefix|;
    }
  }

  // ---------------------------------------------------------------- the prefetch

  function SizesAfter(actions: seq<Action>): set<nat> {
    set a | a in actions && a.Planned? :: a.sizeAfter
  }

  /** Rents are fetched for a binding, for the config as it is, and for the sizes the plan gives it, and no other. */
  lemma PrefetchIsPlanned(c: Chain, rents: map<nat, nat>, rent: nat -> nat)
    requires c.config.Config? && Fetched(c, rents, rent) && Plan(c, rents).Ok?
    ensures PrefetchLens(c) == {41, c.config.len} + SizesAfter(Plan(c, rents).actions)
  {
    PlanIs(c, rents, rent);
    KnownIs(c.config.sources, c.fp, "fp-ans");
    KnownIs(c.config.sources, c.asc, "asc-ans");
    var f := Four(c, rent);
    FourSizes(f[0], f[1], f[2], f[3]);
    assert f == [f[0], f[1], f[2], f[3]];
  }

  lemma FourSizes(a: Action, b: Action, c: Action, d: Action)
    ensures SizesAfter([a, b, c, d]) == SizeOf(a) + SizeOf(b) + SizeOf(c) + SizeOf(d)
  {
    assert forall x :: x in [a, b, c, d] <==> x == a || x == b || x == c || x == d;
  }

  function SizeOf(a: Action): set<nat> { if a.Planned? then {a.sizeAfter} else {} }

  // ---------------------------------------------------------------- the readback

  function NothingToDo(): seq<Action> {
    [AlreadyDone(Bind(FixedPrice)), AlreadyDone(Bind(Ascending)),
      AlreadyDone(Register(FixedPrice)), AlreadyDone(Register(Ascending))]
  }

  ghost predicate OfMode(c: Chain, s: Source) { s.program == c.fp || s.program == c.asc }

  lemma {:induction false} EntriesOf(c: Chain, a: seq<Source>, b: seq<Source>)
    ensures ModeEntries(c, a + b) == ModeEntries(c, a) + ModeEntries(c, b)
    decreases |b|
  {
    if b == [] {
      assert a + b == a;
    } else {
      EntriesOf(c, a, b[..|b| - 1]);
      assert (a + b)[..|a + b| - 1] == a + b[..|b| - 1];
    }
  }

  lemma {:induction false} NoEntries(c: Chain, a: seq<Source>)
    requires forall k :: 0 <= k < |a| ==> a[k].program != c.fp && a[k].program != c.asc
    ensures ModeEntries(c, a) == []
    decreases |a|
  {
    if a != [] { NoEntries(c, a[..|a| - 1]); }
  }

  /** The first entry of a mode, if any. */
  lemma FirstEntry(c: Chain, s: seq<Source>) returns (i: nat)
    ensures i <= |s| && forall k :: 0 <= k < i ==> s[k].program != c.fp && s[k].program != c.asc
    ensures i < |s| ==> s[i].program == c.fp || s[i].program == c.asc
    ensures ModeEntries(c, s) == if i < |s| then [s[i]] + ModeEntries(c, s[i + 1..]) else []
  {
    i := FindSource(s, c.fp);
    if FindSource(s, c.asc) < i { i := FindSource(s, c.asc); }
    NoEntries(c, s[..i]);
    if i < |s| {
      SplitEntries(c, s, i);
    } else {
      assert s[..i] == s;
    }
  }

  lemma SplitEntries(c: Chain, s: seq<Source>, i: nat)
    requires i < |s| && (s[i].program == c.fp || s[i].program == c.asc)
    requires ModeEntries(c, s[..i]) == []
    ensures ModeEntries(c, s) == [s[i]] + ModeEntries(c, s[i + 1..])
  {
    assert s == s[..i] + ([s[i]] + s[i + 1..]);
    EntriesOf(c, s[..i], [s[i]] + s[i + 1..]);
    EntriesOf(c, [s[i]], s[i + 1..]);
    assert [s[i]][..0] == [];
    assert ModeEntries(c, [s[i]]) == [s[i]];
  }

  /** The two are entries, in this order, and no other entry of either mode comes before the second. */
  ghost predicate FirstTwo(c: Chain, s: seq<Source>, a: Source, b: Source) {
    exists i, j ::
      0 <= i < j < |s| && s[i] == a && s[j] == b && forall k :: 0 <= k < j && k != i ==> !OfMode(c, s[k])
  }

  lemma TwoEntries(c: Chain, s: seq<Source>) returns (i: nat, j: nat)
    ensures i <= j <= |s| && (i < |s| ==> i < j && OfMode(c, s[i])) && (j < |s| ==> OfMode(c, s[j]))
    ensures forall k :: 0 <= k < j && k != i ==> !OfMode(c, s[k])
    ensures var e := ModeEntries(c, s); (|e| >= 2 <==> j < |s|) && (j < |s| ==> e[0] == s[i] && e[1] == s[j])
  {
    i := FirstEntry(c, s);
    j := |s|;
    if i < |s| {
      var rest := s[i + 1..];
      var n := FirstEntry(c, rest);
      j := i + 1 + n;
      assert n < |rest| ==> rest[n] == s[j];
      forall k | 0 <= k < j && k != i ensures !OfMode(c, s[k]) {
        if i < k { assert s[k] == rest[k - i - 1]; }
      }
    }
  }

  /** The first two of the filtered entries are the first two entries of a mode. */
  lemma EntriesAreFirst(c: Chain, s: seq<Source>, a: Source, b: Source)
    requires OfMode(c, a) && OfMode(c, b)
    ensures var e := ModeEntries(c, s); |e| >= 2 && e[0] == a && e[1] == b <==> FirstTwo(c, s, a, b)
  {
    var i, j := TwoEntries(c, s);
    if FirstTwo(c, s, a, b) {
      var x, y :|
        0 <= x < y < |s| && s[x] == a && s[y] == b && forall k :: 0 <= k < y && k != x ==> !OfMode(c, s[k]);
      SameFirst(c, s, i, j, x, y);
    }
  }

  lemma SameFirst(c: Chain, s: seq<Source>, i: nat, j: nat, x: nat, y: nat)
    requires i <= j <= |s| && (i < |s| ==> i < j && OfMode(c, s[i])) && (j < |s| ==> OfMode(c, s[j]))
    requires x < y < |s| && OfMode(c, s[x]) && OfMode(c, s[y])
    requires forall k :: 0 <= k < j && k != i ==> !OfMode(c, s[k])
    requires forall k :: 0 <= k < y && k != x ==> !OfMode(c, s[k])
    ensures i == x && j == y
  {
  }

  /**
   The readback passes exactly when planning again finds nothing to do and the two modes are the first entries of
   either, FixedPrice before Ascending.
   */
  lemma ReadbackMeans(c: Chain, rents: map<nat, nat>, rent: nat -> nat)
    requires Decodes(c) && SameAuthority(c) && Fetched(c, rents, rent)
    ensures Readback(c) <==>
      && Plan(c, rents) == Ok(NothingToDo(), 0)
      && FirstTwo(c, c.config.sources, Source(c.fp, "fp-ans"), Source(c.asc, "asc-ans"))
  {
    PlanIs(c, rents, rent);
    KnownIs(c.config.sources, c.fp, "fp-ans");
    KnownIs(c.config.sources, c.asc, "asc-ans");
    EntriesAreFirst(c, c.config.sources, Source(c.fp, "fp-ans"), Source(c.asc, "asc-ans"));
    NothingIs(c, rent);
    if Readback(c) { FirstIsFound(c, c.config.sources); }
  }

  /** There is nothing to do exactly when both modes are bound and registered. */
  lemma NothingIs(c: Chain, rent: nat -> nat)
    requires c.config.Config?
    ensures Four(c, rent) == NothingToDo() <==>
      && c.fpBinding.Bound? && c.ascBinding.Bound?
      && Known(c.config.sources, c.fp) && Known(c.config.sources, c.asc)
    ensures Four(c, rent) == NothingToDo() ==> Total(c, rent) == 0
  {
    var f, n := Four(c, rent), NothingToDo();
    assert f == n <==> f[0] == n[0] && f[1] == n[1] && f[2] == n[2] && f[3] == n[3];
  }

  /** The first of the mode entries, when it is of FixedPrice, is the entry the search finds. */
  lemma FirstIsFound(c: Chain, s: seq<Source>)
    requires var e := ModeEntries(c, s); |e| >= 2 && e[0].program == c.fp && e[1].program == c.asc
    requires HasSource(s, c.fp, "fp-ans") && HasSource(s, c.asc, "asc-ans")
    ensures ModeEntries(c, s)[0] == Source(c.fp, "fp-ans") && ModeEntries(c, s)[1] == Source(c.asc, "asc-ans")
  {
    var i := FirstEntry(c, s);
    var rest := s[i + 1..];
    var n := FirstEntry(c, rest);
    assert i == FindSource(s, c.fp);
    assert rest[n] == s[i + 1 + n];
    forall k | 0 <= k < i + 1 + n ensures s[k].program != c.asc {
      if i < k { assert s[k] == rest[k - i - 1]; }
    }
    assert i + 1 + n == FindSource(s, c.asc);
  }
}
