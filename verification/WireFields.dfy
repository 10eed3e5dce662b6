/**
 The wiring pass (scripts/bridge-wire.ts, wireSide) on the fields of the chain and of the snapshot: which error is
 reported when, what each result says, and what a write pass leaves behind.
 */
module WireFields {
  import opened Common
  import opened BridgeWire

  // ---------------------------------------------------------------- the fields of the chain

  /** The config in force for a library: the one set, else the default. */
  ghost predicate Holds(s: Side, c: Chain, lib: string, t: ConfigType, b: ConfigBytes) {
    if (lib, t) in c.configs then c.configs[(lib, t)] == b
    else (lib, t) in s.defaults.configs && s.defaults.configs[(lib, t)] == b
  }

  /** The library asks for the confirmations and exactly the DVNs of the snapshot. */
  ghost predicate HasUln(s: Side, c: Chain, lib: string) {
    exists u: Uln :: Holds(s, c, lib, UlnType, UlnBytes(u)) && u.confirmations == s.confirmations
      && u.requiredDvns == s.dvns && u.requiredCount == |s.dvns| && u.rest == ""
  }

  /** The library hands messages of up to 10000 bytes to the executor of the snapshot. */
  ghost predicate HasExecutor(s: Side, c: Chain, lib: string) {
    Holds(s, c, lib, ExecutorType, ExecutorBytes(10000, s.executor))
  }

  ghost predicate HasOptions(c: Chain, x: Param) {
    if x.msgType in c.options then c.options[x.msgType] == x.options else x.options == "0x"
  }

  ghost predicate SendInForce(s: Side, c: Chain, lib: string) {
    c.sendLib == Some(lib) || (c.sendLib.None? && s.defaults.sendLib == lib)
  }

  ghost predicate ReceiveInForce(s: Side, c: Chain, lib: string) {
    c.recvLib == Some(lib) || (c.recvLib.None? && s.defaults.recvLib == lib)
  }

  /** The chain is as the snapshot asks, field by field. */
  ghost predicate AsAsked(s: Side, c: Chain) {
    && c.peer == s.expectedPeer && c.sendLib == Some(s.targetSend) && c.recvLib == Some(s.targetRecv)
    && HasUln(s, c, s.targetSend) && HasExecutor(s, c, s.targetSend) && HasUln(s, c, s.targetRecv)
    && forall i :: 0 <= i < |s.enforced| ==> HasOptions(c, s.enforced[i])
  }

  lemma UlnMatches(s: Side, c: Chain, lib: string)
    ensures GetConfig(s, c, lib, UlnType) == Some(ExpectedUln(s)) <==> HasUln(s, c, lib)
  {
    var u := Uln(s.confirmations, |s.dvns|, s.dvns, "");
    if GetConfig(s, c, lib, UlnType) == Some(ExpectedUln(s)) { assert Holds(s, c, lib, UlnType, UlnBytes(u)); }
  }

  lemma ConfigsMatch(s: Side, c: Chain)
    ensures SendConfigMatches(s, c) <==> HasUln(s, c, s.targetSend) && HasExecutor(s, c, s.targetSend)
    ensures ReceiveConfigMatches(s, c) <==> HasUln(s, c, s.targetRecv)
  {
    UlnMatches(s, c, s.targetSend);
    UlnMatches(s, c, s.targetRecv);
  }

  lemma WiredIsAsAsked(s: Side, c: Chain)
    ensures Wired(s, c) <==> AsAsked(s, c)
  {
    ConfigsMatch(s, c);
    assert forall i :: 0 <= i < |s.enforced| ==>
      (HasOptions(c, s.enforced[i]) <==> GetOptions(c, s.enforced[i].msgType) == s.enforced[i].options);
  }

  // ---------------------------------------------------------------- errors

  /** What each error says of a chain as it is read. */
  ghost predicate Wrong(s: Side, c: Chain, e: Error) {
    match e
    case RemoteUnknown => !s.remoteKnown
    case PeerNotSet => s.remoteKnown && c.peer != s.expectedPeer
    case ReceiveLibraryChangeRefused => c.recvLib.Some? && c.recvLib.value != s.targetRecv && c.recvLib.value != "0x0"
    case SendIsZero => SendInForce(s, c, "0x0")
    case ReceiveIsZero => ReceiveInForce(s, c, "0x0")
    case SendIsDefault => c.sendLib.None?
    case ReceiveIsDefault => c.recvLib.None?
    case SendMismatch => !SendInForce(s, c, s.targetSend)
    case ReceiveMismatch => !ReceiveInForce(s, c, s.targetRecv)
    case SendConfigNotPinned => !HasUln(s, c, s.targetSend) || !HasExecutor(s, c, s.targetSend)
    case ReceiveConfigNotPinned => !HasUln(s, c, s.targetRecv)
    case DvnCountLow => exists u: Uln :: Holds(s, c, s.targetSend, UlnType, UlnBytes(u)) && u.requiredCount < 2
    case DeadDvnRequired =>
      s.deadDvn.Some? &&
      exists u: Uln :: Holds(s, c, s.targetSend, UlnType, UlnBytes(u)) && s.deadDvn.value in u.requiredDvns
    case UlnUnreadable =>
      !Holds(s, c, s.targetSend, UlnType, Empty) && forall u: Uln :: !Holds(s, c, s.targetSend, UlnType, UlnBytes(u))
    case OptionsNotSet(t) =>
      exists i :: 0 <= i < |s.enforced| && s.enforced[i].msgType == t && !HasOptions(c, s.enforced[i])
  }

  predicate LibraryError(e: Error) {
    || e.SendIsZero? || e.ReceiveIsZero? || e.SendIsDefault? || e.ReceiveIsDefault?
    || e.SendMismatch? || e.ReceiveMismatch?
  }

  lemma LibraryErrorsMean(s: Side, c: Chain, e: Error)
    ensures e in LibraryErrors(s, c) <==>
      LibraryError(e) && Wrong(s, c, e)
  {
    LibraryErrorsAre(s, c, e);
    assert forall lib :: SendInForce(s, c, lib) <==> GetSendLibrary(s, c) == lib;
    assert forall lib :: ReceiveInForce(s, c, lib) <==> GetRecvLibrary(s, c) == lib;
  }

  lemma LibraryErrorsAre(s: Side, c: Chain, e: Error)
    ensures var send, recv := GetSendLibrary(s, c), GetRecvLibrary(s, c);
      e in LibraryErrors(s, c) <==>
        || (e == SendIsZero && send == ZERO) || (e == ReceiveIsZero && recv == ZERO)
        || (e == SendIsDefault && c.sendLib.None?) || (e == ReceiveIsDefault && c.recvLib.None?)
        || (e == SendMismatch && send != s.targetSend) || (e == ReceiveMismatch && recv != s.targetRecv)
  {
  }

  lemma DvnErrorsMean(s: Side, readOnly: bool, c: Chain, e: Error)
    ensures e in DvnErrors(s, readOnly, c) <==>
      (e.DvnCountLow? || e.DeadDvnRequired? || (e.UlnUnreadable? && readOnly)) && Wrong(s, c, e)
  {
    var b := GetConfig(s, c, s.targetSend, UlnType);
    if b.Some? {
      assert Holds(s, c, s.targetSend, UlnType, b.value);
      if b.value.UlnBytes? { assert Holds(s, c, s.targetSend, UlnType, UlnBytes(b.value.uln)); }
    }
  }

  lemma {:induction false} OptionErrorsMean(readOnly: bool, p: Pass, params: seq<Param>, e: Error)
    ensures e in OptionsRead(readOnly, p, params).errors <==>
      || e in p.errors
      || (readOnly && e.OptionsNotSet? &&
            exists i :: 0 <= i < |params| && params[i].msgType == e.msgType && !HasOptions(p.chain, params[i]))
    decreases |params|
  {
    if params != [] {
      var n := |params| - 1;
      OptionErrorsMean(readOnly, p, params[..n], e);
      OptionsReadShape(readOnly, p, params[..n]);
      assert forall i :: 0 <= i < n ==> params[..n][i] == params[i];
      assert HasOptions(p.chain, params[n]) <==> GetOptions(p.chain, params[n].msgType) == params[n].options;
    }
  }

  lemma PeerErrors(s: Side, readOnly: bool, p: Pass, e: Error)
    ensures e in PeerStage(s, readOnly, p).errors <==>
      e in p.errors || ((e.RemoteUnknown? || (e.PeerNotSet? && readOnly)) && Wrong(s, p.chain, e))
  {
  }

  lemma SendErrors(s: Side, readOnly: bool, p: Pass)
    ensures SendStage(s, readOnly, p).errors == p.errors
    ensures readOnly ==> SendStage(s, readOnly, p).chain == p.chain
    ensures SendStage(s, readOnly, p).chain.recvLib == p.chain.recvLib
  {
  }

  lemma ReceiveErrors(s: Side, readOnly: bool, p: Pass, e: Error)
    ensures e in ReceiveStage(s, readOnly, p).errors <==>
      e in p.errors || (e.ReceiveLibraryChangeRefused? && Wrong(s, p.chain, e))
    ensures readOnly ==> ReceiveStage(s, readOnly, p).chain == p.chain
  {
  }

  lemma LibraryStageErrors(s: Side, readOnly: bool, c: Chain, e: Error)
    ensures var p := LibrariesStage(s, readOnly, c);
      e in p.errors <==>
        || ((e.RemoteUnknown? || (e.PeerNotSet? && readOnly) || e.ReceiveLibraryChangeRefused?) && Wrong(s, c, e))
        || e in LibraryErrors(s, p.chain)
  {
    var p0 := Pass(c, [], [], []);
    var p1 := PeerStage(s, readOnly, p0);
    var p2 := SendStage(s, readOnly, p1);
    PeerErrors(s, readOnly, p0, e);
    SendErrors(s, readOnly, p1);
    ReceiveErrors(s, readOnly, p2, e);
  }

  lemma ConfigStageErrors(s: Side, p: Pass, e: Error)
    ensures e in ConfigsStage(s, true, p).errors <==>
      || e in p.errors
      || ((e.SendConfigNotPinned? || e.ReceiveConfigNotPinned?) && Wrong(s, p.chain, e))
      || e in DvnErrors(s, true, p.chain)
  {
    ConfigsMatch(s, p.chain);
  }

  /** A read-only pass reports an error exactly when it is true of the chain. */
  lemma ReadOnlyErrors(s: Side, c: Chain, e: Error)
    ensures e in WireSide(s, true, c).errors <==> Wrong(s, c, e)
  {
    var p := LibrariesStage(s, true, c);
    var q := ConfigsStage(s, true, p);
    LibrariesReadOnly(s, c);
    ConfigsReadOnly(s, p);
    LibraryStageErrors(s, true, c, e);
    LibraryErrorsMean(s, c, e);
    ConfigStageErrors(s, p, e);
    DvnErrorsMean(s, true, c, e);
    OptionErrorsMean(true, q, s.enforced, e);
  }

  /** What a write pass can still report: what it could not write, or was not asked to write right. */
  ghost predicate WrongAfter(s: Side, c: Chain, d: Chain, e: Error) {
    match e
    case RemoteUnknown => !s.remoteKnown
    case ReceiveLibraryChangeRefused => Wrong(s, c, e)
    case SendIsZero => Wrong(s, d, e)
    case ReceiveIsZero => Wrong(s, d, e)
    case SendIsDefault => Wrong(s, d, e)
    case ReceiveIsDefault => Wrong(s, d, e)
    case SendMismatch => Wrong(s, d, e)
    case ReceiveMismatch => Wrong(s, d, e)
    case DeadDvnRequired => s.deadDvn.Some? && s.deadDvn.value in s.dvns
    case _ => false
  }

  lemma ConfigWriteErrors(s: Side, p: Pass, e: Error)
    requires Buildable(s)
    ensures var q := ConfigsStage(s, false, p);
      && (e in q.errors <==> e in p.errors || (e.DeadDvnRequired? && s.deadDvn.Some? && s.deadDvn.value in s.dvns))
      && q.chain == p.chain.(configs := q.chain.configs)
  {
    ConfigsWrite(s, p);
    var q := ConfigReceiveStage(s, false, ConfigSendStage(s, false, p));
    assert ConfigsStage(s, false, p) == q.Complain(DvnErrors(s, false, q.chain));
    assert DvnErrors(s, false, q.chain) == If(s.deadDvn.Some? && s.deadDvn.value in s.dvns, DeadDvnRequired);
  }

  /** A write pass reports an error exactly when it is true of what it leaves, or kept it from writing. */
  lemma WriteErrors(s: Side, c: Chain, e: Error)
    requires Buildable(s) && Consistent(s.enforced)
    ensures e in WireSide(s, false, c).errors <==> WrongAfter(s, c, WireSide(s, false, c).chain, e)
  {
    var p := LibrariesStage(s, false, c);
    var q := ConfigsStage(s, false, p);
    LibraryStageErrors(s, false, c, e);
    LibraryErrorsMean(s, p.chain, e);
    ConfigWriteErrors(s, p, e);
    OptionsWrite(s, q);
    var d := WireSide(s, false, c).chain;
    assert d == p.chain.(configs := d.configs, options := d.options);
    if LibraryError(e) { WrongAlike(s, p.chain, d, e); }
  }

  lemma WrongAlike(s: Side, c: Chain, d: Chain, e: Error)
    requires c.sendLib == d.sendLib && c.recvLib == d.recvLib
    requires LibraryError(e)
    ensures Wrong(s, c, e) <==> Wrong(s, d, e)
  {
  }

  // ---------------------------------------------------------------- what is left on chain

  /**
   Whatever was there, a write pass leaves both libraries with the ULN config asked for, the send library with
   the executor, and every option set; the peer if it is known; and nothing else changed but the libraries.
   */
  lemma WriteLeaves(s: Side, c: Chain)
    requires Buildable(s) && Consistent(s.enforced)
    ensures var d := WireSide(s, false, c).chain;
      && HasUln(s, d, s.targetSend) && HasExecutor(s, d, s.targetSend) && HasUln(s, d, s.targetRecv)
      && (forall i :: 0 <= i < |s.enforced| ==> HasOptions(d, s.enforced[i]))
      && d.peer == (if s.remoteKnown then s.expectedPeer else c.peer)
      && (s.targetSend != "0x0" ==> d.sendLib == Some(s.targetSend))
      && d.recvLib == (if Wrong(s, c, ReceiveLibraryChangeRefused) || c.recvLib == Some(s.targetRecv) then c.recvLib
                       else if s.targetRecv == "0x0" then None else Some(s.targetRecv))
      && SameElsewhere(s, c.configs, d.configs)
      && (forall t :: (forall i :: 0 <= i < |s.enforced| ==> s.enforced[i].msgType != t) ==>
            (t in d.options <==> t in c.options) && (t in c.options ==> d.options[t] == c.options[t]))
  {
    var p := LibrariesStage(s, false, c);
    var q := ConfigsStage(s, false, p);
    LibrariesWrite(s, c);
    ConfigsWrite(s, p);
    ConfigsElsewhere(s, p);
    OptionsWrite(s, q);
    OptionsElsewhere(s, q);
    ConfigsMatch(s, q.chain);
    var d := WireSide(s, false, c).chain;
    assert d.configs == q.chain.configs;
    ConfigsMatch(s, d);
    assert forall i :: 0 <= i < |s.enforced| ==>
      (HasOptions(d, s.enforced[i]) <==> GetOptions(d, s.enforced[i].msgType) == s.enforced[i].options);
  }

  /** Keys that no pass writes. */
  predicate Untouched(s: Side, k: (string, ConfigType)) {
    k != (s.targetSend, UlnType) && k != (s.targetSend, ExecutorType) && k != (s.targetRecv, UlnType)
  }

  ghost predicate SameElsewhere(s: Side, a: map<(string, ConfigType), ConfigBytes>,
                                b: map<(string, ConfigType), ConfigBytes>) {
    forall k :: Untouched(s, k) ==> (k in b <==> k in a) && (k in a ==> b[k] == a[k])
  }

  lemma ConfigsElsewhere(s: Side, p: Pass)
    ensures SameElsewhere(s, p.chain.configs, ConfigsStage(s, false, p).chain.configs)
  {
    var q := ConfigSendStage(s, false, p);
    SendElsewhere(s, p);
    ReceiveElsewhere(s, q);
  }

  lemma SendElsewhere(s: Side, p: Pass)
    ensures SameElsewhere(s, p.chain.configs, ConfigSendStage(s, false, p).chain.configs)
  {
    SetConfigsElsewhere(p.chain.configs, s.targetSend, SendParams(s));
  }

  lemma ReceiveElsewhere(s: Side, p: Pass)
    ensures SameElsewhere(s, p.chain.configs, ConfigReceiveStage(s, false, p).chain.configs)
  {
    SetConfigsElsewhere(p.chain.configs, s.targetRecv, [(UlnType, ExpectedUln(s))]);
  }

  lemma {:induction false} SetConfigsElsewhere(configs: map<(string, ConfigType), ConfigBytes>, lib: string,
      params: seq<(ConfigType, ConfigBytes)>)
    ensures var r := SetConfigs(configs, lib, params);
      forall k: (string, ConfigType) :: k.0 != lib || (forall i :: 0 <= i < |params| ==> params[i].0 != k.1) ==>
        (k in r <==> k in configs) && (k in configs ==> r[k] == configs[k])
    decreases |params|
  {
    if params != [] { SetConfigsElsewhere(configs, lib, params[..|params| - 1]); }
  }

  lemma {:induction false} SetAllElsewhere(options: map<nat, string>, params: seq<Param>)
    ensures var r := SetAll(options, params);
      forall t :: (forall i :: 0 <= i < |params| ==> params[i].msgType != t) ==>
        (t in r <==> t in options) && (t in options ==> r[t] == options[t])
    decreases |params|
  {
    if params != [] { SetAllElsewhere(options, params[..|params| - 1]); }
  }

  lemma OptionsElsewhere(s: Side, p: Pass)
    ensures var d := OptionsStage(s, false, p).chain;
      forall t :: (forall i :: 0 <= i < |s.enforced| ==> s.enforced[i].msgType != t) ==>
        (t in d.options <==> t in p.chain.options) && (t in p.chain.options ==> d.options[t] == p.chain.options[t])
  {
    OptionsReadShape(false, p, s.enforced);
    SetAllElsewhere(p.chain.options, s.enforced);
    if !OptionsMatch(p.chain, s.enforced) {
      SayAllKeeps(OptionsRead(false, p, s.enforced).Send(SetEnforcedOptions(s.enforced)), s.enforced);
    }
  }

  /** A write pass without errors leaves the chain as asked; a read-only pass has none exactly on such a chain. */
  lemma CleanByFields(s: Side, c: Chain)
    requires Buildable(s)
    ensures WireSide(s, true, c).errors == [] <==> Sane(s) && AsAsked(s, c)
    ensures Consistent(s.enforced) && WireSide(s, false, c).errors == [] ==> AsAsked(s, WireSide(s, false, c).chain)
  {
    ReadOnlyCleanIff(s, c);
    WiredIsAsAsked(s, c);
    if Consistent(s.enforced) {
      WriteCleanIff(s, c);
      WiredIsAsAsked(s, WireSide(s, false, c).chain);
    }
  }

  // ---------------------------------------------------------------- what is sent and what is said

  function ApplyAll(c: Chain, txs: seq<Tx>): Chain {
    if txs == [] then c else Apply(ApplyAll(c, txs[..|txs| - 1]), txs[|txs| - 1])
  }

  /** The chain is what the transactions sent make of it. */
  ghost predicate Explained(c: Chain, p: Pass) { p.chain == ApplyAll(c, p.txs) }

  lemma SendExplained(c: Chain, p: Pass, tx: Tx)
    requires Explained(c, p)
    ensures Explained(c, p.Send(tx))
  {
    assert (p.txs + [tx])[..|p.txs|] == p.txs;
  }

  lemma PeerExplained(s: Side, readOnly: bool, c: Chain, p: Pass)
    requires Explained(c, p)
    ensures Explained(c, PeerStage(s, readOnly, p))
  {
    SendExplained(c, p, SetPeer(s.expectedPeer));
  }

  lemma SendStageExplained(s: Side, readOnly: bool, c: Chain, p: Pass)
    requires Explained(c, p)
    ensures Explained(c, SendStage(s, readOnly, p))
  {
    SendExplained(c, p, SetSendLibrary(s.targetSend));
  }

  lemma ReceiveExplained(s: Side, readOnly: bool, c: Chain, p: Pass)
    requires Explained(c, p)
    ensures Explained(c, ReceiveStage(s, readOnly, p))
  {
    SendExplained(c, p, SetReceiveLibrary(s.targetRecv));
  }

  lemma LibrariesExplained(s: Side, readOnly: bool, c: Chain)
    ensures Explained(c, LibrariesStage(s, readOnly, c))
  {
    var p0 := Pass(c, [], [], []);
    PeerExplained(s, readOnly, c, p0);
    SendStageExplained(s, readOnly, c, PeerStage(s, readOnly, p0));
    ReceiveExplained(s, readOnly, c, SendStage(s, readOnly, PeerStage(s, readOnly, p0)));
  }

  lemma ConfigsExplained(s: Side, readOnly: bool, c: Chain, p: Pass)
    requires Explained(c, p)
    ensures Explained(c, ConfigsStage(s, readOnly, p))
  {
    SendExplained(c, p, SetConfig(s.targetSend, SendParams(s)));
    SendExplained(c, ConfigSendStage(s, readOnly, p), SetConfig(s.targetRecv, [(UlnType, ExpectedUln(s))]));
  }

  lemma OptionsExplained(s: Side, readOnly: bool, c: Chain, p: Pass)
    requires Explained(c, p)
    ensures Explained(c, OptionsStage(s, readOnly, p))
  {
    var q := OptionsRead(readOnly, p, s.enforced);
    OptionsReadShape(readOnly, p, s.enforced);
    SendExplained(c, q, SetEnforcedOptions(s.enforced));
    SayAllKeeps(q.Send(SetEnforcedOptions(s.enforced)), s.enforced);
  }

  /** A pass changes the chain by the transactions it lists, in that order, and by nothing else. */
  lemma TransactionsExplain(s: Side, readOnly: bool, c: Chain)
    ensures WireSide(s, readOnly, c).chain == ApplyAll(c, WireSide(s, readOnly, c).txs)
  {
    var p := LibrariesStage(s, readOnly, c);
    LibrariesExplained(s, readOnly, c);
    ConfigsExplained(s, readOnly, c, p);
    OptionsExplained(s, readOnly, c, ConfigsStage(s, readOnly, p));
  }

  /** The receive library has its ULN config, before the pass or from the write to the same send library. */
  ghost predicate ReceiveHas(s: Side, readOnly: bool, c: Chain) {
    HasUln(s, c, s.targetRecv) || (!readOnly && s.targetSend == s.targetRecv)
  }

  /** What a pass says of an action, by the fields of the chain it found. */
  ghost predicate Says(s: Side, readOnly: bool, c: Chain, a: Action, st: Status) {
    match a
    case PeerAction => st == Done(readOnly, s.remoteKnown && c.peer == s.expectedPeer, !s.remoteKnown)
    case SendLibrary => st == Done(readOnly, c.sendLib == Some(s.targetSend), false)
    case ReceiveLibrary =>
      if c.recvLib.Some? && c.recvLib.value != s.targetRecv && c.recvLib.value != "0x0" then st == Refuse
      else st == Done(readOnly, c.recvLib == Some(s.targetRecv), false)
    case ConfigSend => st == Done(readOnly, HasUln(s, c, s.targetSend) && HasExecutor(s, c, s.targetSend), false)
    case ConfigReceive => st == Done(readOnly, ReceiveHas(s, readOnly, c), false)
    case Enforced(t) =>
      || (st == Skip && exists i :: 0 <= i < |s.enforced| && s.enforced[i].msgType == t && HasOptions(c, s.enforced[i]))
      || (st == Read && readOnly &&
            exists i :: 0 <= i < |s.enforced| && s.enforced[i].msgType == t && !HasOptions(c, s.enforced[i]))
      || (st == Write && !readOnly && (exists i :: 0 <= i < |s.enforced| && s.enforced[i].msgType == t)
            && exists i :: 0 <= i < |s.enforced| && !HasOptions(c, s.enforced[i]))
  }

  /** Nothing to do is skipped; what is to do is written, unless the pass only reads or cannot know the value. */
  function Done(readOnly: bool, asAsked: bool, unknown: bool): Status {
    if asAsked then Skip else if readOnly || unknown then Read else Write
  }

  lemma PeerSays(s: Side, readOnly: bool, p: Pass, a: Action, st: Status)
    ensures var q := PeerStage(s, readOnly, p);
      && (ActionResult(a, st) in q.results <==>
            ActionResult(a, st) in p.results || (a.PeerAction? && Says(s, readOnly, p.chain, a, st)))
      && q.chain == p.chain.(peer := q.chain.peer)
  {
  }

  lemma SendSays(s: Side, readOnly: bool, p: Pass, a: Action, st: Status)
    ensures var q := SendStage(s, readOnly, p);
      && (ActionResult(a, st) in q.results <==>
            ActionResult(a, st) in p.results || (a.SendLibrary? && Says(s, readOnly, p.chain, a, st)))
      && q.chain == p.chain.(sendLib := q.chain.sendLib)
  {
  }

  lemma ReceiveSays(s: Side, readOnly: bool, p: Pass, a: Action, st: Status)
    ensures var q := ReceiveStage(s, readOnly, p);
      && (ActionResult(a, st) in q.results <==>
            ActionResult(a, st) in p.results || (a.ReceiveLibrary? && Says(s, readOnly, p.chain, a, st)))
      && q.chain == p.chain.(recvLib := q.chain.recvLib)
  {
  }

  lemma LibrariesSay(s: Side, readOnly: bool, c: Chain, a: Action, st: Status)
    ensures var q := LibrariesStage(s, readOnly, c);
      && (ActionResult(a, st) in q.results <==>
            (a.PeerAction? || a.SendLibrary? || a.ReceiveLibrary?) && Says(s, readOnly, c, a, st))
      && q.chain.configs == c.configs && q.chain.options == c.options
  {
    var p0 := Pass(c, [], [], []);
    var p1 := PeerStage(s, readOnly, p0);
    var p2 := SendStage(s, readOnly, p1);
    PeerSays(s, readOnly, p0, a, st);
    SendSays(s, readOnly, p1, a, st);
    ReceiveSays(s, readOnly, p2, a, st);
    if a.SendLibrary? { assert Says(s, readOnly, p1.chain, a, st) <==> Says(s, readOnly, c, a, st); }
    if a.ReceiveLibrary? { assert Says(s, readOnly, p2.chain, a, st) <==> Says(s, readOnly, c, a, st); }
  }

  lemma ConfigSendSays(s: Side, readOnly: bool, p: Pass, a: Action, st: Status)
    ensures var q := ConfigSendStage(s, readOnly, p);
      && (ActionResult(a, st) in q.results <==>
            ActionResult(a, st) in p.results || (a.ConfigSend? && Says(s, readOnly, p.chain, a, st)))
      && q.chain == p.chain.(configs := q.chain.configs)
  {
    ConfigsMatch(s, p.chain);
  }

  /** After the send library's stage the receive library has its config as said. */
  lemma ReceiveHasNow(s: Side, readOnly: bool, p: Pass)
    ensures ReceiveConfigMatches(s, ConfigSendStage(s, readOnly, p).chain) <==> ReceiveHas(s, readOnly, p.chain)
  {
    ConfigsMatch(s, p.chain);
    if !SendConfigMatches(s, p.chain) && !readOnly {
      var d := Apply(p.chain, SetConfig(s.targetSend, SendParams(s)));
      SendParamsRead(s, p.chain);
      if s.targetSend != s.targetRecv {
        SetConfigsElsewhere(p.chain.configs, s.targetSend, SendParams(s));
        assert GetConfig(s, d, s.targetRecv, UlnType) == GetConfig(s, p.chain, s.targetRecv, UlnType);
      }
    }
  }

  lemma ConfigReceiveSays(s: Side, readOnly: bool, p: Pass, q: Pass, a: Action, st: Status)
    requires ReceiveConfigMatches(s, q.chain) <==> ReceiveHas(s, readOnly, p.chain)
    ensures var r := ConfigReceiveStage(s, readOnly, q);
      && (ActionResult(a, st) in r.results <==>
            ActionResult(a, st) in q.results || (a.ConfigReceive? && Says(s, readOnly, p.chain, a, st)))
      && r.chain == q.chain.(configs := r.chain.configs)
  {
  }

  lemma ConfigsSay(s: Side, readOnly: bool, p: Pass, a: Action, st: Status)
    ensures var q := ConfigsStage(s, readOnly, p);
      && (ActionResult(a, st) in q.results <==>
            || ActionResult(a, st) in p.results
            || ((a.ConfigSend? || a.ConfigReceive?) && Says(s, readOnly, p.chain, a, st)))
      && q.chain == p.chain.(configs := q.chain.configs)
  {
    ConfigSendSays(s, readOnly, p, a, st);
    ReceiveHasNow(s, readOnly, p);
    ConfigReceiveSays(s, readOnly, p, ConfigSendStage(s, readOnly, p), a, st);
  }

  lemma {:induction false} OptionsReadSay(readOnly: bool, p: Pass, params: seq<Param>, a: Action, st: Status)
    ensures ActionResult(a, st) in OptionsRead(readOnly, p, params).results <==>
      || ActionResult(a, st) in p.results
      || (a.Enforced? && (st == Skip || (st == Read && readOnly)) && exists i ::
            0 <= i < |params| && params[i].msgType == a.msgType && (HasOptions(p.chain, params[i]) <==> st == Skip))
    decreases |params|
  {
    if params != [] {
      var n := |params| - 1;
      OptionsReadSay(readOnly, p, params[..n], a, st);
      OptionsReadShape(readOnly, p, params[..n]);
      assert forall i :: 0 <= i < n ==> params[..n][i] == params[i];
      assert HasOptions(p.chain, params[n]) <==> GetOptions(p.chain, params[n].msgType) == params[n].options;
    }
  }

  lemma {:induction false} SayAllSays(p: Pass, params: seq<Param>, a: Action, st: Status)
    ensures ActionResult(a, st) in SayAll(p, params).results <==>
      || ActionResult(a, st) in p.results
      || (a.Enforced? && st == Write && exists i :: 0 <= i < |params| && params[i].msgType == a.msgType)
    decreases |params|
  {
    if params != [] {
      SayAllSays(p, params[..|params| - 1], a, st);
      assert forall i :: 0 <= i < |params| - 1 ==> params[..|params| - 1][i] == params[i];
    }
  }

  lemma OptionsSay(s: Side, readOnly: bool, p: Pass, a: Action, st: Status)
    ensures ActionResult(a, st) in OptionsStage(s, readOnly, p).results <==>
      ActionResult(a, st) in p.results || (a.Enforced? && Says(s, readOnly, p.chain, a, st))
  {
    var q := OptionsRead(readOnly, p, s.enforced);
    OptionsReadShape(readOnly, p, s.enforced);
    OptionsReadSay(readOnly, p, s.enforced, a, st);
    SayAllSays(q.Send(SetEnforcedOptions(s.enforced)), s.enforced, a, st);
    assert OptionsMatch(p.chain, s.enforced) <==>
      forall i :: 0 <= i < |s.enforced| ==> HasOptions(p.chain, s.enforced[i]);
  }

  /** Every result of a pass is true of the chain it found, and whatever is true is a result. */
  lemma ResultsMean(s: Side, readOnly: bool, c: Chain, a: Action, st: Status)
    ensures ActionResult(a, st) in WireSide(s, readOnly, c).results <==> Says(s, readOnly, c, a, st)
  {
    var p := LibrariesStage(s, readOnly, c);
    var q := ConfigsStage(s, readOnly, p);
    LibrariesSay(s, readOnly, c, a, st);
    ConfigsSay(s, readOnly, p, a, st);
    OptionsSay(s, readOnly, q, a, st);
    SaysAlike(s, readOnly, c, p.chain, a, st);
    SaysAlike(s, readOnly, c, q.chain, a, st);
  }

  lemma SaysAlike(s: Side, readOnly: bool, c: Chain, d: Chain, a: Action, st: Status)
    ensures (a.ConfigSend? || a.ConfigReceive?) && c.configs == d.configs ==>
      (Says(s, readOnly, c, a, st) <==> Says(s, readOnly, d, a, st))
    ensures a.Enforced? && c.options == d.options ==> (Says(s, readOnly, c, a, st) <==> Says(s, readOnly, d, a, st))
  {
    if c.configs == d.configs {
      assert forall lib, t, b :: Holds(s, c, lib, t, b) <==> Holds(s, d, lib, t, b);
      assert HasUln(s, c, s.targetSend) <==> HasUln(s, d, s.targetSend);
      assert HasUln(s, c, s.targetRecv) <==> HasUln(s, d, s.targetRecv);
    }
    if c.options == d.options { assert forall x :: HasOptions(c, x) <==> HasOptions(d, x); }
  }
}
