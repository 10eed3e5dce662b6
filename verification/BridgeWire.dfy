/**
 The pathway wiring pass (scripts/bridge-wire.ts, wireSide): reads the OApp and the endpoint of one side of
 a bridge pathway, writes what differs from the metadata snapshot, and collects results and errors. The
 endpoint is a key-value contract: a library is pinned or default, a config is set or default, and a
 setter's value is what the next read returns.
 */
module BridgeWire {
  import opened Common

  const ZERO := "0x0"

  datatype ConfigType = ExecutorType | UlnType

  /** rest stands for everything else in the encoding: optional DVNs, threshold, order of the list. */
  datatype Uln = Uln(confirmations: nat, requiredCount: nat, requiredDvns: set<string>, rest: string)

  datatype ConfigBytes = Empty | UlnBytes(uln: Uln) | ExecutorBytes(maxMessageSize: nat, executor: string) | Undecodable

  /** What the chain holds for this OApp and remote endpoint; None is the default library. */
  datatype Chain = Chain(peer: string, sendLib: Option<string>, recvLib: Option<string>,
                         configs: map<(string, ConfigType), ConfigBytes>, options: map<nat, string>)

  /** Defaults of the endpoint; a config that is neither set nor listed makes the read throw. */
  datatype Defaults = Defaults(sendLib: string, recvLib: string, configs: map<(string, ConfigType), ConfigBytes>)

  datatype Param = Param(msgType: nat, options: string)

  /** What the snapshot and the manifests ask for on this side. */
  datatype Side = Side(defaults: Defaults, remoteKnown: bool, expectedPeer: string, targetSend: string,
                       targetRecv: string, confirmations: nat, dvns: set<string>, deadDvn: Option<string>,
                       executor: string, enforced: seq<Param>)

  const EXECUTOR_MAX_MESSAGE_SIZE: nat := 10000

  /** The builders throw on a side they cannot build a config for, before anything is read. */
  predicate Buildable(s: Side) {
    s.confirmations >= 1 && |s.dvns| >= 2 && s.executor != ZERO
  }

  function ExpectedUln(s: Side): ConfigBytes {
    UlnBytes(Uln(s.confirmations, |s.dvns|, s.dvns, ""))
  }

  function ExpectedExecutor(s: Side): ConfigBytes {
    ExecutorBytes(EXECUTOR_MAX_MESSAGE_SIZE, s.executor)
  }

  // ---------------------------------------------------------------- views

  function GetSendLibrary(s: Side, c: Chain): string { if c.sendLib.Some? then c.sendLib.value else s.defaults.sendLib }
  function GetRecvLibrary(s: Side, c: Chain): string { if c.recvLib.Some? then c.recvLib.value else s.defaults.recvLib }

  function GetConfig(s: Side, c: Chain, lib: string, t: ConfigType): Option<ConfigBytes> {
    if (lib, t) in c.configs then Some(c.configs[(lib, t)])
    else if (lib, t) in s.defaults.configs then Some(s.defaults.configs[(lib, t)])
    else None
  }

  function GetOptions(c: Chain, msgType: nat): string { if msgType in c.options then c.options[msgType] else "0x" }

  // ---------------------------------------------------------------- transactions

  datatype Tx =
    | SetPeer(peer: string)
    | SetSendLibrary(lib: string)
    | SetReceiveLibrary(lib: string)
    | SetConfig(lib: string, params: seq<(ConfigType, ConfigBytes)>)
    | SetEnforcedOptions(options: seq<Param>)

  function SetConfigs(configs: map<(string, ConfigType), ConfigBytes>, lib: string,
      params: seq<(ConfigType, ConfigBytes)>)
    : map<(string, ConfigType), ConfigBytes>
  {
    if params == [] then configs
    else
      var p := params[|params| - 1];
      SetConfigs(configs, lib, params[..|params| - 1])[(lib, p.0) := p.1]
  }

  function SetAll(options: map<nat, string>, params: seq<Param>): map<nat, string> {
    if params == [] then options
    else
      var p := params[|params| - 1];
      SetAll(options, params[..|params| - 1])[p.msgType := p.options]
  }

  /** Setting a library to the zero address goes back to the default. */
  function Pin(lib: string): Option<string> { if lib == ZERO then None else Some(lib) }

  function Apply(c: Chain, tx: Tx): Chain {
    match tx
    case SetPeer(p) => c.(peer := p)
    case SetSendLibrary(lib) => c.(sendLib := Pin(lib))
    case SetReceiveLibrary(lib) => c.(recvLib := Pin(lib))
    case SetConfig(lib, params) => c.(configs := SetConfigs(c.configs, lib, params))
    case SetEnforcedOptions(params) => c.(options := SetAll(c.options, params))
  }

  // ---------------------------------------------------------------- the pass

  datatype Action = PeerAction | SendLibrary | ReceiveLibrary | ConfigSend | ConfigReceive | Enforced(msgType: nat)
  datatype Status = Skip | Write | Read | Refuse
  datatype ActionResult = ActionResult(action: Action, status: Status)

  datatype Error =
    | RemoteUnknown | PeerNotSet | ReceiveLibraryChangeRefused
    | SendIsZero | ReceiveIsZero | SendIsDefault | ReceiveIsDefault | SendMismatch | ReceiveMismatch
    | SendConfigNotPinned | ReceiveConfigNotPinned | DvnCountLow | DeadDvnRequired | UlnUnreadable
    | OptionsNotSet(msgType: nat)

  /** The chain so far and what the pass has collected. */
  datatype Pass = Pass(chain: Chain, txs: seq<Tx>, results: seq<ActionResult>, errors: seq<Error>)
  {
    function Say(a: Action, s: Status): Pass { this.(results := results + [ActionResult(a, s)]) }
    function Complain(e: seq<Error>): Pass { this.(errors := errors + e) }
    function Send(tx: Tx): Pass { this.(chain := Apply(chain, tx), txs := txs + [tx]) }
  }

  function PeerStage(s: Side, readOnly: bool, p: Pass): Pass {
    if !s.remoteKnown then p.Say(PeerAction, Read).Complain([RemoteUnknown])
    else if p.chain.peer == s.expectedPeer then p.Say(PeerAction, Skip)
    else if readOnly then p.Say(PeerAction, Read).Complain([PeerNotSet])
    else p.Send(SetPeer(s.expectedPeer)).Say(PeerAction, Write)
  }

  function SendStage(s: Side, readOnly: bool, p: Pass): Pass {
    if p.chain.sendLib.Some? && GetSendLibrary(s, p.chain) == s.targetSend then p.Say(SendLibrary, Skip)
    else if readOnly then p.Say(SendLibrary, Read)
    else p.Send(SetSendLibrary(s.targetSend)).Say(SendLibrary, Write)
  }

  function ReceiveStage(s: Side, readOnly: bool, p: Pass): Pass {
    var lib := GetRecvLibrary(s, p.chain);
    if p.chain.recvLib.Some? && lib == s.targetRecv then p.Say(ReceiveLibrary, Skip)
    else if p.chain.recvLib.Some? && lib != ZERO then
      p.Say(ReceiveLibrary, Refuse).Complain([ReceiveLibraryChangeRefused])
    else if readOnly then p.Say(ReceiveLibrary, Read)
    else p.Send(SetReceiveLibrary(s.targetRecv)).Say(ReceiveLibrary, Write)
  }

  function If(b: bool, e: Error): seq<Error> { if b then [e] else [] }

  function LibraryErrors(s: Side, c: Chain): seq<Error> {
    var send, recv := GetSendLibrary(s, c), GetRecvLibrary(s, c);
    If(send == ZERO, SendIsZero) + If(recv == ZERO, ReceiveIsZero) + If(c.sendLib.None?, SendIsDefault)
    + If(c.recvLib.None?, ReceiveIsDefault) + If(send != s.targetSend, SendMismatch) +
      If(recv != s.targetRecv, ReceiveMismatch)
  }

  function SendParams(s: Side): seq<(ConfigType, ConfigBytes)> {
    [(ExecutorType, ExpectedExecutor(s)), (UlnType, ExpectedUln(s))]
  }

  /** Both configs are read in one try: if either read throws, neither matches. */
  predicate SendConfigMatches(s: Side, c: Chain) {
    && GetConfig(s, c, s.targetSend, UlnType) == Some(ExpectedUln(s))
    && GetConfig(s, c, s.targetSend, ExecutorType) == Some(ExpectedExecutor(s))
  }

  function ConfigSendStage(s: Side, readOnly: bool, p: Pass): Pass {
    if SendConfigMatches(s, p.chain) then p.Say(ConfigSend, Skip)
    else if readOnly then p.Say(ConfigSend, Read).Complain([SendConfigNotPinned])
    else p.Send(SetConfig(s.targetSend, SendParams(s))).Say(ConfigSend, Write)
  }

  predicate ReceiveConfigMatches(s: Side, c: Chain) {
    GetConfig(s, c, s.targetRecv, UlnType) == Some(ExpectedUln(s))
  }

  function ConfigReceiveStage(s: Side, readOnly: bool, p: Pass): Pass {
    if ReceiveConfigMatches(s, p.chain) then p.Say(ConfigReceive, Skip)
    else if readOnly then p.Say(ConfigReceive, Read).Complain([ReceiveConfigNotPinned])
    else p.Send(SetConfig(s.targetRecv, [(UlnType, ExpectedUln(s))])).Say(ConfigReceive, Write)
  }

  /** Asserts on the send ULN as read back; a read or decode that throws only matters in a read-only pass. */
  function DvnErrors(s: Side, readOnly: bool, c: Chain): seq<Error> {
    var bytes := GetConfig(s, c, s.targetSend, UlnType);
    if bytes == Some(Empty) then []
    else if bytes.Some? && bytes.value.UlnBytes? then
      If(bytes.value.uln.requiredCount < 2, DvnCountLow)
      + If(s.deadDvn.Some? && s.deadDvn.value in bytes.value.uln.requiredDvns, DeadDvnRequired)
    else If(readOnly, UlnUnreadable)
  }

  function OptionsRead(readOnly: bool, p: Pass, params: seq<Param>): Pass {
    if params == [] then p
    else
      var q, x := OptionsRead(readOnly, p, params[..|params| - 1]), params[|params| - 1];
      if GetOptions(p.chain, x.msgType) == x.options then q.Say(Enforced(x.msgType), Skip)
      else if readOnly then q.Say(Enforced(x.msgType), Read).Complain([OptionsNotSet(x.msgType)])
      else q
  }

  predicate OptionsMatch(c: Chain, params: seq<Param>) {
    forall i :: 0 <= i < |params| ==> GetOptions(c, params[i].msgType) == params[i].options
  }

  function SayAll(p: Pass, params: seq<Param>): Pass {
    if params == [] then p else SayAll(p, params[..|params| - 1]).Say(Enforced(params[|params| - 1].msgType), Write)
  }

  /** All options are written in one call when any differs. */
  function OptionsStage(s: Side, readOnly: bool, p: Pass): Pass {
    var q := OptionsRead(readOnly, p, s.enforced);
    if readOnly || OptionsMatch(p.chain, s.enforced) then q
    else SayAll(q.Send(SetEnforcedOptions(s.enforced)), s.enforced)
  }

  function LibrariesStage(s: Side, readOnly: bool, c: Chain): Pass {
    var p := ReceiveStage(s, readOnly, SendStage(s, readOnly, PeerStage(s, readOnly, Pass(c, [], [], []))));
    p.Complain(LibraryErrors(s, p.chain))
  }

  function ConfigsStage(s: Side, readOnly: bool, p: Pass): Pass {
    var q := ConfigReceiveStage(s, readOnly, ConfigSendStage(s, readOnly, p));
    q.Complain(DvnErrors(s, readOnly, q.chain))
  }

  function WireSide(s: Side, readOnly: bool, c: Chain): Pass {
    OptionsStage(s, readOnly, ConfigsStage(s, readOnly, LibrariesStage(s, readOnly, c)))
  }

  // ---------------------------------------------------------------- what the pass is for

  /** Everything on chain is as the snapshot asks. */
  predicate Wired(s: Side, c: Chain) {
    && c.peer == s.expectedPeer
    && c.sendLib == Some(s.targetSend) && c.recvLib == Some(s.targetRecv)
    && SendConfigMatches(s, c) && ReceiveConfigMatches(s, c)
    && OptionsMatch(c, s.enforced)
  }

  /** What the snapshot must satisfy, whatever the chain holds. */
  predicate Sane(s: Side) {
    && s.remoteKnown && s.targetSend != ZERO && s.targetRecv != ZERO
    && (s.deadDvn.Some? ==> s.deadDvn.value !in s.dvns)
  }

  /** A receive library pinned to another library. */
  predicate PinnedElsewhere(s: Side, c: Chain) {
    c.recvLib.Some? && c.recvLib.value != s.targetRecv && c.recvLib.value != ZERO
  }

  /** One value per message type. */
  predicate Consistent(params: seq<Param>) {
    forall i, j ::
      0 <= i < |params| && 0 <= j < |params| && params[i].msgType == params[j].msgType ==> params[i] == params[j]
  }

  // ---------------------------------------------------------------- stages

  function LibrarySkips(): seq<ActionResult> {
    [ActionResult(PeerAction, Skip), ActionResult(SendLibrary, Skip), ActionResult(ReceiveLibrary, Skip)]
  }

  function ConfigSkips(): seq<ActionResult> {
    [ActionResult(ConfigSend, Skip), ActionResult(ConfigReceive, Skip)]
  }

  lemma LibrariesReadOnly(s: Side, c: Chain)
    ensures LibrariesStage(s, true, c).chain == c && LibrariesStage(s, true, c).txs == []
    ensures LibrariesStage(s, true, c).errors == [] <==>
      s.remoteKnown && c.peer == s.expectedPeer && c.sendLib == Some(s.targetSend) && c.recvLib == Some(s.targetRecv)
      && s.targetSend != ZERO && s.targetRecv != ZERO
    ensures LibrariesStage(s, true, c).errors == [] ==>
      LibrariesStage(s, true, c).results == LibrarySkips()
  {
  }

  lemma PeerWrite(s: Side, p: Pass)
    requires p.txs == [] && p.errors == []
    ensures var q := PeerStage(s, false, p);
      && q.chain == p.chain.(peer := if s.remoteKnown then s.expectedPeer else p.chain.peer)
      && (q.txs == [] <==> (s.remoteKnown ==> p.chain.peer == s.expectedPeer)) && (q.errors == [] <==> s.remoteKnown)
  {
  }

  lemma SendWrite(s: Side, p: Pass)
    ensures var q := SendStage(s, false, p);
      && q.chain ==
        p.chain.(sendLib := if p.chain.sendLib == Some(s.targetSend) then p.chain.sendLib else Pin(s.targetSend))
      && (q.txs == [] <==> p.txs == [] && p.chain.sendLib == Some(s.targetSend)) && q.errors == p.errors
  {
  }

  lemma ReceiveWrite(s: Side, p: Pass)
    ensures var q := ReceiveStage(s, false, p);
      var stays := PinnedElsewhere(s, p.chain) || p.chain.recvLib == Some(s.targetRecv);
      && q.chain == p.chain.(recvLib := if stays then p.chain.recvLib else Pin(s.targetRecv))
      && (q.txs == [] <==> p.txs == [] && stays) && (q.errors == [] <==> p.errors == [] && !PinnedElsewhere(s, p.chain))
  {
  }

  /** The chain and the transactions of the first three steps when writing. */
  lemma LibrariesWrite(s: Side, c: Chain)
    ensures var p := LibrariesStage(s, false, c);
      && p.chain == c.(peer := if s.remoteKnown then s.expectedPeer else c.peer,
                       sendLib := if c.sendLib == Some(s.targetSend) then c.sendLib else Pin(s.targetSend),
                       recvLib := if PinnedElsewhere(s, c) || c.recvLib == Some(s.targetRecv) then c.recvLib
                                  else Pin(s.targetRecv))
      && (p.txs == [] <==> (s.remoteKnown ==> c.peer == s.expectedPeer) && c.sendLib == Some(s.targetSend)
                            && (PinnedElsewhere(s, c) || c.recvLib == Some(s.targetRecv)))
      && (p.errors == [] <==> s.remoteKnown && !PinnedElsewhere(s, c) && s.targetSend != ZERO && s.targetRecv != ZERO)
  {
    var p0 := Pass(c, [], [], []);
    var p1 := PeerStage(s, false, p0);
    var p2 := SendStage(s, false, p1);
    PeerWrite(s, p0);
    SendWrite(s, p1);
    ReceiveWrite(s, p2);
    LibraryErrorsIff(s, ReceiveStage(s, false, p2).chain);
  }

  lemma LibraryErrorsIff(s: Side, c: Chain)
    ensures LibraryErrors(s, c) == [] <==>
      c.sendLib == Some(s.targetSend) && c.recvLib == Some(s.targetRecv) && s.targetSend != ZERO && s.targetRecv != ZERO
  {
  }

  lemma LibrariesSkip(s: Side, c: Chain)
    requires s.remoteKnown && c.peer == s.expectedPeer && c.sendLib == Some(s.targetSend) &&
      c.recvLib == Some(s.targetRecv)
    ensures LibrariesStage(s, false, c).results == LibrarySkips()
  {
  }

  lemma SendParamsRead(s: Side, c: Chain)
    ensures SendConfigMatches(s, Apply(c, SetConfig(s.targetSend, SendParams(s))))
  {
    var params := SendParams(s);
    assert params[..1] == [params[0]] && params[..1][..0] == [];
    var once := SetConfigs(c.configs, s.targetSend, params[..1]);
    assert SetConfigs(c.configs, s.targetSend, params) == once[(s.targetSend, UlnType) := ExpectedUln(s)];
  }

  lemma RecvParamsRead(s: Side, c: Chain)
    requires SendConfigMatches(s, c)
    ensures var d := Apply(c, SetConfig(s.targetRecv, [(UlnType, ExpectedUln(s))]));
      SendConfigMatches(s, d) && ReceiveConfigMatches(s, d)
  {
    var params := [(UlnType, ExpectedUln(s))];
    assert params[..0] == [];
    assert SetConfigs(c.configs, s.targetRecv, params) == c.configs[(s.targetRecv, UlnType) := ExpectedUln(s)];
  }

  lemma ConfigsReadOnly(s: Side, p: Pass)
    ensures var q := ConfigsStage(s, true, p);
      && q.chain == p.chain && q.txs == p.txs
      && (q.errors == p.errors <==>
        SendConfigMatches(s, p.chain) && ReceiveConfigMatches(s, p.chain) && DvnErrors(s, true, p.chain) == [])
      && p.errors <= q.errors
      && (q.errors == p.errors ==> q.results == p.results + ConfigSkips())
  {
  }

  lemma ConfigsWrite(s: Side, p: Pass)
    requires Buildable(s)
    ensures var q := ConfigsStage(s, false, p);
      && q.chain == p.chain.(configs := q.chain.configs)
      && SendConfigMatches(s, q.chain) && ReceiveConfigMatches(s, q.chain)
      && p.txs <= q.txs && (q.txs == p.txs <==> SendConfigMatches(s, p.chain) && ReceiveConfigMatches(s, p.chain))
      && (q.txs == p.txs ==> q.chain == p.chain
                             && q.results == p.results + ConfigSkips())
      && p.errors <= q.errors && (q.errors == p.errors <==> (s.deadDvn.Some? ==> s.deadDvn.value !in s.dvns))
  {
    var a := ConfigSendStage(s, false, p);
    SendParamsRead(s, p.chain);
    RecvParamsRead(s, a.chain);
  }

  // ---------------------------------------------------------------- options

  function Skips(params: seq<Param>): seq<ActionResult> {
    seq(|params|, i requires 0 <= i < |params| => ActionResult(Enforced(params[i].msgType), Skip))
  }

  lemma {:induction false} OptionsReadShape(readOnly: bool, p: Pass, params: seq<Param>)
    ensures var q := OptionsRead(readOnly, p, params);
      && q.chain == p.chain && q.txs == p.txs && p.errors <= q.errors
      && (q.errors == p.errors <==> !readOnly || OptionsMatch(p.chain, params))
      && (OptionsMatch(p.chain, params) ==> q.results == p.results + Skips(params))
    decreases |params|
  {
    if params != [] {
      var init, x := params[..|params| - 1], params[|params| - 1];
      OptionsReadShape(readOnly, p, init);
      assert OptionsMatch(p.chain, params) <==>
        OptionsMatch(p.chain, init) && GetOptions(p.chain, x.msgType) == x.options;
      assert Skips(params) == Skips(init) + [ActionResult(Enforced(x.msgType), Skip)];
    }
  }

  lemma {:induction false} SetAllReads(options: map<nat, string>, params: seq<Param>)
    requires Consistent(params)
    ensures forall i ::
      0 <= i < |params| ==>
      params[i].msgType in SetAll(options, params) && SetAll(options, params)[params[i].msgType] == params[i].options
    decreases |params|
  {
    if params != [] { SetAllReads(options, params[..|params| - 1]); }
  }

  lemma {:induction false} SayAllKeeps(p: Pass, params: seq<Param>)
    ensures SayAll(p, params).chain == p.chain && SayAll(p, params).txs == p.txs && SayAll(p, params).errors == p.errors
    decreases |params|
  {
    if params != [] { SayAllKeeps(p, params[..|params| - 1]); }
  }

  lemma OptionsWrite(s: Side, p: Pass)
    requires Consistent(s.enforced)
    ensures var q := OptionsStage(s, false, p);
      && q.chain == p.chain.(options := q.chain.options) && OptionsMatch(q.chain, s.enforced) && q.errors == p.errors
      && q.txs == (if OptionsMatch(p.chain, s.enforced) then p.txs else p.txs + [SetEnforcedOptions(s.enforced)])
      && (q.txs == p.txs ==> q.chain == p.chain && q.results == p.results + Skips(s.enforced))
  {
    OptionsReadShape(false, p, s.enforced);
    if !OptionsMatch(p.chain, s.enforced) {
      var q := OptionsRead(false, p, s.enforced).Send(SetEnforcedOptions(s.enforced));
      SetAllReads(p.chain.options, s.enforced);
      SayAllKeeps(q, s.enforced);
    }
  }

  // ---------------------------------------------------------------- the whole pass

  /** The results of a pass that finds nothing to do. */
  function Skipped(s: Side): seq<ActionResult> {
    LibrarySkips() + ConfigSkips() + Skips(s.enforced)
  }

  lemma ReadOnlyCleanMeans(s: Side, c: Chain)
    requires Buildable(s) && s.remoteKnown && s.targetSend != ZERO && s.targetRecv != ZERO && c.peer == s.expectedPeer
    requires c.sendLib == Some(s.targetSend) && c.recvLib == Some(s.targetRecv) && OptionsMatch(c, s.enforced)
    ensures SendConfigMatches(s, c) && ReceiveConfigMatches(s, c) && DvnErrors(s, true, c) == [] <==>
      Sane(s) && Wired(s, c)
  {
  }

  /**
   A read-only pass sends nothing, and reports no error exactly for a sane snapshot on a wired chain;
   then it only skips.
   */
  lemma ReadOnlyCleanIff(s: Side, c: Chain)
    requires Buildable(s)
    ensures WireSide(s, true, c).chain == c && WireSide(s, true, c).txs == []
    ensures WireSide(s, true, c).errors == [] <==> Sane(s) && Wired(s, c)
    ensures WireSide(s, true, c).errors == [] ==> WireSide(s, true, c).results == Skipped(s)
  {
    var p := LibrariesStage(s, true, c);
    var q := ConfigsStage(s, true, p);
    LibrariesReadOnly(s, c);
    ConfigsReadOnly(s, p);
    OptionsReadShape(true, q, s.enforced);
    assert WireSide(s, true, c) == OptionsRead(true, q, s.enforced);
    if WireSide(s, true, c).errors == [] || (Sane(s) && Wired(s, c)) { ReadOnlyCleanMeans(s, c); }
  }

  /** A write pass reports no error exactly when the snapshot is sane and no other receive library is pinned. */
  lemma WriteCleanIff(s: Side, c: Chain)
    requires Buildable(s) && Consistent(s.enforced)
    ensures WireSide(s, false, c).errors == [] <==> Sane(s) && !PinnedElsewhere(s, c)
    ensures WireSide(s, false, c).errors == [] ==> Wired(s, WireSide(s, false, c).chain)
  {
    var p := LibrariesStage(s, false, c);
    LibrariesWrite(s, c);
    ConfigsWrite(s, p);
    OptionsWrite(s, ConfigsStage(s, false, p));
  }

  /** A write pass on a chain sends nothing and skips everything exactly when nothing is left to do. */
  lemma WriteQuietIff(s: Side, c: Chain)
    requires Buildable(s) && Consistent(s.enforced)
    ensures WireSide(s, false, c).txs == [] <==>
      && (s.remoteKnown ==> c.peer == s.expectedPeer) && c.sendLib == Some(s.targetSend)
      && (PinnedElsewhere(s, c) || c.recvLib == Some(s.targetRecv))
      && SendConfigMatches(s, c) && ReceiveConfigMatches(s, c) && OptionsMatch(c, s.enforced)
    ensures WireSide(s, false, c).txs == [] ==> WireSide(s, false, c).chain == c
    ensures Sane(s) && Wired(s, c) ==> WireSide(s, false, c).results == Skipped(s)
  {
    var p := LibrariesStage(s, false, c);
    LibrariesWrite(s, c);
    ConfigsWrite(s, p);
    OptionsWrite(s, ConfigsStage(s, false, p));
    if Sane(s) && Wired(s, c) { LibrariesSkip(s, c); }
  }

  /**
   After a write pass without errors a read-only pass only skips and a write pass sends nothing and
   changes nothing.
   */
  lemma WiringConverges(s: Side, c: Chain)
    requires Buildable(s) && Consistent(s.enforced) && WireSide(s, false, c).errors == []
    ensures var d := WireSide(s, false, c).chain;
      && WireSide(s, true, d).errors == [] && WireSide(s, true, d).results == Skipped(s)
      && WireSide(s, false, d).txs == [] && WireSide(s, false, d).chain == d && WireSide(s, false, d).errors == []
      && WireSide(s, false, d).results == Skipped(s)
  {
    var d := WireSide(s, false, c).chain;
    WriteCleanIff(s, c);
    ReadOnlyCleanIff(s, d);
    WriteQuietIff(s, d);
    WriteCleanIff(s, d);
  }

  /**
   After any write pass, clean or not, the next one sends nothing unless the snapshot names the zero
   address for a library it may set.
   */
  lemma SecondPassQuietIff(s: Side, c: Chain)
    requires Buildable(s) && Consistent(s.enforced)
    ensures var d := WireSide(s, false, c).chain;
      WireSide(s, false, d).txs == [] <==>
        (s.targetSend != ZERO || c.sendLib == Some(ZERO)) &&
        (s.targetRecv != ZERO || c.recvLib == Some(ZERO) || PinnedElsewhere(s, c))
  {
    var d := WireSide(s, false, c).chain;
    var p := LibrariesStage(s, false, c);
    LibrariesWrite(s, c);
    ConfigsWrite(s, p);
    OptionsWrite(s, ConfigsStage(s, false, p));
    WriteQuietIff(s, d);
  }

  /**
   With the zero address named as the send library, every write pass after the first sends that call again:
   setting a library to zero goes back to the default, which the next pass takes for work to do.
   */
  lemma ZeroLibraryIsNeverDone(s: Side, c: Chain)
    requires Buildable(s) && Consistent(s.enforced) && s.targetSend == ZERO && c.sendLib != Some(ZERO)
    ensures var d := WireSide(s, false, c).chain;
      && d.sendLib.None? && SetSendLibrary(ZERO) in WireSide(s, false, d).txs
      && WireSide(s, false, d).chain.sendLib.None?
  {
    ZeroSent(s, c);
    ZeroSent(s, WireSide(s, false, c).chain);
  }

  lemma ZeroSent(s: Side, c: Chain)
    requires Buildable(s) && Consistent(s.enforced) && s.targetSend == ZERO && c.sendLib != Some(ZERO)
    ensures WireSide(s, false, c).chain.sendLib.None? && SetSendLibrary(ZERO) in WireSide(s, false, c).txs
  {
    var p := PeerStage(s, false, Pass(c, [], [], []));
    var q := SendStage(s, false, p);
    assert q.txs == p.txs + [SetSendLibrary(ZERO)] && q.txs[|p.txs|] == SetSendLibrary(ZERO);
    var r := LibrariesStage(s, false, c);
    assert q.txs <= r.txs && r.chain.sendLib.None?;
    var t := ConfigsStage(s, false, r);
    assert r.txs <= t.txs && t.chain.sendLib.None?;
    OptionsWrite(s, t);
    assert WireSide(s, false, c).txs[|p.txs|] == SetSendLibrary(ZERO);
  }

  ghost predicate NoRepoint(txs: seq<Tx>) {
    forall i :: 0 <= i < |txs| ==> !txs[i].SetReceiveLibrary?
  }

  lemma LibrariesPinned(s: Side, readOnly: bool, c: Chain)
    requires PinnedElsewhere(s, c)
    ensures var p := LibrariesStage(s, readOnly, c);
      p.chain.recvLib == c.recvLib && ReceiveLibraryChangeRefused in p.errors && NoRepoint(p.txs)
  {
    var q := SendStage(s, readOnly, PeerStage(s, readOnly, Pass(c, [], [], [])));
    assert q.chain.recvLib == c.recvLib && NoRepoint(q.txs);
    assert ReceiveStage(s, readOnly, q) == q.Say(ReceiveLibrary, Refuse).Complain([ReceiveLibraryChangeRefused]);
  }

  lemma ConfigsPinned(s: Side, readOnly: bool, p: Pass)
    requires NoRepoint(p.txs)
    ensures var q := ConfigsStage(s, readOnly, p);
      q.chain.recvLib == p.chain.recvLib && p.errors <= q.errors && NoRepoint(q.txs)
  {
  }

  lemma OptionsPinned(s: Side, readOnly: bool, p: Pass)
    requires NoRepoint(p.txs)
    ensures var q := OptionsStage(s, readOnly, p);
      q.chain.recvLib == p.chain.recvLib && p.errors <= q.errors && NoRepoint(q.txs)
  {
    OptionsReadShape(readOnly, p, s.enforced);
    SayAllKeeps(OptionsRead(readOnly, p, s.enforced).Send(SetEnforcedOptions(s.enforced)), s.enforced);
  }

  /** No pass re-points a receive library pinned elsewhere; it is reported instead. */
  lemma PinnedReceiveStays(s: Side, readOnly: bool, c: Chain)
    requires PinnedElsewhere(s, c)
    ensures WireSide(s, readOnly, c).chain.recvLib == c.recvLib
    ensures ReceiveLibraryChangeRefused in WireSide(s, readOnly, c).errors && NoRepoint(WireSide(s, readOnly, c).txs)
  {
    var p := LibrariesStage(s, readOnly, c);
    LibrariesPinned(s, readOnly, c);
    ConfigsPinned(s, readOnly, p);
    OptionsPinned(s, readOnly, ConfigsStage(s, readOnly, p));
  }
}
