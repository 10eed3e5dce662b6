/**
 wireSide as it runs: sections that read, maybe send a transaction, and push to results and errors. Each
 section is proved to be its stage in module BridgeWire, so the theorems there are about this pass.
 */
module WirePass {
  import opened Common
  import opened BridgeWire

  class Wiring {
    const side: Side
    const readOnly: bool
    var chain: Chain
    var txs: seq<Tx>
    var results: seq<ActionResult>
    var errors: seq<Error>

    ghost function Value(): Pass
      reads this
    {
      Pass(chain, txs, results, errors)
    }

    constructor (side: Side, readOnly: bool, chain: Chain)
      ensures this.side == side && this.readOnly == readOnly && Value() == Pass(chain, [], [], [])
    {
      this.side, this.readOnly, this.chain := side, readOnly, chain;
      txs, results, errors := [], [], [];
    }

    method WriteContract(tx: Tx)
      modifies this
      ensures Value() == old(Value()).Send(tx)
    {
      chain := Apply(chain, tx);
      txs := txs + [tx];
    }

    method Push(action: Action, status: Status)
      modifies this
      ensures Value() == old(Value()).Say(action, status)
    {
      results := results + [ActionResult(action, status)];
    }

    method WirePeer()
      modifies this
      ensures Value() == PeerStage(side, readOnly, old(Value()))
    {
      if !side.remoteKnown {
        Push(PeerAction, Read);
        errors := errors + [RemoteUnknown];
      } else if chain.peer == side.expectedPeer {
        Push(PeerAction, Skip);
      } else if readOnly {
        Push(PeerAction, Read);
        errors := errors + [PeerNotSet];
      } else {
        WriteContract(SetPeer(side.expectedPeer));
        Push(PeerAction, Write);
      }
    }

    method WireSendLibrary()
      modifies this
      ensures Value() == SendStage(side, readOnly, old(Value()))
    {
      var sendLib, isDefault := GetSendLibrary(side, chain), chain.sendLib.None?;
      if !isDefault && sendLib == side.targetSend {
        Push(SendLibrary, Skip);
      } else if readOnly {
        Push(SendLibrary, Read);
      } else {
        WriteContract(SetSendLibrary(side.targetSend));
        Push(SendLibrary, Write);
      }
    }

    method WireReceiveLibrary()
      modifies this
      ensures Value() == ReceiveStage(side, readOnly, old(Value()))
    {
      var recvLib, isDefault := GetRecvLibrary(side, chain), chain.recvLib.None?;
      if !isDefault && recvLib == side.targetRecv {
        Push(ReceiveLibrary, Skip);
      } else if !isDefault && recvLib != side.targetRecv && recvLib != ZERO {
        Push(ReceiveLibrary, Refuse);
        errors := errors + [ReceiveLibraryChangeRefused];
      } else if readOnly {
        Push(ReceiveLibrary, Read);
      } else {
        WriteContract(SetReceiveLibrary(side.targetRecv));
        Push(ReceiveLibrary, Write);
      }
    }

    method WireLibraries()
      requires Value() == Pass(chain, [], [], [])
      modifies this
      ensures Value() == LibrariesStage(side, readOnly, old(chain))
    {
      WirePeer();
      WireSendLibrary();
      WireReceiveLibrary();
      errors := errors + LibraryErrors(side, chain);
    }

    method WireSendConfig()
      modifies this
      ensures Value() == ConfigSendStage(side, readOnly, old(Value()))
    {
      var uln := GetConfig(side, chain, side.targetSend, UlnType);
      var exec := GetConfig(side, chain, side.targetSend, ExecutorType);
      var ulnMatches, execMatches := false, false;
      if uln.Some? && exec.Some? {
        ulnMatches, execMatches := uln.value == ExpectedUln(side), exec.value == ExpectedExecutor(side);
      }
      if ulnMatches && execMatches {
        Push(ConfigSend, Skip);
      } else if readOnly {
        Push(ConfigSend, Read);
        errors := errors + [SendConfigNotPinned];
      } else {
        WriteContract(SetConfig(side.targetSend, SendParams(side)));
        Push(ConfigSend, Write);
      }
    }

    method WireReceiveConfig()
      modifies this
      ensures Value() == ConfigReceiveStage(side, readOnly, old(Value()))
    {
      var uln := GetConfig(side, chain, side.targetRecv, UlnType);
      if uln.Some? && uln.value == ExpectedUln(side) {
        Push(ConfigReceive, Skip);
      } else if readOnly {
        Push(ConfigReceive, Read);
        errors := errors + [ReceiveConfigNotPinned];
      } else {
        WriteContract(SetConfig(side.targetRecv, [(UlnType, ExpectedUln(side))]));
        Push(ConfigReceive, Write);
      }
    }

    method WireConfigs()
      modifies this
      ensures Value() == ConfigsStage(side, readOnly, old(Value()))
    {
      WireSendConfig();
      WireReceiveConfig();
      errors := errors + DvnErrors(side, readOnly, chain);
    }

    method WireOptions()
      modifies this
      ensures Value() == OptionsStage(side, readOnly, old(Value()))
    {
      ghost var start := Value();
      var params := side.enforced;
      var differs := false;
      assert params[..|params|] == params;
      for i := 0 to |params|
        invariant Value() == OptionsRead(readOnly, start, params[..i]) && chain == start.chain
        invariant differs <==> !OptionsMatch(chain, params[..i])
      {
        assert params[..i + 1][..i] == params[..i];
        var current := GetOptions(chain, params[i].msgType);
        MatchNext(chain, params, i);
        if current == params[i].options {
          Push(Enforced(params[i].msgType), Skip);
        } else {
          differs := true;
          if readOnly {
            Push(Enforced(params[i].msgType), Read);
            errors := errors + [OptionsNotSet(params[i].msgType)];
          }
        }
      }
      if !readOnly && differs {
        WriteContract(SetEnforcedOptions(params));
        ghost var sent := Value();
        for i := 0 to |params|
          invariant Value() == SayAll(sent, params[..i])
        {
          assert params[..i + 1][..i] == params[..i];
          Push(Enforced(params[i].msgType), Write);
        }
      }
    }

    /** The pass; the collected results, errors and transactions and the chain it leaves are those of WireSide. */
    method Run()
      requires Value() == Pass(chain, [], [], [])
      modifies this
      ensures Value() == WireSide(side, readOnly, old(chain))
    {
      WireLibraries();
      WireConfigs();
      WireOptions();
    }
  }

  lemma MatchNext(c: Chain, params: seq<Param>, i: nat)
    requires i < |params|
    ensures OptionsMatch(c, params[..i + 1]) <==>
      OptionsMatch(c, params[..i]) && GetOptions(c, params[i].msgType) == params[i].options
  {
    assert params[..i + 1][..i] == params[..i];
    if OptionsMatch(c, params[..i + 1]) { assert params[..i + 1][i] == params[i]; }
  }
}
