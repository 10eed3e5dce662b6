/** The two passport encoders of scripts/svm-devnet-init.ts against the program's instruction enum. */
module PassportEncoders {
  import opened Common
  import opened Bytes
  import opened Encoders

  datatype PassportIx =
    | InitPassport(namespace: int, localEid: int, endpoint: seq<byte>, disputeDeposit: int, staking: seq<byte>,
      forfeit: seq<byte>)
    | SetBridgeGateway(gateway: seq<byte>)

  predicate SizedPassport(ix: PassportIx) {
    match ix
    case InitPassport(_, _, endpoint, _, staking, forfeit) => |endpoint| == 32 && |staking| == 32 && |forfeit| == 32
    case SetBridgeGateway(gateway) => |gateway| == 32
  }

  function PassportLayout(tag: byte): Option<seq<FieldType>> {
    if tag == 0 then Some([U128, U32, Bytes32, U64, Bytes32, Bytes32])
    else if tag == 1 then Some([Bytes32])
    else None
  }

  function PassportTag(ix: PassportIx): byte { if ix.InitPassport? then 0 else 1 }

  function PassportFields(ix: PassportIx): seq<Field> {
    match ix
    case InitPassport(namespace, eid, endpoint, deposit, staking, forfeit) =>
      [Num(namespace), Num(eid), Raw(endpoint), Num(deposit), Raw(staking), Raw(forfeit)]
    case SetBridgeGateway(gateway) => [Raw(gateway)]
  }

  /** The encoders as written. */
  function EncodePassport(ix: PassportIx): Option<seq<byte>> {
    match ix
    case InitPassport(namespace, eid, endpoint, deposit, staking, forfeit) =>
      Concat([Some([0]), Some(ToLE(namespace, 16)), WriteUInt(eid, 4), Some(endpoint), WriteUInt(deposit, 8),
        Some(staking), Some(forfeit)])
    case SetBridgeGateway(gateway) => Concat([Some([1]), Some(gateway)])
  }

  function FromPassportFields(tag: byte, fs: seq<Field>): PassportIx
    requires PassportLayout(tag).Some? && AllTyped(PassportLayout(tag).value, fs)
  {
    if tag == 0 then InitPassport(fs[0].n, fs[1].n, fs[2].bytes, fs[3].n, fs[4].bytes, fs[5].bytes)
    else SetBridgeGateway(fs[0].bytes)
  }

  /** The program's reading of instruction data. */
  function DecodePassport(bs: seq<byte>): Option<PassportIx> {
    if bs == [] || PassportLayout(bs[0]).None? then None
    else
      var fs := DecodeFields(PassportLayout(bs[0]).value, bs[1..]);
      if fs.None? || !AllTyped(PassportLayout(bs[0]).value, fs.value) then None
      else Some(FromPassportFields(bs[0], fs.value))
  }

  function CutPassport(ix: PassportIx): PassportIx {
    if ix.InitPassport? then ix.(namespace := ix.namespace % Pow256(16)) else ix
  }

  lemma InitParts(ix: PassportIx)
    requires SizedPassport(ix) && ix.InitPassport?
    ensures PassportLayout(0).Some? && AllTyped(PassportLayout(0).value, PassportFields(ix))
    ensures PartsOf(PassportLayout(0).value, PassportFields(ix)) ==
      [Some(ToLE(ix.namespace, 16)), WriteUInt(ix.localEid, 4), Some(ix.endpoint), WriteUInt(ix.disputeDeposit, 8),
       Some(ix.staking), Some(ix.forfeit)]
  {
  }

  lemma PassportParts(ix: PassportIx)
    requires SizedPassport(ix)
    ensures PassportLayout(PassportTag(ix)).Some? && AllTyped(PassportLayout(PassportTag(ix)).value, PassportFields(ix))
    ensures EncodePassport(ix) ==
      Concat([Some([PassportTag(ix)])] + PartsOf(PassportLayout(PassportTag(ix)).value, PassportFields(ix)))
  {
    if ix.InitPassport? {
      InitParts(ix);
      Prefixed(Some([0]), Some(ToLE(ix.namespace, 16)), WriteUInt(ix.localEid, 4), Some(ix.endpoint),
               WriteUInt(ix.disputeDeposit, 8), Some(ix.staking), Some(ix.forfeit));
    } else {
      assert PartsOf(PassportLayout(1).value, PassportFields(ix)) == [Some(ix.gateway)];
      assert [Some([1 as byte])] + [Some(ix.gateway)] == [Some([1]), Some(ix.gateway)];
    }
  }

  lemma Prefixed<T>(a: T, b: T, c: T, d: T, e: T, f: T, g: T)
    ensures [a] + [b, c, d, e, f, g] == [a, b, c, d, e, f, g]
  {
  }

  /** Tag and Borsh fields of the program's enum. */
  lemma PassportIsBorsh(ix: PassportIx)
    requires SizedPassport(ix)
    ensures PassportLayout(PassportTag(ix)).Some? && AllTyped(PassportLayout(PassportTag(ix)).value, PassportFields(ix))
    ensures var body := EncodeFields(PassportLayout(PassportTag(ix)).value, PassportFields(ix));
      EncodePassport(ix) == if body.None? then None else Some([PassportTag(ix)] + body.value)
  {
    PassportParts(ix);
    var parts := PartsOf(PassportLayout(PassportTag(ix)).value, PassportFields(ix));
    FieldsAreParts(PassportLayout(PassportTag(ix)).value, PassportFields(ix));
    assert ([Some([PassportTag(ix)])] + parts)[1..] == parts;
  }

  lemma CutPassportIsReduced(ix: PassportIx)
    requires SizedPassport(ix)
    ensures PassportLayout(PassportTag(ix)).Some? &&
      AllTyped(PassportLayout(PassportTag(ix)).value, PassportFields(CutPassport(ix)))
    ensures AllReduced(PassportLayout(PassportTag(ix)).value, PassportFields(ix)) == PassportFields(CutPassport(ix))
    ensures FromPassportFields(PassportTag(ix), PassportFields(CutPassport(ix))) == CutPassport(ix)
  {
    var ts, fs := PassportLayout(PassportTag(ix)).value, PassportFields(ix);
    CutPassportTyped(ix);
    ReducedAt(ts, fs);
    forall i | 0 <= i < |fs| ensures AllReduced(ts, fs)[i] == PassportFields(CutPassport(ix))[i] {
      CutPassportAt(ix, i);
    }
  }

  lemma CutPassportTyped(ix: PassportIx)
    requires SizedPassport(ix)
    ensures PassportLayout(PassportTag(ix)).Some?
    ensures AllTyped(PassportLayout(PassportTag(ix)).value, PassportFields(CutPassport(ix)))
    ensures FromPassportFields(PassportTag(ix), PassportFields(CutPassport(ix))) == CutPassport(ix)
    ensures |PassportFields(ix)| == |PassportFields(CutPassport(ix))| == |PassportLayout(PassportTag(ix)).value|
  {
  }

  lemma CutPassportAt(ix: PassportIx, i: nat)
    requires SizedPassport(ix) && i < |PassportFields(ix)|
    ensures PassportLayout(PassportTag(ix)).Some? && |PassportFields(ix)| == |PassportFields(CutPassport(ix))|
    ensures |PassportLayout(PassportTag(ix)).value| == |PassportFields(ix)|
    ensures Reduced(PassportLayout(PassportTag(ix)).value[i], PassportFields(ix)[i]) ==
      PassportFields(CutPassport(ix))[i]
  {
  }

  /** The program reads back what was encoded; only a namespace over 128 bits is cut. */
  lemma DecodeEncodePassport(ix: PassportIx)
    requires SizedPassport(ix) && EncodePassport(ix).Some?
    ensures DecodePassport(EncodePassport(ix).value) == Some(CutPassport(ix))
  {
    PassportIsBorsh(ix);
    var ts, bs := PassportLayout(PassportTag(ix)).value, EncodePassport(ix).value;
    assert bs[1..] == EncodeFields(ts, PassportFields(ix)).value;
    FieldsRoundTrip(ts, PassportFields(ix));
    CutPassportIsReduced(ix);
  }
}
