/**
 The hand-written instruction encoders of the Solana devnet scripts, against the Borsh layout of the gateway
 program's instruction enum, and the token id byte forms.
 */
module Encoders {
  import opened Common
  import opened Bytes

  // ---------------------------------------------------------------- Borsh by layout

  datatype FieldType = U32 | U64 | U128 | Bytes32 | Vec
  datatype Field = Num(n: int) | Raw(bytes: seq<byte>)

  datatype Taken = Taken(field: Field, rest: seq<byte>)

  predicate Typed(t: FieldType, f: Field) {
    match t
    case Bytes32 => f.Raw? && |f.bytes| == 32
    case Vec => f.Raw?
    case _ => f.Num?
  }

  /** None is the RangeError of a number or a length that does not fit; 128-bit numbers are cut instead. */
  function EncodeField(t: FieldType, f: Field): Option<seq<byte>>
    requires Typed(t, f)
  {
    match t
    case U32 => WriteUInt(f.n, 4)
    case U64 => WriteUInt(f.n, 8)
    case U128 => Some(ToLE(f.n, 16))
    case Bytes32 => Some(f.bytes)
    case Vec => EncodeVec(f.bytes)
  }

  function WriteUInt(n: int, w: nat): Option<seq<byte>> {
    if 0 <= n < Pow256(w) then Some(ToLE(n, w)) else None
  }

  function EncodeVec(data: seq<byte>): Option<seq<byte>> {
    if WriteUInt(|data|, 4).None? then None else Some(WriteUInt(|data|, 4).value + data)
  }

  function TakeNum(bs: seq<byte>, w: nat): Option<Taken> {
    if |bs| < w then None else Some(Taken(Num(FromLE(bs[..w])), bs[w..]))
  }

  function TakeRaw(bs: seq<byte>, n: nat): Option<Taken> {
    if |bs| < n then None else Some(Taken(Raw(bs[..n]), bs[n..]))
  }

  /** Borsh: little-endian integers, fixed arrays as they are, vectors behind a 32-bit length. */
  function DecodeField(t: FieldType, bs: seq<byte>): Option<Taken> {
    match t
    case U32 => TakeNum(bs, 4)
    case U64 => TakeNum(bs, 8)
    case U128 => TakeNum(bs, 16)
    case Bytes32 => TakeRaw(bs, 32)
    case Vec =>
      var len := TakeNum(bs, 4);
      if len.None? then None else TakeRaw(len.value.rest, len.value.field.n)
  }

  predicate AllTyped(ts: seq<FieldType>, fs: seq<Field>) {
    |ts| == |fs| && forall i :: 0 <= i < |ts| ==> Typed(ts[i], fs[i])
  }

  function EncodeFields(ts: seq<FieldType>, fs: seq<Field>): Option<seq<byte>>
    requires AllTyped(ts, fs)
  {
    if ts == [] then Some([])
    else
      var head, tail := EncodeField(ts[0], fs[0]), EncodeFields(ts[1..], fs[1..]);
      if head.None? || tail.None? then None else Some(head.value + tail.value)
  }

  /** Every byte must be used up. */
  function DecodeFields(ts: seq<FieldType>, bs: seq<byte>): Option<seq<Field>> {
    if ts == [] then if bs == [] then Some([]) else None
    else
      var head := DecodeField(ts[0], bs);
      if head.None? then None
      else
        var tail := DecodeFields(ts[1..], head.value.rest);
        if tail.None? then None else Some([head.value.field] + tail.value)
  }

  /** What decoding gives back: a 128-bit number is reduced, everything else is as encoded. */
  function Reduced(t: FieldType, f: Field): Field {
    if t == U128 && f.Num? then Num(f.n % Pow256(16)) else f
  }

  lemma FieldRoundTrip(t: FieldType, f: Field, rest: seq<byte>)
    requires Typed(t, f) && EncodeField(t, f).Some?
    ensures DecodeField(t, EncodeField(t, f).value + rest) == Some(Taken(Reduced(t, f), rest))
  {
    var bs := EncodeField(t, f).value;
    match t {
      case U32 => FitsRoundTrip(f.n, 4, rest);
      case U64 => FitsRoundTrip(f.n, 8, rest);
      case U128 => NumRoundTrip(f.n, 16, rest);
      case Bytes32 => assert (bs + rest)[..32] == bs && (bs + rest)[32..] == rest;
      case Vec => VecRoundTrip(f.bytes, rest);
    }
  }

  lemma VecRoundTrip(data: seq<byte>, rest: seq<byte>)
    requires EncodeVec(data).Some?
    ensures DecodeField(Vec, EncodeVec(data).value + rest) == Some(Taken(Raw(data), rest))
  {
    FitsRoundTrip(|data|, 4, data + rest);
    Regrouped(ToLE(|data|, 4), data, rest);
  }

  lemma Regrouped(len: seq<byte>, data: seq<byte>, rest: seq<byte>)
    ensures (len + data) + rest == len + (data + rest)
    ensures (data + rest)[..|data|] == data && (data + rest)[|data|..] == rest
  {
  }

  lemma FitsRoundTrip(n: int, w: nat, rest: seq<byte>)
    requires 0 <= n < Pow256(w)
    ensures TakeNum(ToLE(n, w) + rest, w) == Some(Taken(Num(n), rest))
  {
    NumRoundTrip(n, w, rest);
    ModUnique(n, Pow256(w), 0, n);
  }

  lemma NumRoundTrip(n: int, w: nat, rest: seq<byte>)
    ensures TakeNum(ToLE(n, w) + rest, w) == Some(Taken(Num(n % Pow256(w)), rest))
  {
    FromToLE(n, w);
    assert (ToLE(n, w) + rest)[..w] == ToLE(n, w) && (ToLE(n, w) + rest)[w..] == rest;
  }

  function AllReduced(ts: seq<FieldType>, fs: seq<Field>): seq<Field>
    requires |ts| == |fs|
  {
    if ts == [] then [] else [Reduced(ts[0], fs[0])] + AllReduced(ts[1..], fs[1..])
  }

  lemma {:induction false} FieldsRoundTrip(ts: seq<FieldType>, fs: seq<Field>)
    requires AllTyped(ts, fs) && EncodeFields(ts, fs).Some?
    ensures DecodeFields(ts, EncodeFields(ts, fs).value) == Some(AllReduced(ts, fs))
    decreases |ts|
  {
    if ts != [] {
      FieldsRoundTrip(ts[1..], fs[1..]);
      FieldRoundTrip(ts[0], fs[0], EncodeFields(ts[1..], fs[1..]).value);
    }
  }

  /** What decodes is typed, and encodes to the bytes it came from. */
  lemma FieldCanonical(t: FieldType, bs: seq<byte>)
    requires DecodeField(t, bs).Some?
    ensures var d := DecodeField(t, bs).value;
      Typed(t, d.field) && EncodeField(t, d.field).Some? && EncodeField(t, d.field).value + d.rest == bs
  {
    match t {
      case U32 => ToFromLE(bs[..4]);
      case U64 => ToFromLE(bs[..8]);
      case U128 => ToFromLE(bs[..16]);
      case Bytes32 =>
      case Vec =>
        ToFromLE(bs[..4]);
        var n := FromLE(bs[..4]);
        assert |bs[4..][..n]| == n;
        assert bs[..4] + bs[4..][..n] + bs[4..][n..] == bs;
    }
  }

  lemma {:induction false} FieldsCanonical(ts: seq<FieldType>, bs: seq<byte>)
    requires DecodeFields(ts, bs).Some?
    ensures AllTyped(ts, DecodeFields(ts, bs).value) && EncodeFields(ts, DecodeFields(ts, bs).value) == Some(bs)
    decreases |ts|
  {
    if ts != [] {
      FieldCanonical(ts[0], bs);
      var d := DecodeField(ts[0], bs).value;
      FieldsCanonical(ts[1..], d.rest);
      var fs := DecodeFields(ts, bs).value;
      assert fs[1..] == DecodeFields(ts[1..], d.rest).value;
    }
  }

  // ---------------------------------------------------------------- gateway instructions

  datatype GatewayIx =
    | Initialize(localEid: int, endpoint: seq<byte>, passport: seq<byte>, namespace: int)
    | Send(dstEid: int, to: seq<byte>, tokenId: seq<byte>, nativeFee: int, options: seq<byte>)
    | LzReceive(srcEid: int, sender: seq<byte>, nonce: int, guid: seq<byte>, message: seq<byte>)
    | LzReceiveTypes(payload: seq<byte>)
    | RegisterOApp(delegate: seq<byte>)
    | SetPeer(remoteEid: int, peer: seq<byte>)

  /** The fixed field widths: pubkeys, token ids and guids are 32 bytes. */
  predicate Sized(ix: GatewayIx) {
    match ix
    case Initialize(_, endpoint, passport, _) => |endpoint| == 32 && |passport| == 32
    case Send(_, to, tokenId, _, _) => |to| == 32 && |tokenId| == 32
    case LzReceive(_, sender, _, guid, _) => |sender| == 32 && |guid| == 32
    case LzReceiveTypes(_) => true
    case RegisterOApp(delegate) => |delegate| == 32
    case SetPeer(_, peer) => |peer| == 32
  }

  /** The program's discriminators and field types. */
  function TagOf(ix: GatewayIx): byte {
    match ix
    case Initialize(_, _, _, _) => 0
    case Send(_, _, _, _, _) => 1
    case LzReceive(_, _, _, _, _) => 2
    case LzReceiveTypes(_) => 4
    case RegisterOApp(_) => 5
    case SetPeer(_, _) => 6
  }

  function Layout(tag: byte): Option<seq<FieldType>> {
    if tag == 0 then Some([U32, Bytes32, Bytes32, U128])
    else if tag == 1 then Some([U32, Bytes32, Bytes32, U64, Vec])
    else if tag == 2 then Some([U32, Bytes32, U64, Bytes32, Vec])
    else if tag == 4 then Some([Vec])
    else if tag == 5 then Some([Bytes32])
    else if tag == 6 then Some([U32, Bytes32])
    else None
  }

  function FieldsOf(ix: GatewayIx): seq<Field> {
    match ix
    case Initialize(eid, endpoint, passport, namespace) => [Num(eid), Raw(endpoint), Raw(passport), Num(namespace)]
    case Send(eid, to, tokenId, fee, options) => [Num(eid), Raw(to), Raw(tokenId), Num(fee), Raw(options)]
    case LzReceive(eid, sender, nonce, guid, message) => [Num(eid), Raw(sender), Num(nonce), Raw(guid), Raw(message)]
    case LzReceiveTypes(message) => [Raw(message)]
    case RegisterOApp(delegate) => [Raw(delegate)]
    case SetPeer(eid, peer) => [Num(eid), Raw(peer)]
  }

  function FromFields(tag: byte, fs: seq<Field>): GatewayIx
    requires Layout(tag).Some? && AllTyped(Layout(tag).value, fs)
  {
    if tag == 0 then Initialize(fs[0].n, fs[1].bytes, fs[2].bytes, fs[3].n)
    else if tag == 1 then Send(fs[0].n, fs[1].bytes, fs[2].bytes, fs[3].n, fs[4].bytes)
    else if tag == 2 then LzReceive(fs[0].n, fs[1].bytes, fs[2].n, fs[3].bytes, fs[4].bytes)
    else if tag == 4 then LzReceiveTypes(fs[0].bytes)
    else if tag == 5 then RegisterOApp(fs[0].bytes)
    else SetPeer(fs[0].n, fs[1].bytes)
  }

  function Concat(parts: seq<Option<seq<byte>>>): Option<seq<byte>> {
    if parts == [] then Some([])
    else
      var tail := Concat(parts[1..]);
      if parts[0].None? || tail.None? then None else Some(parts[0].value + tail.value)
  }

  /** The encoders as written, one concatenation each. */
  function Encode(ix: GatewayIx): Option<seq<byte>> {
    match ix
    case Initialize(eid, endpoint, passport, namespace) =>
      Concat([Some([0]), WriteUInt(eid, 4), Some(endpoint), Some(passport), Some(ToLE(namespace, 16))])
    case Send(eid, to, tokenId, fee, options) =>
      Concat([Some([1]), WriteUInt(eid, 4), Some(to), Some(tokenId), WriteUInt(fee, 8), WriteUInt(|options|, 4),
        Some(options)])
    case LzReceive(eid, sender, nonce, guid, message) =>
      Concat([Some([2]), WriteUInt(eid, 4), Some(sender), WriteUInt(nonce, 8), Some(guid), EncodeVec(message)])
    case LzReceiveTypes(message) => Concat([Some([4]), EncodeVec(message)])
    case RegisterOApp(delegate) => Concat([Some([5]), Some(delegate)])
    case SetPeer(eid, peer) => Concat([Some([6]), WriteUInt(eid, 4), Some(peer)])
  }

  /** The program's reading of instruction data. */
  function Decode(bs: seq<byte>): Option<GatewayIx> {
    if bs == [] || Layout(bs[0]).None? then None
    else
      var fs := DecodeFields(Layout(bs[0]).value, bs[1..]);
      if fs.None? || !AllTyped(Layout(bs[0]).value, fs.value) then None else Some(FromFields(bs[0], fs.value))
  }

  /** The namespace is all that can be cut. */
  function Cut(ix: GatewayIx): GatewayIx {
    if ix.Initialize? then ix.(namespace := ix.namespace % Pow256(16)) else ix
  }

  lemma ByLayout(ix: GatewayIx)
    requires Sized(ix)
    ensures Layout(TagOf(ix)).Some? && AllTyped(Layout(TagOf(ix)).value, FieldsOf(ix))
    ensures FromFields(TagOf(ix), FieldsOf(ix)) == ix
  {
  }

  function PartsOf(ts: seq<FieldType>, fs: seq<Field>): seq<Option<seq<byte>>>
    requires AllTyped(ts, fs)
  {
    seq(|ts|, i requires 0 <= i < |ts| => EncodeField(ts[i], fs[i]))
  }

  lemma {:induction false} FieldsAreParts(ts: seq<FieldType>, fs: seq<Field>)
    requires AllTyped(ts, fs)
    ensures EncodeFields(ts, fs) == Concat(PartsOf(ts, fs))
    decreases |ts|
  {
    if ts != [] {
      FieldsAreParts(ts[1..], fs[1..]);
      assert PartsOf(ts, fs)[1..] == PartsOf(ts[1..], fs[1..]);
    }
  }

  /** The length and the bytes of a vector may be concatenated one by one. */
  lemma {:induction false} VecInParts(parts: seq<Option<seq<byte>>>, data: seq<byte>)
    ensures Concat(parts + [WriteUInt(|data|, 4), Some(data)]) == Concat(parts + [EncodeVec(data)])
    decreases |parts|
  {
    var two, one := [WriteUInt(|data|, 4), Some(data)], [EncodeVec(data)];
    if parts == [] {
      assert parts + two == two && parts + one == one && two[1..] == [Some(data)] && [Some(data)][1..] == [] &&
        one[1..] == [];
      assert Concat([Some(data)]) == Some(data + []);
      assert data + [] == data && EncodeVec(data).Some? ==> EncodeVec(data).value + [] == EncodeVec(data).value;
    } else {
      VecInParts(parts[1..], data);
      assert (parts + two)[1..] == parts[1..] + two && (parts + one)[1..] == parts[1..] + one;
    }
  }

  lemma PartsMatch(ix: GatewayIx)
    requires Sized(ix) && !ix.Send?
    ensures Layout(TagOf(ix)).Some? && AllTyped(Layout(TagOf(ix)).value, FieldsOf(ix))
    ensures Encode(ix) == Concat([Some([TagOf(ix)])] + PartsOf(Layout(TagOf(ix)).value, FieldsOf(ix)))
  {
    ByLayout(ix);
    var parts := PartsOf(Layout(TagOf(ix)).value, FieldsOf(ix));
    match ix {
      case Initialize(eid, endpoint, passport, namespace) =>
        assert parts == [WriteUInt(eid, 4), Some(endpoint), Some(passport), Some(ToLE(namespace, 16))];
        assert [Some([0 as byte])] + parts ==
          [Some([0]), WriteUInt(eid, 4), Some(endpoint), Some(passport), Some(ToLE(namespace, 16))];
      case LzReceive(eid, sender, nonce, guid, message) =>
        assert parts == [WriteUInt(eid, 4), Some(sender), WriteUInt(nonce, 8), Some(guid), EncodeVec(message)];
        assert [Some([2 as byte])] + parts ==
          [Some([2]), WriteUInt(eid, 4), Some(sender), WriteUInt(nonce, 8), Some(guid), EncodeVec(message)];
      case LzReceiveTypes(message) =>
        assert parts == [EncodeVec(message)];
        assert [Some([4 as byte])] + parts == [Some([4]), EncodeVec(message)];
      case RegisterOApp(delegate) =>
        assert parts == [Some(delegate)];
        assert [Some([5 as byte])] + parts == [Some([5]), Some(delegate)];
      case SetPeer(eid, peer) =>
        assert parts == [WriteUInt(eid, 4), Some(peer)];
        assert [Some([6 as byte])] + parts == [Some([6]), WriteUInt(eid, 4), Some(peer)];
    }
  }

  lemma SendParts(ix: GatewayIx)
    requires Sized(ix) && ix.Send?
    ensures Layout(1).Some? && AllTyped(Layout(1).value, FieldsOf(ix))
    ensures PartsOf(Layout(1).value, FieldsOf(ix)) ==
      [WriteUInt(ix.dstEid, 4), Some(ix.to), Some(ix.tokenId), WriteUInt(ix.nativeFee, 8), EncodeVec(ix.options)]
  {
  }

  lemma SendPartsMatch(ix: GatewayIx)
    requires Sized(ix) && ix.Send?
    ensures Layout(1).Some? && AllTyped(Layout(1).value, FieldsOf(ix))
    ensures Encode(ix) == Concat([Some([1])] + PartsOf(Layout(1).value, FieldsOf(ix)))
  {
    SendParts(ix);
    SendConcat(Some([1]), WriteUInt(ix.dstEid, 4), Some(ix.to), Some(ix.tokenId), WriteUInt(ix.nativeFee, 8),
      ix.options);
  }

  lemma SendConcat(a: Option<seq<byte>>, b: Option<seq<byte>>, c: Option<seq<byte>>, d: Option<seq<byte>>,
      e: Option<seq<byte>>, data: seq<byte>)
    ensures Concat([a, b, c, d, e, WriteUInt(|data|, 4), Some(data)]) == Concat([a] + [b, c, d, e, EncodeVec(data)])
  {
    VecInParts([a, b, c, d, e], data);
    assert [a, b, c, d, e] + [WriteUInt(|data|, 4), Some(data)] == [a, b, c, d, e, WriteUInt(|data|, 4), Some(data)];
    assert [a, b, c, d, e] + [EncodeVec(data)] == [a] + [b, c, d, e, EncodeVec(data)];
  }

  /** Each hand-written concatenation is the tag and the Borsh fields of its layout. */
  lemma EncodeIsBorsh(ix: GatewayIx)
    requires Sized(ix)
    ensures Layout(TagOf(ix)).Some? && AllTyped(Layout(TagOf(ix)).value, FieldsOf(ix))
    ensures var body := EncodeFields(Layout(TagOf(ix)).value, FieldsOf(ix));
      Encode(ix) == if body.None? then None else Some([TagOf(ix)] + body.value)
  {
    if ix.Send? { SendPartsMatch(ix); } else { PartsMatch(ix); }
    var parts := PartsOf(Layout(TagOf(ix)).value, FieldsOf(ix));
    FieldsAreParts(Layout(TagOf(ix)).value, FieldsOf(ix));
    assert ([Some([TagOf(ix)])] + parts)[1..] == parts;
  }

  lemma CutIsReduced(ix: GatewayIx)
    requires Sized(ix)
    ensures Layout(TagOf(ix)).Some? && AllTyped(Layout(TagOf(ix)).value, FieldsOf(ix))
    ensures AllReduced(Layout(TagOf(ix)).value, FieldsOf(ix)) == FieldsOf(Cut(ix))
  {
    var ts, fs := Layout(TagOf(ix)).value, FieldsOf(ix);
    ReducedAt(ts, fs);
    forall i | 0 <= i < |fs| ensures AllReduced(ts, fs)[i] == FieldsOf(Cut(ix))[i] { CutAt(ix, i); }
  }

  lemma CutAt(ix: GatewayIx, i: nat)
    requires Sized(ix) && i < |FieldsOf(ix)|
    ensures Layout(TagOf(ix)).Some? && |Layout(TagOf(ix)).value| == |FieldsOf(ix)| == |FieldsOf(Cut(ix))|
    ensures Reduced(Layout(TagOf(ix)).value[i], FieldsOf(ix)[i]) == FieldsOf(Cut(ix))[i]
  {
  }

  lemma {:induction false} ReducedAt(ts: seq<FieldType>, fs: seq<Field>)
    requires |ts| == |fs|
    ensures |AllReduced(ts, fs)| == |fs| && forall i :: 0 <= i < |fs| ==> AllReduced(ts, fs)[i] == Reduced(ts[i], fs[i])
    decreases |ts|
  {
    if ts != [] { ReducedAt(ts[1..], fs[1..]); }
  }

  /** The program reads back what was encoded; only a namespace over 128 bits is cut. */
  lemma DecodeEncode(ix: GatewayIx)
    requires Sized(ix) && Encode(ix).Some?
    ensures Decode(Encode(ix).value) == Some(Cut(ix))
  {
    EncodeIsBorsh(ix);
    var ts, bs := Layout(TagOf(ix)).value, Encode(ix).value;
    assert bs[1..] == EncodeFields(ts, FieldsOf(ix)).value;
    FieldsRoundTrip(ts, FieldsOf(ix));
    CutIsReduced(ix);
    ByLayout(Cut(ix));
  }

  /** Encoding is injective over all instructions together, up to the cut. */
  lemma EncodeInjective(a: GatewayIx, b: GatewayIx)
    requires Sized(a) && Sized(b) && Encode(a).Some? && Encode(b).Some?
    ensures Encode(a) == Encode(b) <==> Cut(a) == Cut(b)
  {
    DecodeEncode(a);
    DecodeEncode(b);
    EncodeCut(a);
    EncodeCut(b);
  }

  lemma EncodeCut(ix: GatewayIx)
    ensures Encode(Cut(ix)) == Encode(ix)
  {
    if ix.Initialize? {
      FromToLE(ix.namespace, 16);
      ToFromLE(ToLE(ix.namespace, 16));
    }
  }

  /** What the program reads was encoded from what it reads: no other bytes decode. */
  lemma EncodeDecode(bs: seq<byte>)
    requires Decode(bs).Some?
    ensures Sized(Decode(bs).value) && Encode(Decode(bs).value) == Some(bs)
  {
    var ts := Layout(bs[0]).value;
    FieldsCanonical(ts, bs[1..]);
    var fs, ix := DecodeFields(ts, bs[1..]).value, Decode(bs).value;
    FieldsBack(bs[0], fs);
    EncodeIsBorsh(ix);
    assert [bs[0]] + bs[1..] == bs;
  }

  lemma FieldsBack(tag: byte, fs: seq<Field>)
    requires Layout(tag).Some? && AllTyped(Layout(tag).value, fs)
    ensures TagOf(FromFields(tag, fs)) == tag && FieldsOf(FromFields(tag, fs)) == fs && Sized(FromFields(tag, fs))
  {
    var ts := Layout(tag).value;
    assert forall i :: 0 <= i < |ts| ==> Typed(ts[i], fs[i]);
  }

  lemma {:induction false} ConcatThrowsIff(parts: seq<Option<seq<byte>>>)
    ensures Concat(parts).None? <==> exists i :: 0 <= i < |parts| && parts[i].None?
    decreases |parts|
  {
    if parts != [] {
      ConcatThrowsIff(parts[1..]);
      if i :| 0 <= i < |parts[1..]| && parts[1..][i].None? { assert parts[i + 1].None?; }
      if i :| 0 < i < |parts| && parts[i].None? { assert parts[1..][i - 1].None?; }
    }
  }

  /** Endpoint ids and lengths over 32 bits, fees and nonces over 64. */
  predicate OutOfRange(ix: GatewayIx) {
    match ix
    case Initialize(eid, _, _, _) => !(0 <= eid < Pow256(4))
    case Send(eid, _, _, fee, options) => !(0 <= eid < Pow256(4) && 0 <= fee < Pow256(8) && |options| < Pow256(4))
    case LzReceive(eid, _, nonce, _, message) =>
      !(0 <= eid < Pow256(4) && 0 <= nonce < Pow256(8) && |message| < Pow256(4))
    case LzReceiveTypes(payload) => !(|payload| < Pow256(4))
    case RegisterOApp(_) => false
    case SetPeer(eid, _) => !(0 <= eid < Pow256(4))
  }

  lemma {:induction false} FieldsThrowIff(ts: seq<FieldType>, fs: seq<Field>)
    requires AllTyped(ts, fs)
    ensures EncodeFields(ts, fs).None? <==> exists i :: 0 <= i < |ts| && EncodeField(ts[i], fs[i]).None?
  {
    FieldsAreParts(ts, fs);
    ConcatThrowsIff(PartsOf(ts, fs));
    var parts := PartsOf(ts, fs);
    if i :| 0 <= i < |ts| && EncodeField(ts[i], fs[i]).None? { assert parts[i].None?; }
  }

  /** The encoders throw exactly on a number or length that does not fit its field. */
  lemma EncodeThrowsIff(ix: GatewayIx)
    requires Sized(ix)
    ensures Encode(ix).None? <==> OutOfRange(ix)
  {
    EncodeIsBorsh(ix);
    var ts, fs := Layout(TagOf(ix)).value, FieldsOf(ix);
    FieldsThrowIff(ts, fs);
    if OutOfRange(ix) {
      var i := if ix.LzReceive? && 0 <= ix.srcEid < Pow256(4) then (if 0 <= ix.nonce < Pow256(8) then 4 else 2)
               else if ix.Send? && 0 <= ix.dstEid < Pow256(4) then (if 0 <= ix.nativeFee < Pow256(8) then 4 else 3)
               else 0;
      assert EncodeField(ts[i], fs[i]).None?;
    }
  }

  // ---------------------------------------------------------------- byte loops

  /** encodeU128Le: sixteen bytes off a shifting value. */
  method EncodeU128Le(n: int) returns (b: array<byte>)
    ensures b[..] == ToLE(n, 16)
  {
    b := new byte[16];
    var x: int := n;
    for i := 0 to 16
      invariant b[..i] + ToLE(x, 16 - i) == ToLE(n, 16)
    {
      ghost var done := b[..i];
      b[i] := x % 256;
      LowByteFirst(done, x, 16 - i);
      assert b[..i + 1] == done + [x % 256];
      x := x / 256;
    }
    assert b[..16] + ToLE(x, 0) == b[..];
  }

  lemma LowByteFirst(done: seq<byte>, x: int, w: nat)
    requires w > 0
    ensures done + ToLE(x, w) == (done + [x % 256]) + ToLE(x / 256, w - 1)
  {
  }

  lemma InTwoParts<T>(all: seq<T>, a: seq<T>, b: seq<T>)
    requires |all| == |a| + |b|
    requires forall k :: 0 <= k < |a| ==> all[k] == a[k]
    requires forall k :: 0 <= k < |b| ==> all[|a| + k] == b[k]
    ensures all == a + b
  {
  }

  /** encodeVecU8: the length, then the bytes; a length over 32 bits throws. */
  method EncodeVecU8(data: seq<byte>) returns (r: Option<seq<byte>>)
    ensures r == EncodeVec(data)
  {
    if |data| >= Pow256(4) { return None; }
    var out := new byte[4 + |data|];
    var len := ToLE(|data|, 4);
    for i := 0 to 4
      invariant forall k :: 0 <= k < i ==> out[k] == len[k]
    {
      out[i] := len[i];
    }
    for i := 0 to |data|
      invariant forall k :: 0 <= k < 4 ==> out[k] == len[k]
      invariant forall k :: 0 <= k < i ==> out[4 + k] == data[k]
    {
      out[4 + i] := data[i];
    }
    InTwoParts(out[..], len, data);
    return Some(out[..]);
  }

  /** priorTokenIdBytes: the 32-byte big-endian form of the number before, or null for zero. */
  method PriorTokenIdBytes(nextTokenId: seq<byte>) returns (r: Option<seq<byte>>)
    ensures r.None? <==> FromBE(nextTokenId) == 0
    ensures r.Some? ==> r.value == ToBE(FromBE(nextTokenId) - 1, 32)
    ensures r.Some? && |nextTokenId| <= 32 ==> FromBE(r.value) == FromBE(nextTokenId) - 1
  {
    var n := ReadBE(nextTokenId);
    if n == 0 { return None; }
    var out := WriteBE(n - 1);
    if |nextTokenId| <= 32 { PriorFits(nextTokenId); }
    return Some(out[..]);
  }

  /** The number in big-endian bytes. */
  method ReadBE(bs: seq<byte>) returns (n: nat)
    ensures n == FromBE(bs)
  {
    n := 0;
    for i := 0 to |bs|
      invariant n == FromBE(bs[..i])
    {
      assert bs[..i + 1][..i] == bs[..i];
      n := n * 256 + bs[i];
    }
    assert bs[..|bs|] == bs;
  }

  method WriteBE(prior: nat) returns (out: array<byte>)
    ensures out[..] == ToBE(prior, 32)
  {
    out := new byte[32];
    var v: int, i := prior, 31;
    while i >= 0
      invariant -1 <= i <= 31
      invariant ToBE(v, i + 1) + out[i + 1..] == ToBE(prior, 32)
      decreases i
    {
      ghost var done := out[i + 1..];
      out[i] := v % 256;
      LowByteLast(done, v, i + 1);
      assert out[i..] == [v % 256] + done;
      v := v / 256;
      i := i - 1;
    }
    assert ToBE(v, 0) + out[0..] == out[..];
  }

  lemma LowByteLast(done: seq<byte>, v: int, w: nat)
    requires w > 0
    ensures ToBE(v, w) + done == ToBE(v / 256, w - 1) + ([v % 256] + done)
  {
  }

  lemma PriorFits(next: seq<byte>)
    requires |next| <= 32 && FromBE(next) > 0
    ensures FromBE(ToBE(FromBE(next) - 1, 32)) == FromBE(next) - 1
  {
    FromBEBound(next);
    PowGrows(|next|, 32);
    RoundTripIff(FromBE(next) - 1, 32);
  }

  // ---------------------------------------------------------------- token id in hex

  /** Hexadecimal digits of n, as toString(16). */
  function HexDigits(n: nat): (r: seq<nat>)
    ensures |r| >= 1 && forall i :: 0 <= i < |r| ==> r[i] < 16
  {
    if n < 16 then [n] else HexDigits(n / 16) + [n % 16]
  }

  function PadStart(digits: seq<nat>, len: nat): seq<nat> {
    if |digits| >= len then digits else seq(len - |digits|, _ => 0) + digits
  }

  /** Buffer.from(hex): one byte per pair of digits; an odd digit at the end is dropped. */
  function FromHex(digits: seq<nat>): (r: seq<byte>)
    requires forall i :: 0 <= i < |digits| ==> digits[i] < 16
    ensures |r| == |digits| / 2
  {
    if |digits| < 2 then []
    else if |digits| % 2 == 1 then FromHex(digits[..|digits| - 1])
    else FromHex(digits[..|digits| - 2]) + [16 * digits[|digits| - 2] + digits[|digits| - 1]]
  }

  function TokenIdToBytes32(n: nat): seq<byte> {
    FromHex(PadStart(HexDigits(n), 64))
  }

  function HexValue(digits: seq<nat>): nat {
    if digits == [] then 0 else HexValue(digits[..|digits| - 1]) * 16 + digits[|digits| - 1]
  }

  lemma {:induction false} DigitsValue(n: nat)
    ensures HexValue(HexDigits(n)) == n
    decreases n
  {
    if n >= 16 {
      DigitsValue(n / 16);
      assert HexDigits(n)[..|HexDigits(n)| - 1] == HexDigits(n / 16);
    } else {
      assert HexDigits(n)[..0] == [];
    }
  }

  lemma {:induction false} ZerosFirst(k: nat, digits: seq<nat>)
    ensures HexValue(seq(k, _ => 0) + digits) == HexValue(digits)
    decreases |digits| + k
  {
    var all := seq(k, _ => 0) + digits;
    if digits != [] {
      ZerosFirst(k, digits[..|digits| - 1]);
      assert all[..|all| - 1] == seq(k, _ => 0) + digits[..|digits| - 1];
    } else if k > 0 {
      ZerosFirst(k - 1, []);
      assert all[..|all| - 1] == seq(k - 1, _ => 0) + [];
    }
  }

  lemma PairIsLast(bs: seq<byte>, high: nat, low: nat)
    requires high < 16 && low < 16
    ensures FromBE(bs + [(16 * high + low) as byte]) == (FromBE(bs) * 16 + high) * 16 + low
  {
    assert (bs + [(16 * high + low) as byte])[..|bs + [(16 * high + low) as byte]| - 1] == bs;
  }

  lemma {:induction false} PairsValue(digits: seq<nat>)
    requires (forall i :: 0 <= i < |digits| ==> digits[i] < 16) && |digits| % 2 == 0
    ensures FromBE(FromHex(digits)) == HexValue(digits)
    decreases |digits|
  {
    if digits != [] {
      var init := digits[..|digits| - 2];
      PairsValue(init);
      assert digits[..|digits| - 1][..|digits| - 2] == init;
      PairIsLast(FromHex(init), digits[|digits| - 2], digits[|digits| - 1]);
    }
  }

  lemma {:induction false} DigitsFit(n: nat, w: nat)
    requires w >= 1
    ensures |HexDigits(n)| <= 2 * w <==> n < Pow256(w)
    decreases w
  {
    if w == 1 {
      assert Pow256(1) == 256 * Pow256(0);
      if n >= 16 && n / 16 >= 16 { assert |HexDigits(n / 16 / 16)| >= 1; }
    } else if n >= 256 {
      DigitsFit(n / 256, w - 1);
      assert n / 16 / 16 == n / 256;
      assert |HexDigits(n)| == |HexDigits(n / 256)| + 2;
    } else {
      PowGrows(1, w);
      assert Pow256(1) == 256 * Pow256(0);
    }
  }

  lemma PaddedValue(n: nat)
    requires |HexDigits(n)| <= 64
    ensures |TokenIdToBytes32(n)| == 32 && FromBE(TokenIdToBytes32(n)) == n
  {
    DigitsValue(n);
    PadKeeps(HexDigits(n), 64);
    PairsValue(PadStart(HexDigits(n), 64));
  }

  lemma PadKeeps(digits: seq<nat>, len: nat)
    requires |digits| <= len && forall i :: 0 <= i < |digits| ==> digits[i] < 16
    ensures |PadStart(digits, len)| == len && HexValue(PadStart(digits, len)) == HexValue(digits)
    ensures forall i :: 0 <= i < len ==> PadStart(digits, len)[i] < 16
  {
    ZerosFirst(len - |digits|, digits);
  }

  lemma TooLong(n: nat)
    requires |HexDigits(n)| > 64
    ensures !(|TokenIdToBytes32(n)| == 32 && FromBE(TokenIdToBytes32(n)) == n)
  {
    var digits := HexDigits(n);
    if |digits| == 65 {
      var most := digits[..64];
      assert |digits| % 2 == 1 && FromHex(digits) == FromHex(most);
      PairsValue(most);
      DigitsValue(n);
      assert n == HexValue(most) * 16 + digits[64];
    }
  }

  /** A token id becomes its own 32 bytes exactly when it has at most 256 bits. */
  lemma TokenIdRoundTripIff(n: nat)
    ensures |TokenIdToBytes32(n)| == 32 && FromBE(TokenIdToBytes32(n)) == n <==> n < Pow256(32)
    ensures n < Pow256(32) ==> TokenIdToBytes32(n) == ToBE(n, 32)
  {
    DigitsFit(n, 32);
    if |HexDigits(n)| <= 64 {
      PaddedValue(n);
      RoundTripIff(n, 32);
      SameBytes(TokenIdToBytes32(n), ToBE(n, 32));
    } else {
      TooLong(n);
    }
  }

  lemma {:induction false} SameBytes(a: seq<byte>, b: seq<byte>)
    requires |a| == |b| && FromBE(a) == FromBE(b)
    ensures a == b
    decreases |a|
  {
    if a != [] {
      SameBytes(a[..|a| - 1], b[..|b| - 1]);
      assert a == a[..|a| - 1] + [a[|a| - 1]] && b == b[..|b| - 1] + [b[|b| - 1]];
    }
  }
}
