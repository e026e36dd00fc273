/** The deposit memo carried by an OP_RETURN output: version 2 layout with a version 1 fallback. */
module Memo {
  import opened Wrappers
  import opened Text

  type byte = b: int | 0 <= b < 256

  const REFERRAL_ID_LENGTH := 2
  const SEPARATOR: byte := 35
  const ZANO_ADDRESS_LENGTH := 71

  /** A destination address: the text encoding chosen for it, and the bytes that are encoded. */
  datatype Encoding = Utf8 | Hex | HexCheckSum | Base58 | Base64 | Base64Url
  datatype Destination = Destination(encoding: Encoding, raw: seq<byte>)

  datatype DepositMemo = DepositMemo(address: Destination, chainId: seq<byte>, referralId: int)

  function GetEncoder(t: byte): Option<Encoding> {
    match t
    case 1 => Some(Utf8)
    case 2 => Some(Hex)
    case 3 => Some(HexCheckSum)
    case 4 => Some(Base58)
    case 5 => Some(Base64)
    case 6 => Some(Base64Url)
    case _ => None
  }

  function BigEndian(high: int, low: int): int {
    256 * high + low
  }

  function DecodeV2(raw: seq<byte>): Option<DepositMemo> {
    if |raw| == 0 then None else
    var chainIdLength := raw[0];
    if |raw| <= 1 + chainIdLength + REFERRAL_ID_LENGTH + 1 then None else
    var end := 1 + chainIdLength;
    var encoder := GetEncoder(raw[end + REFERRAL_ID_LENGTH]);
    if encoder.None? then None
    else Some(DepositMemo(Destination(encoder.value, raw[end + REFERRAL_ID_LENGTH + 1..]),
                          raw[1..end], BigEndian(raw[end], raw[end + 1])))
  }

  function DecodeV1(raw: seq<byte>): Option<DepositMemo> {
    var parts := Split(raw, SEPARATOR);
    if |parts| < 2 then None else
    var pair := if |parts| > 2 then [Join(parts[..|parts| - 1], SEPARATOR), parts[|parts| - 1]] else parts;
    if |pair[0]| == 0 || |pair[1]| == 0 then None
    else Some(V1Memo(pair[0], pair[1]))
  }

  /** A plain address, except that a Zano address is given as raw bytes. */
  function V1Memo(addr: seq<byte>, chainId: seq<byte>): DepositMemo {
    DepositMemo(Destination(if |addr| == ZANO_ADDRESS_LENGTH then Base58 else Utf8, addr), chainId, 0)
  }

  function DecodeMemo(raw: seq<byte>): Option<DepositMemo> {
    var memo := DecodeV2(raw);
    if memo.Some? then memo else DecodeV1(raw)
  }

  // ---------- the layouts ----------

  function EncodingByte(e: Encoding): (t: byte)
    ensures GetEncoder(t) == Some(e)
  {
    match e
    case Utf8 => 1
    case Hex => 2
    case HexCheckSum => 3
    case Base58 => 4
    case Base64 => 5
    case Base64Url => 6
  }

  /** The memos the version 2 layout can carry. */
  predicate Encodable(m: DepositMemo) {
    |m.chainId| <= 255 && 0 <= m.referralId < 0x1_0000 && m.address.raw != []
  }

  function EncodeV2(m: DepositMemo): seq<byte>
    requires Encodable(m)
  {
    [|m.chainId|] + m.chainId + [m.referralId / 256, m.referralId % 256] + [EncodingByte(m.address.encoding)]
    + m.address.raw
  }

  function EncodeV1(addr: seq<byte>, chainId: seq<byte>): seq<byte> {
    addr + [SEPARATOR] + chainId
  }

  /** Decoding reads back every memo of the documented layout. */
  lemma DecodesLayout(m: DepositMemo)
    requires Encodable(m)
    ensures DecodeV2(EncodeV2(m)) == Some(m)
    ensures DecodeMemo(EncodeV2(m)) == Some(m)
  {
    var raw, n := EncodeV2(m), |m.chainId|;
    assert raw[0] == n;
    assert raw[1..1 + n] == m.chainId;
    assert raw[1 + n] == m.referralId / 256 && raw[2 + n] == m.referralId % 256;
    assert raw[3 + n] == EncodingByte(m.address.encoding);
    assert raw[4 + n..] == m.address.raw;
  }

  /** Whatever version 2 decoding accepts has the documented layout, and no other bytes decode to it. */
  lemma OnlyLayoutDecodes(raw: seq<byte>)
    requires DecodeV2(raw).Some?
    ensures Encodable(DecodeV2(raw).value)
    ensures EncodeV2(DecodeV2(raw).value) == raw
  {
    var m, n: int := DecodeV2(raw).value, raw[0];
    assert m.chainId == raw[1..1 + n] && m.address.raw == raw[4 + n..];
    EncoderUnique(raw[3 + n]);
    BigEndianBytes(raw[1 + n], raw[2 + n]);
    Pieces(raw, n);
  }

  lemma BigEndianBytes(high: byte, low: byte)
    ensures 0 <= BigEndian(high, low) < 0x1_0000
    ensures BigEndian(high, low) / 256 == high && BigEndian(high, low) % 256 == low
  {
  }

  lemma Pieces(raw: seq<byte>, n: int)
    requires 0 <= n && 4 + n <= |raw|
    ensures raw == [raw[0]] + raw[1..1 + n] + [raw[1 + n], raw[2 + n]] + [raw[3 + n]] + raw[4 + n..]
  {
  }

  lemma EncoderUnique(t: byte)
    requires GetEncoder(t).Some?
    ensures EncodingByte(GetEncoder(t).value) == t
    ensures [Utf8, Hex, HexCheckSum, Base58, Base64, Base64Url][t - 1] == GetEncoder(t).value
  {
  }

  /** What version 1 means: a plain address, except that 71 bytes are a Zano address to be encoded; no referral. */
  predicate MeansPair(m: DepositMemo, addr: seq<byte>, chainId: seq<byte>) {
    && m.chainId == chainId && m.referralId == 0 && m.address.raw == addr
    && (m.address.encoding == Base58 <==> |addr| == 71) && (m.address.encoding == Utf8 <==> |addr| != 71)
  }

  /** Version 1 finds the last separator, so the address may hold separators itself. */
  lemma DecodesPair(addr: seq<byte>, chainId: seq<byte>)
    requires addr != [] && chainId != [] && SEPARATOR !in chainId
    ensures DecodeV1(EncodeV1(addr, chainId)) == Some(V1Memo(addr, chainId))
    ensures MeansPair(V1Memo(addr, chainId), addr, chainId)
  {
    hide Split;
    SplitLast(addr, SEPARATOR, chainId);
    JoinSplit(addr, SEPARATOR);
    var parts := Split(EncodeV1(addr, chainId), SEPARATOR);
    assert parts[..|parts| - 1] == Split(addr, SEPARATOR);
    if |parts| == 2 {
      SplitWhole(addr, SEPARATOR);
    }
  }

  lemma {:induction false} LastSeparator(raw: seq<byte>) returns (before: seq<byte>, after: seq<byte>)
    requires SEPARATOR in raw
    ensures raw == before + [SEPARATOR] + after && SEPARATOR !in after
    decreases |raw|
  {
    var n := |raw| - 1;
    if raw[n] == SEPARATOR {
      before, after := raw[..n], [];
    } else {
      assert raw == raw[..n] + [raw[n]];
      before, after := LastSeparator(raw[..n]);
      after := after + [raw[n]];
    }
  }

  /** Whatever version 1 decoding accepts is an address and a separator-free chain id, and means just that. */
  lemma OnlyPairsDecode(raw: seq<byte>)
    requires DecodeV1(raw).Some?
    ensures var m := DecodeV1(raw).value;
            && m == V1Memo(m.address.raw, m.chainId) && MeansPair(m, m.address.raw, m.chainId)
            && raw == EncodeV1(m.address.raw, m.chainId)
            && m.address.raw != [] && m.chainId != [] && SEPARATOR !in m.chainId
  {
    assert SEPARATOR in raw;
    var addr, chainId := LastSeparator(raw);
    hide Split;
    SplitLast(addr, SEPARATOR, chainId);
    JoinSplit(addr, SEPARATOR);
    var parts := Split(raw, SEPARATOR);
    assert parts[..|parts| - 1] == Split(addr, SEPARATOR);
    if |parts| == 2 {
      SplitWhole(addr, SEPARATOR);
    }
  }

  // ---------- the fallback ----------

  /** The bytes are long enough for the layout and name a known encoding where it expects one. */
  predicate V2Shaped(raw: seq<byte>) {
    raw != [] && |raw| - raw[0] > 4 && 1 <= raw[raw[0] as int + 3] <= 6
  }

  /** A version 1 memo keeps its version 1 meaning exactly when its bytes are not shaped like version 2. */
  lemma FallbackExact(addr: seq<byte>, chainId: seq<byte>)
    requires addr != [] && chainId != [] && SEPARATOR !in chainId
    ensures DecodeMemo(EncodeV1(addr, chainId)) == Some(V1Memo(addr, chainId))
            <==> !V2Shaped(EncodeV1(addr, chainId))
  {
    var raw := EncodeV1(addr, chainId);
    DecodesPair(addr, chainId);
    assert V2Shaped(raw) <==> DecodeV2(raw).Some?;
    if V2Shaped(raw) {
      var m := DecodeV2(raw).value;
      // the two readings split the same number of bytes differently
      assert |m.chainId| == raw[0] && |m.address.raw| == |raw| - 4 - raw[0];
      assert |m.chainId| == |chainId| ==> |m.address.raw| == |addr| - 3;
    }
  }

  /** Text never reads as version 2: a memo of bytes of at least 7 gets its version 1 meaning. */
  lemma TextIsV1(raw: seq<byte>)
    requires forall i :: 0 <= i < |raw| ==> raw[i] >= 7
    ensures DecodeV2(raw) == None && DecodeMemo(raw) == DecodeV1(raw)
  {
    if raw != [] && |raw| - raw[0] > 4 {
      assert raw[raw[0] as int + 3] >= 7;
    }
  }
}
