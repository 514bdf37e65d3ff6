/** Wire formats of control-channel payloads and of the data-channel header. */
module Proto {
  import opened Bytes

  type Opcode = x: int | 0 <= x < 0x100

  const P_CONTROL_SOFT_RESET_V1: Opcode := 3
  const P_CONTROL_V1: Opcode := 4
  const P_ACK_V1: Opcode := 5
  const P_CONTROL_HARD_RESET_CLIENT_V2: Opcode := 7
  const P_CONTROL_HARD_RESET_SERVER_V2: Opcode := 8
  const P_DATA_V2: Opcode := 9
  const P_CONTROL_HARD_RESET_CLIENT_V3: Opcode := 10
  const P_CONTROL_WKC_V1: Opcode := 11

  const MAX_ACKS := 255
  const DATA_V2_HEADER_LEN := 8

  datatype ParseError =
    | ShortPacket
    | TooManyAcks
    | ZeroAcks
    | WrongOpcode

  predicate IsControl(op: Opcode) {
    op in {P_CONTROL_SOFT_RESET_V1, P_CONTROL_V1, P_ACK_V1,
           P_CONTROL_HARD_RESET_CLIENT_V2, P_CONTROL_HARD_RESET_SERVER_V2,
           P_CONTROL_HARD_RESET_CLIENT_V3, P_CONTROL_WKC_V1}
  }

  /** byte(op) << 3 | keyID & 7: the opcode keeps its low five bits. */
  function PackOpcodeKid(op: Opcode, keyId: byte): byte {
    (op as int * 8) % 0x100 + keyId % 8
  }

  function UnpackOpcode(b: byte): Opcode {
    b / 8
  }

  function UnpackKid(b: byte): byte {
    b % 8
  }

  /** Packing is undone exactly for five-bit opcodes and three-bit key-ids. */
  lemma OpcodeRoundTrip(op: Opcode, keyId: byte)
    ensures UnpackOpcode(PackOpcodeKid(op, keyId)) == op <==> op < 32
    ensures UnpackKid(PackOpcodeKid(op, keyId)) == keyId <==> keyId < 8
    ensures UnpackKid(PackOpcodeKid(op, keyId)) == keyId % 8
  {
    var high := op as int * 8 % 0x100;
    assert high == 8 * (op as int % 32);
    assert (high + keyId % 8) / 8 == op as int % 32;
  }

  /** The opcode is the upper five bits of the header byte, the key-id the lower
      three. */
  lemma HeaderByte(b: byte)
    ensures b == 8 * UnpackOpcode(b) + UnpackKid(b) && UnpackOpcode(b) < 32 && UnpackKid(b) < 8
  {
  }

  lemma PackedByte(op: Opcode, keyId: byte)
    requires op < 32
    ensures PackOpcodeKid(op, keyId) == 8 * op + keyId % 8
  {
  }

  datatype ControlPayload = ControlPayload(acks: seq<u32>, remoteSid: u64, msgPid: u32, body: seq<byte>)

  datatype AckPayload = AckPayload(acks: seq<u32>, remoteSid: u64)

  /** The ack array: four bytes per packet-id, in order. */
  function AckBytes(acks: seq<u32>): (r: seq<byte>)
    ensures |r| == 4 * |acks|
  {
    if acks == [] then [] else AckBytes(acks[..|acks| - 1]) + PutU32(acks[|acks| - 1])
  }

  function ControlBytes(cp: ControlPayload): seq<byte>
    requires |cp.acks| <= MAX_ACKS
  {
    [|cp.acks|] + AckBytes(cp.acks)
    + (if cp.acks == [] then [] else PutU64(cp.remoteSid))
    + PutU32(cp.msgPid) + cp.body
  }

  function AckPayloadBytes(ap: AckPayload): seq<byte>
    requires |ap.acks| <= MAX_ACKS
  {
    [|ap.acks|] + AckBytes(ap.acks) + PutU64(ap.remoteSid)
  }

  /** What a control payload means on the wire: the remote session-id travels
      only along with acks. */
  function Canonical(cp: ControlPayload): ControlPayload {
    if cp.acks == [] then cp.(remoteSid := 0) else cp
  }

  lemma {:induction false} AckBytesInjective(a: seq<u32>, b: seq<u32>)
    requires AckBytes(a) == AckBytes(b)
    ensures a == b
  {
    assert 4 * |a| == 4 * |b|;
    if a != [] {
      var a0, b0 := a[..|a| - 1], b[..|b| - 1];
      SplitAt(AckBytes(a0), PutU32(a[|a| - 1]));
      SplitAt(AckBytes(b0), PutU32(b[|b| - 1]));
      AckBytesInjective(a0, b0);
      U32RoundTrip(a[|a| - 1]);
      U32RoundTrip(b[|b| - 1]);
      assert a == a0 + [a[|a| - 1]] && b == b0 + [b[|b| - 1]];
    }
  }

  /** The fields of an encoded control payload sit at fixed positions. */
  lemma ControlFields(cp: ControlPayload)
    requires |cp.acks| <= MAX_ACKS
    ensures var d, n := ControlBytes(cp), 4 * |cp.acks|;
      var m := if cp.acks == [] then 1 else n + 9;
      && |d| == m + 4 + |cp.body|
      && d[0] == |cp.acks|
      && d[1..1 + n] == AckBytes(cp.acks)
      && (cp.acks != [] ==> d[1 + n..n + 9] == PutU64(cp.remoteSid))
      && d[m..m + 4] == PutU32(cp.msgPid)
      && d[m + 4..] == cp.body
  {
  }

  /** The bytes of one ack among those of all. */
  lemma {:induction false} AckBytesSlice(acks: seq<u32>, i: nat) returns (before: seq<byte>, after: seq<byte>)
    requires i < |acks|
    ensures AckBytes(acks) == before + PutU32(acks[i]) + after && |before| == 4 * i
  {
    var n := |acks| - 1;
    if i == n {
      before, after := AckBytes(acks[..n]), [];
    } else {
      before, after := AckBytesSlice(acks[..n], i);
      assert before + PutU32(acks[i]) + after + PutU32(acks[n]) == before + PutU32(acks[i]) + (after + PutU32(acks[n]));
      after := after + PutU32(acks[n]);
    }
  }

  lemma MiddleAt(head: seq<byte>, before: seq<byte>, x: u32, after: seq<byte>, tail: seq<byte>)
    ensures Four(head + (before + PutU32(x) + after) + tail, |head| + |before|) == x
  {
    var d, at := head + (before + PutU32(x) + after) + tail, |head| + |before|;
    assert d[at..at + 4] == PutU32(x);
    U32At(d, at, x);
  }

  /** Each ack stands at its place behind the first byte. */
  lemma AckAt(first: byte, acks: seq<u32>, tail: seq<byte>, i: nat)
    requires i < |acks|
    ensures Four([first] + AckBytes(acks) + tail, 1 + 4 * i) == acks[i]
  {
    var before, after := AckBytesSlice(acks, i);
    MiddleAt([first], before, acks[i], after, tail);
  }

  lemma AcksInPayload(cp: ControlPayload)
    requires |cp.acks| <= 255
    ensures |ControlBytes(cp)| >= 1 + 4 * |cp.acks|
    ensures forall i :: 0 <= i < |cp.acks| ==> Four(ControlBytes(cp), 1 + 4 * i) == cp.acks[i]
  {
    var tail := (if cp.acks == [] then [] else PutU64(cp.remoteSid)) + PutU32(cp.msgPid) + cp.body;
    assert ControlBytes(cp) == [|cp.acks|] + AckBytes(cp.acks) + tail;
    forall i | 0 <= i < |cp.acks|
      ensures Four(ControlBytes(cp), 1 + 4 * i) == cp.acks[i]
    {
      AckAt(|cp.acks|, cp.acks, tail, i);
    }
  }

  /** A control payload on the wire: the number of acks, the acks, behind them the
      remote session-id if there are any, the packet-id, the body. */
  lemma ControlPayloadLayout(cp: ControlPayload)
    requires |cp.acks| <= 255
    ensures var d, n := ControlBytes(cp), |cp.acks|;
      var m := if n == 0 then 1 else 9 + 4 * n;
      && |d| == m + 4 + |cp.body|
      && d[0] == n
      && (forall i :: 0 <= i < n ==> Four(d, 1 + 4 * i) == cp.acks[i])
      && (n > 0 ==> Eight(d, m - 8) == cp.remoteSid)
      && Four(d, m) == cp.msgPid
      && d[m + 4..] == cp.body
  {
    ControlFields(cp);
    AcksInPayload(cp);
    NumbersInPayload(cp);
  }

  lemma NumbersInPayload(cp: ControlPayload)
    requires |cp.acks| <= 255
    ensures var d, n := ControlBytes(cp), |cp.acks|;
      var m := if n == 0 then 1 else 9 + 4 * n;
      && m + 4 <= |d|
      && (n > 0 ==> Eight(d, m - 8) == cp.remoteSid)
      && Four(d, m) == cp.msgPid
  {
    var d, n := ControlBytes(cp), |cp.acks|;
    ControlFields(cp);
    if n > 0 {
      U64At(d, 1 + 4 * n, cp.remoteSid);
      U32At(d, 9 + 4 * n, cp.msgPid);
    } else {
      U32At(d, 1, cp.msgPid);
    }
  }

  /** Two control payloads have the same encoding exactly when they mean the
      same on the wire. */
  lemma ControlBytesInjective(a: ControlPayload, b: ControlPayload)
    requires |a.acks| <= MAX_ACKS && |b.acks| <= MAX_ACKS
    ensures ControlBytes(a) == ControlBytes(b) <==> Canonical(a) == Canonical(b)
  {
    if ControlBytes(a) == ControlBytes(b) {
      ControlFields(a);
      ControlFields(b);
      AckBytesInjective(a.acks, b.acks);
      U64RoundTrip(a.remoteSid);
      U64RoundTrip(b.remoteSid);
      U32RoundTrip(a.msgPid);
      U32RoundTrip(b.msgPid);
    }
  }

  method MarshalControlPayload(cp: ControlPayload) returns (r: Result<seq<byte>, ParseError>)
    ensures |cp.acks| > MAX_ACKS ==> r == Err(TooManyAcks)
    ensures |cp.acks| <= MAX_ACKS ==> r == Ok(ControlBytes(cp))
  {
    if |cp.acks| > MAX_ACKS {
      return Err(TooManyAcks);
    }
    var out: seq<byte> := [|cp.acks|];
    for i := 0 to |cp.acks|
      invariant out == [|cp.acks|] + AckBytes(cp.acks[..i])
    {
      assert cp.acks[..i + 1][..i] == cp.acks[..i];
      out := out + PutU32(cp.acks[i]);
    }
    assert cp.acks[..|cp.acks|] == cp.acks;
    if |cp.acks| > 0 {
      out := out + PutU64(cp.remoteSid);
    }
    out := out + PutU32(cp.msgPid);
    out := out + cp.body;
    return Ok(out);
  }

  /** Bytes a control payload needs before its body, judged by its first byte. */
  function ControlNeed(data: seq<byte>): nat
    requires |data| >= 1
  {
    1 + 4 * (data[0] as int) + (if data[0] > 0 then 8 else 0) + 4
  }

  lemma {:induction false} AckBytesSnoc(acks: seq<u32>, b: seq<byte>)
    requires |b| == 4
    ensures AckBytes(acks + [GetU32(b)]) == AckBytes(acks) + b
  {
    U32RoundTripBack(b);
    assert (acks + [GetU32(b)])[..|acks|] == acks;
  }

  /** Parsing accepts every buffer long enough for its ack count and returns
      the one canonical payload whose encoding is that buffer. */
  method ParseControlPayload(data: seq<byte>) returns (r: Result<ControlPayload, ParseError>)
    ensures r.Ok? <==> |data| >= 1 && |data| >= ControlNeed(data)
    ensures r.Err? ==> r.error == ShortPacket
    ensures r.Ok? ==> |r.value.acks| <= MAX_ACKS && ControlBytes(r.value) == data && Canonical(r.value) == r.value
  {
    if |data| < 1 {
      return Err(ShortPacket);
    }
    var n := data[0];
    var off := 1;
    if |data| < ControlNeed(data) {
      return Err(ShortPacket);
    }
    var acks: seq<u32> := [];
    var sid: u64 := 0;
    if n > 0 {
      for i := 0 to n
        invariant off == 1 + 4 * i && |acks| == i
        invariant AckBytes(acks) == data[1..off]
      {
        AckBytesSnoc(acks, data[off..off + 4]);
        acks := acks + [GetU32(data[off..off + 4])];
        assert data[1..off] + data[off..off + 4] == data[1..off + 4];
        off := off + 4;
      }
      sid := GetU64(data[off..off + 8]);
      off := off + 8;
    }
    var cp := ControlPayload(acks, sid, GetU32(data[off..off + 4]), data[off + 4..]);
    if n > 0 {
      ReassembledWithAcks(data, cp);
    } else {
      ReassembledWithoutAcks(data, cp);
    }
    return Ok(cp);
  }

  lemma ReassembledWithoutAcks(data: seq<byte>, cp: ControlPayload)
    requires |data| >= 5 && data[0] == 0
    requires cp == ControlPayload([], 0, GetU32(data[1..5]), data[5..])
    ensures ControlBytes(cp) == data
  {
    U32RoundTripBack(data[1..5]);
    assert data == [data[0]] + data[1..5] + data[5..];
  }

  lemma ReassembledWithAcks(data: seq<byte>, cp: ControlPayload)
    requires 0 < |cp.acks| <= MAX_ACKS && |data| >= 13 + 4 * |cp.acks| && data[0] == |cp.acks|
    requires var off := 1 + 4 * |cp.acks|;
      && AckBytes(cp.acks) == data[1..off]
      && cp.remoteSid == GetU64(data[off..off + 8]) && cp.msgPid == GetU32(data[off + 8..off + 12])
      && cp.body == data[off + 12..]
    ensures ControlBytes(cp) == data
  {
    var off := 1 + 4 * |cp.acks|;
    U64RoundTripBack(data[off..off + 8]);
    U32RoundTripBack(data[off + 8..off + 12]);
    assert [data[0]] == data[..1];
    Cut5(data, 1, off, off + 8, off + 12);
    Assembled(cp, data[..1], data[1..off], data[off..off + 8], data[off + 8..off + 12], data[off + 12..]);
  }

  lemma Assembled(cp: ControlPayload, n: seq<byte>, acks: seq<byte>, sid: seq<byte>, pid: seq<byte>, body: seq<byte>)
    requires 0 < |cp.acks| <= MAX_ACKS && n == [|cp.acks|] && acks == AckBytes(cp.acks)
    requires sid == PutU64(cp.remoteSid) && pid == PutU32(cp.msgPid) && body == cp.body
    ensures ControlBytes(cp) == n + acks + sid + pid + body
  {
  }

  lemma Cut5(data: seq<byte>, i: nat, j: nat, k: nat, l: nat)
    requires i <= j <= k <= l <= |data|
    ensures data == data[..i] + data[i..j] + data[j..k] + data[k..l] + data[l..]
  {
  }

  /** Parsing what was marshalled gives the payload back, minus a remote
      session-id that had no acks to travel with. */
  method ControlRoundTrip(cp: ControlPayload) returns (r: Result<ControlPayload, ParseError>)
    requires |cp.acks| <= MAX_ACKS
    ensures r == Ok(Canonical(cp))
  {
    var m := MarshalControlPayload(cp);
    ControlFields(cp);
    r := ParseControlPayload(m.value);
    ControlBytesInjective(cp, r.value);
  }

  method MarshalAckPayload(ap: AckPayload) returns (r: Result<seq<byte>, ParseError>)
    ensures ap.acks == [] ==> r == Err(ZeroAcks)
    ensures |ap.acks| > MAX_ACKS ==> r == Err(TooManyAcks)
    ensures 0 < |ap.acks| <= MAX_ACKS ==> r == Ok(AckPayloadBytes(ap))
  {
    if |ap.acks| == 0 {
      return Err(ZeroAcks);
    }
    if |ap.acks| > MAX_ACKS {
      return Err(TooManyAcks);
    }
    var out: seq<byte> := [|ap.acks|];
    for i := 0 to |ap.acks|
      invariant out == [|ap.acks|] + AckBytes(ap.acks[..i])
    {
      assert ap.acks[..i + 1][..i] == ap.acks[..i];
      out := out + PutU32(ap.acks[i]);
    }
    assert ap.acks[..|ap.acks|] == ap.acks;
    out := out + PutU64(ap.remoteSid);
    return Ok(out);
  }

  function AckNeed(data: seq<byte>): nat
    requires |data| >= 1
  {
    1 + 4 * (data[0] as int) + 8
  }

  /** An ack payload is read off the front of the buffer; what follows it is
      ignored. */
  method ParseAckPayload(data: seq<byte>) returns (r: Result<AckPayload, ParseError>)
    ensures r.Ok? <==> |data| >= 1 && data[0] > 0 && |data| >= AckNeed(data)
    ensures r.Err? ==> r.error == if |data| >= 1 && data[0] == 0 then ZeroAcks else ShortPacket
    ensures r.Ok? ==> 0 < |r.value.acks| <= MAX_ACKS && AckPayloadBytes(r.value) == data[..AckNeed(data)]
    ensures r.Ok? ==> (AckPayloadBytes(r.value) == data <==> |data| == AckNeed(data))
  {
    if |data| < 1 {
      return Err(ShortPacket);
    }
    var n := data[0];
    if n == 0 {
      return Err(ZeroAcks);
    }
    if |data| < AckNeed(data) {
      return Err(ShortPacket);
    }
    var off := 1;
    var acks: seq<u32> := [];
    for i := 0 to n
      invariant off == 1 + 4 * i && |acks| == i
      invariant AckBytes(acks) == data[1..off]
    {
      AckBytesSnoc(acks, data[off..off + 4]);
      acks := acks + [GetU32(data[off..off + 4])];
      assert data[1..off] + data[off..off + 4] == data[1..off + 4];
      off := off + 4;
    }
    U64RoundTripBack(data[off..off + 8]);
    var ap := AckPayload(acks, GetU64(data[off..off + 8]));
    assert AckPayloadBytes(ap) == data[..AckNeed(data)];
    return Ok(ap);
  }

  /** A standalone ack on the wire: the number of acks, the acks, the remote
      session-id. */
  lemma AckPayloadLayout(ap: AckPayload)
    requires |ap.acks| <= 255
    ensures var d, n := AckPayloadBytes(ap), |ap.acks|;
      && |d| == 9 + 4 * n
      && d[0] == n
      && (forall i :: 0 <= i < n ==> Four(d, 1 + 4 * i) == ap.acks[i])
      && Eight(d, 1 + 4 * n) == ap.remoteSid
  {
    var d, n := AckPayloadBytes(ap), |ap.acks|;
    assert d[1..1 + 4 * n] == AckBytes(ap.acks);
    assert d[1 + 4 * n..9 + 4 * n] == PutU64(ap.remoteSid);
    forall i | 0 <= i < n
      ensures Four(d, 1 + 4 * i) == ap.acks[i]
    {
      AckAt(n, ap.acks, PutU64(ap.remoteSid), i);
    }
    U64At(d, 1 + 4 * n, ap.remoteSid);
  }

  lemma AckPayloadBytesInjective(a: AckPayload, b: AckPayload)
    requires |a.acks| <= MAX_ACKS && |b.acks| <= MAX_ACKS
    requires AckPayloadBytes(a) == AckPayloadBytes(b)
    ensures a == b
  {
    SplitAt([|a.acks|] + AckBytes(a.acks), PutU64(a.remoteSid));
    SplitAt([|b.acks|] + AckBytes(b.acks), PutU64(b.remoteSid));
    assert AckPayloadBytes(a)[0] == |a.acks| && AckPayloadBytes(b)[0] == |b.acks|;
    assert ([|a.acks|] + AckBytes(a.acks))[1..] == AckBytes(a.acks);
    assert ([|b.acks|] + AckBytes(b.acks))[1..] == AckBytes(b.acks);
    AckBytesInjective(a.acks, b.acks);
    U64RoundTrip(a.remoteSid);
    U64RoundTrip(b.remoteSid);
  }

  /** Parsing a marshalled ack payload gives it back, even with trailing
      bytes. */
  method AckRoundTrip(ap: AckPayload, trailing: seq<byte>) returns (r: Result<AckPayload, ParseError>)
    requires 0 < |ap.acks| <= MAX_ACKS
    ensures r == Ok(ap)
  {
    var m := MarshalAckPayload(ap);
    assert m.value[0] == |ap.acks|;
    SplitAt(m.value, trailing);
    r := ParseAckPayload(m.value + trailing);
    AckPayloadBytesInjective(ap, r.value);
  }

  datatype DataV2Header = DataV2Header(keyId: byte, peerId: u32, packetId: u32)

  function PeerIdBytes(peerId: u32): (r: seq<byte>)
    ensures |r| == 3
  {
    [peerId / 0x1_0000 % 0x100, peerId / 0x100 % 0x100, peerId % 0x100]
  }

  function HeaderBytes(h: DataV2Header): (r: seq<byte>)
    ensures |r| == DATA_V2_HEADER_LEN
  {
    [PackOpcodeKid(P_DATA_V2, h.keyId)] + PeerIdBytes(h.peerId) + PutU32(h.packetId)
  }

  function ParseDataV2Header(pkt: seq<byte>): Result<DataV2Header, ParseError> {
    if |pkt| < DATA_V2_HEADER_LEN then Err(ShortPacket)
    else if UnpackOpcode(pkt[0]) != P_DATA_V2 then Err(WrongOpcode)
    else Ok(DataV2Header(UnpackKid(pkt[0]), GetPeerId(pkt[1..4]), GetU32(pkt[4..8])))
  }

  function GetPeerId(b: seq<byte>): u32
    requires |b| == 3
  {
    0x1_0000 * (b[0] as int) + 0x100 * (b[1] as int) + b[2]
  }

  lemma PeerIdRoundTrip(x: u32)
    ensures GetPeerId(PeerIdBytes(x)) == x % 0x100_0000
  {
    var q := x / 0x100;
    var r := q / 0x100;
    NestedDivision(x, q, r);
    var low := 0x1_0000 * (r % 0x100) + 0x100 * (q % 0x100) + x % 0x100;
    assert x == 0x100_0000 * (r / 0x100) + low;
    assert x % 0x100_0000 == low;
  }

  lemma NestedDivision(x: nat, q: nat, r: nat)
    requires q == x / 0x100 && r == q / 0x100
    ensures x / 0x1_0000 == r
  {
    assert x == 0x1_0000 * r + (0x100 * (q % 0x100) + x % 0x100);
  }

  lemma PeerIdRoundTripBack(b: seq<byte>)
    requires |b| == 3
    ensures PeerIdBytes(GetPeerId(b)) == b
  {
    var x := GetPeerId(b);
    assert x % 0x100 == b[2];
    assert x / 0x100 == 0x100 * (b[0] as int) + b[1];
    assert x / 0x1_0000 == b[0];
  }

  /** A data header is recovered exactly when its peer-id fits 24 bits and its
      key-id three; other fields come back truncated to those widths. */
  lemma HeaderRoundTrip(h: DataV2Header, rest: seq<byte>)
    ensures ParseDataV2Header(HeaderBytes(h) + rest)
         == Ok(DataV2Header(h.keyId % 8, h.peerId % 0x100_0000, h.packetId))
  {
    var pkt := HeaderBytes(h) + rest;
    OpcodeRoundTrip(P_DATA_V2, h.keyId);
    PeerIdRoundTrip(h.peerId);
    U32RoundTrip(h.packetId);
    assert pkt[0] == PackOpcodeKid(P_DATA_V2, h.keyId);
    assert pkt[1..4] == PeerIdBytes(h.peerId);
    assert pkt[4..8] == PutU32(h.packetId);
  }

  lemma PackUnpacked(b: byte)
    requires UnpackOpcode(b) == P_DATA_V2
    ensures PackOpcodeKid(P_DATA_V2, UnpackKid(b)) == b
  {
  }

  /** The data header on the wire: 72 plus the key-id's lower three bits, the lower
      24 bits of the peer-id, the packet-id. */
  lemma DataHeaderLayout(h: DataV2Header)
    ensures var d := HeaderBytes(h);
      && |d| == 8
      && d[0] == 72 + h.keyId % 8
      && 0x1_0000 * (d[1] as int) + 0x100 * (d[2] as int) + d[3] == h.peerId % 0x100_0000
      && Four(d, 4) == h.packetId
  {
    var d := HeaderBytes(h);
    PackedByte(P_DATA_V2, h.keyId);
    PeerIdRoundTrip(h.peerId);
    var p := PeerIdBytes(h.peerId);
    assert d[1] == p[0] && d[2] == p[1] && d[3] == p[2];
    assert d[4..8] == PutU32(h.packetId);
    U32At(d, 4, h.packetId);
  }

  /** What is read off a data header, by position. */
  lemma DataHeaderRead(d: seq<byte>)
    ensures ParseDataV2Header(d) ==
      if |d| < 8 then Err(ShortPacket)
      else if d[0] / 8 != 9 then Err(WrongOpcode)
      else Ok(DataV2Header(d[0] % 8, 0x1_0000 * (d[1] as int) + 0x100 * (d[2] as int) + d[3], Four(d, 4)))
  {
    if |d| >= 8 {
      BigEndian32(0, d[4..8]);
      SamePlace(d, 4, d[4..8], 0);
    }
  }

  /** An accepted header is the encoding of what was read from it. */
  lemma HeaderRoundTripBack(pkt: seq<byte>)
    requires ParseDataV2Header(pkt).Ok?
    ensures HeaderBytes(ParseDataV2Header(pkt).value) == pkt[..8]
  {
    U32RoundTripBack(pkt[4..8]);
    PeerIdRoundTripBack(pkt[1..4]);
    PackUnpacked(pkt[0]);
    assert pkt[..8] == [pkt[0]] + pkt[1..4] + pkt[4..8];
  }
}
