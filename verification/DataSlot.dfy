/** One key-id worth of data-channel state: sealing and opening P_DATA_V2
    packets, which carry the AEAD tag in front of the ciphertext. */
module DataSlot {
  import opened Bytes
  import opened Proto
  import opened Replay

  const TAG_LEN := 16
  const IMPLICIT_IV_LEN := 8
  const PACKET_ID_REKEY_THRESHOLD: u32 := 0x8000_0000

  type ImplicitIv = s: seq<byte> | |s| == IMPLICIT_IV_LEN witness [0, 0, 0, 0, 0, 0, 0, 0]

  /** A keyed AEAD: seal(nonce, plaintext, aad) yields ciphertext then tag. */
  datatype Aead = Aead(seal: (seq<byte>, seq<byte>, seq<byte>) -> seq<byte>,
                       open: (seq<byte>, seq<byte>, seq<byte>) -> Option<seq<byte>>)

  /** What every supported cipher guarantees: the tag is 16 bytes, and opening
      undoes sealing. */
  ghost predicate Lawful(a: Aead) {
    && (forall n, p, d :: |a.seal(n, p, d)| == |p| + TAG_LEN)
    && (forall n, p, d :: a.open(n, a.seal(n, p, d), d) == Some(p))
  }

  datatype SlotError =
    | PeerIdTooWide
    | PacketIdExhausted
    | BadSealLength
    | BadHeader(cause: ParseError)
    | WrongKeyId
    | WrongPeerId
    | TooShort
    | ReplayedPacket
    | AuthenticationFailed

  /** packet_id (4 BE) || implicit_iv (8) */
  function MakeNonce(pid: u32, iv: ImplicitIv): (n: seq<byte>)
    ensures |n| == 12
  {
    PutU32(pid) + iv
  }

  /** opcode_kid (1) || peer_id (3 BE) || packet_id (4 BE) */
  function MakeAad(opcodeKid: byte, peerId: u32, pid: u32): (a: seq<byte>)
    ensures |a| == 8
  {
    [opcodeKid] + PeerIdBytes(peerId) + PutU32(pid)
  }

  lemma NoncesDiffer(p: u32, q: u32, iv: ImplicitIv)
    ensures MakeNonce(p, iv) == MakeNonce(q, iv) <==> p == q
  {
    U32RoundTrip(p);
    U32RoundTrip(q);
    SplitAt(PutU32(p), iv);
    SplitAt(PutU32(q), iv);
    assert MakeNonce(p, iv)[..4] == PutU32(p) && MakeNonce(q, iv)[..4] == PutU32(q);
  }

  /** The nonce: the packet-id, most significant byte first, then the implicit
      IV; no other sequence of bytes reads like that. */
  lemma NonceLayout(pid: u32, iv: ImplicitIv)
    ensures var n := MakeNonce(pid, iv);
      |n| == 12 && Four(n, 0) == pid && n[4..] == iv
    ensures forall n: seq<byte> :: |n| == 12 && Four(n, 0) == pid && n[4..] == iv ==> n == MakeNonce(pid, iv)
  {
    SplitAt(PutU32(pid), iv);
    assert MakeNonce(pid, iv)[0..4] == PutU32(pid);
    U32At(MakeNonce(pid, iv), 0, pid);
    forall n: seq<byte> | |n| == 12 && Four(n, 0) == pid && n[4..] == iv
      ensures n == MakeNonce(pid, iv)
    {
      BigEndian32(pid, n[..4]);
      SamePlace(n, 0, n[..4], 0);
      U32RoundTripBack(n[..4]);
      assert n == n[..4] + n[4..];
    }
  }

  /** The packet on the wire: header, then tag, then ciphertext. */
  function WirePacket(keyId: byte, peerId: u32, aead: Aead, iv: ImplicitIv, pid: u32, plaintext: seq<byte>)
    : seq<byte>
  {
    var h := HeaderBytes(DataV2Header(keyId, peerId, pid));
    var sealed := aead.seal(MakeNonce(pid, iv), plaintext, h);
    if |sealed| >= |plaintext| then h + sealed[|plaintext|..] + sealed[..|plaintext|] else h
  }

  /** tag || ciphertext reordered into ciphertext || tag. */
  function TagToBack(body: seq<byte>): seq<byte>
    requires |body| >= TAG_LEN
  {
    body[TAG_LEN..] + body[..TAG_LEN]
  }

  /** What opening a packet yields, given the packet-ids seen before. */
  function Opened(keyId: byte, peerId: u32, aead: Aead, iv: ImplicitIv, seen: Window, size: nat, pkt: seq<byte>)
    : Result<seq<byte>, SlotError>
  {
    var parsed := ParseDataV2Header(pkt);
    if parsed.Err? then Err(BadHeader(parsed.error))
    else
      var h := parsed.value;
      if h.keyId != keyId then Err(WrongKeyId)
      else if h.peerId != peerId then Err(WrongPeerId)
      else if |pkt| - 8 < TAG_LEN then Err(TooShort)
      else if !Fresh(seen, size, h.packetId) then Err(ReplayedPacket)
      else
        var p := aead.open(MakeNonce(h.packetId, iv), TagToBack(pkt[8..]), MakeAad(pkt[0], h.peerId, h.packetId));
        if p.None? then Err(AuthenticationFailed) else Ok(p.value)
  }

  /** The packet-id an accepted packet carries. */
  function PacketIdOf(pkt: seq<byte>): u32 {
    if ParseDataV2Header(pkt).Ok? then ParseDataV2Header(pkt).value.packetId else 0
  }

  /** The receiver's reorder undoes the sender's. */
  lemma WireLayout(h: seq<byte>, sealed: seq<byte>, n: nat)
    requires |h| == 8 && |sealed| == n + TAG_LEN
    ensures h + sealed[n..] + sealed[..n] == h + (sealed[n..] + sealed[..n])
    ensures var pkt := h + (sealed[n..] + sealed[..n]);
      && pkt[0] == h[0]
      && |pkt[8..]| >= TAG_LEN
      && TagToBack(pkt[8..]) == sealed
  {
    var body := sealed[n..] + sealed[..n];
    SplitAt(h, body);
    SplitAt(sealed[n..], sealed[..n]);
  }

  /** Opening what the mirrored slot sealed gives the plaintext back exactly when
      the key-id fits its three bits and the packet-id is fresh; otherwise it is
      refused for that very reason. */
  lemma OpenUndoesSeal(keyId: byte, peerId: u32, aead: Aead, iv: ImplicitIv, seen: Window, size: nat,
                       pid: u32, plaintext: seq<byte>)
    requires Lawful(aead) && peerId < 0x100_0000
    ensures Opened(keyId, peerId, aead, iv, seen, size, WirePacket(keyId, peerId, aead, iv, pid, plaintext)) ==
            if keyId >= 8 then Err(WrongKeyId)
            else if !Fresh(seen, size, pid) then Err(ReplayedPacket)
            else Ok(plaintext)
    ensures PacketIdOf(WirePacket(keyId, peerId, aead, iv, pid, plaintext)) == pid
  {
    var hdr := DataV2Header(keyId, peerId, pid);
    var h := HeaderBytes(hdr);
    var sealed := aead.seal(MakeNonce(pid, iv), plaintext, h);
    assert aead.open(MakeNonce(pid, iv), sealed, h) == Some(plaintext);
    var pkt := WirePacket(keyId, peerId, aead, iv, pid, plaintext);
    WireForm(hdr, sealed, |plaintext|, pkt);
    OpenWireForm(hdr, keyId, aead, iv, seen, size, pkt, sealed);
  }

  /** What the receiver makes of a packet with this header and this sealed
      text. */
  lemma WireForm(hdr: DataV2Header, sealed: seq<byte>, n: nat, pkt: seq<byte>)
    requires |sealed| == n + TAG_LEN && hdr.peerId < 0x100_0000
    requires pkt == HeaderBytes(hdr) + sealed[n..] + sealed[..n]
    ensures |pkt| >= 8 + TAG_LEN && TagToBack(pkt[8..]) == sealed
    ensures ParseDataV2Header(pkt) == Ok(hdr.(keyId := hdr.keyId % 8))
    ensures MakeAad(pkt[0], hdr.peerId, hdr.packetId) == HeaderBytes(hdr)
  {
    WireLayout(HeaderBytes(hdr), sealed, n);
    HeaderRoundTrip(hdr, sealed[n..] + sealed[..n]);
  }

  /** Opening a packet whose header and body are known. */
  lemma OpenWireForm(hdr: DataV2Header, keyId: byte, aead: Aead, iv: ImplicitIv, seen: Window, size: nat,
                     pkt: seq<byte>, sealed: seq<byte>)
    requires |pkt| >= 8 + TAG_LEN && TagToBack(pkt[8..]) == sealed
    requires ParseDataV2Header(pkt) == Ok(hdr.(keyId := hdr.keyId % 8))
    ensures Opened(keyId, hdr.peerId, aead, iv, seen, size, pkt) ==
            if hdr.keyId % 8 != keyId then Err(WrongKeyId)
            else if !Fresh(seen, size, hdr.packetId) then Err(ReplayedPacket)
            else
              var p := aead.open(MakeNonce(hdr.packetId, iv), sealed, MakeAad(pkt[0], hdr.peerId, hdr.packetId));
              if p.None? then Err(AuthenticationFailed) else Ok(p.value)
  {
  }

  // --- the packet byte by byte -----------------------------------------------------

  /** A data packet: 72 plus the key-id's lower three bits, three bytes of peer-id,
      four of packet-id, then tag and ciphertext of the plaintext sealed under the
      nonce (packet-id, implicit IV) with those first eight bytes authenticated. */
  ghost predicate IsSealed(pkt: seq<byte>, keyId: byte, peerId: u32, pid: u32, aead: Aead, iv: ImplicitIv,
                           plaintext: seq<byte>) {
    && |pkt| == 24 + |plaintext|
    && pkt[0] == 72 + keyId % 8
    && 0x1_0000 * (pkt[1] as int) + 0x100 * (pkt[2] as int) + pkt[3] == peerId
    && Four(pkt, 4) == pid
    && forall n: seq<byte> :: |n| == 12 && Four(n, 0) == pid && n[4..] == iv ==>
         var sealed := aead.seal(n, plaintext, pkt[..8]);
         |sealed| == |plaintext| + 16 && pkt[8..24] == sealed[|plaintext|..] && pkt[24..] == sealed[..|plaintext|]
  }

  lemma WirePacketIsSealed(keyId: byte, peerId: u32, aead: Aead, iv: ImplicitIv, pid: u32, plaintext: seq<byte>)
    requires peerId < 0x100_0000
    requires |aead.seal(MakeNonce(pid, iv), plaintext, HeaderBytes(DataV2Header(keyId, peerId, pid)))|
             == |plaintext| + TAG_LEN
    ensures IsSealed(WirePacket(keyId, peerId, aead, iv, pid, plaintext), keyId, peerId, pid, aead, iv, plaintext)
  {
    var h := HeaderBytes(DataV2Header(keyId, peerId, pid));
    var sealed := aead.seal(MakeNonce(pid, iv), plaintext, h);
    var pkt := WirePacket(keyId, peerId, aead, iv, pid, plaintext);
    DataHeaderLayout(DataV2Header(keyId, peerId, pid));
    NonceLayout(pid, iv);
    PacketParts(h, sealed[|plaintext|..], sealed[..|plaintext|]);
    assert pkt == h + sealed[|plaintext|..] + sealed[..|plaintext|];
    SamePlace(pkt, 0, h, 4);
  }

  lemma PacketParts(h: seq<byte>, tag: seq<byte>, ct: seq<byte>)
    requires |h| == 8 && |tag| == TAG_LEN
    ensures var pkt := h + tag + ct;
      && |pkt| == 24 + |ct| && pkt[..8] == h && pkt[0..8] == h && pkt[8..24] == tag && pkt[24..] == ct
      && pkt[0] == h[0] && pkt[1] == h[1] && pkt[2] == h[2] && pkt[3] == h[3]
  {
  }

  /** What opening decides, by the bytes of the packet: the checks in order, then
      the AEAD is asked about ciphertext and tag under the nonce (packet-id,
      implicit IV) with the first eight bytes authenticated. */
  lemma OpenDecides(keyId: byte, peerId: u32, aead: Aead, iv: ImplicitIv, seen: Window, size: nat, pkt: seq<byte>,
                    n: seq<byte>)
    requires |pkt| >= 8 ==> |n| == 12 && Four(n, 0) == Four(pkt, 4) && n[4..] == iv
    ensures Opened(keyId, peerId, aead, iv, seen, size, pkt) ==
      if |pkt| < 8 then Err(BadHeader(ShortPacket))
      else if pkt[0] / 8 != 9 then Err(BadHeader(WrongOpcode))
      else if pkt[0] % 8 != keyId then Err(WrongKeyId)
      else if 0x1_0000 * (pkt[1] as int) + 0x100 * (pkt[2] as int) + pkt[3] != peerId then Err(WrongPeerId)
      else if |pkt| < 24 then Err(TooShort)
      else
        var pid := Four(pkt, 4);
        if pid == 0 || (pid <= seen.highest && (pid in seen.accepted || seen.highest - pid >= size))
        then Err(ReplayedPacket)
        else
          var p := aead.open(n, pkt[24..] + pkt[8..24], pkt[..8]);
          if p.None? then Err(AuthenticationFailed) else Ok(p.value)
  {
    DataHeaderRead(pkt);
    if |pkt| >= 24 && pkt[0] / 8 == 9 {
      NonceLayout(Four(pkt, 4), iv);
      HeaderRoundTripBack(pkt);
      AadIsHeader(pkt);
      assert pkt[8..][16..] == pkt[24..] && pkt[8..][..16] == pkt[8..24];
    }
  }

  lemma AadIsHeader(pkt: seq<byte>)
    requires ParseDataV2Header(pkt).Ok?
    ensures var h := ParseDataV2Header(pkt).value;
      MakeAad(pkt[0], h.peerId, h.packetId) == pkt[..8]
  {
    HeaderRoundTripBack(pkt);
    PackUnpacked(pkt[0]);
  }

  // --- packet-ids over a run of Seal calls ---------------------------------------

  /** The packet-id the k-th call (from 0) on a fresh slot draws. */
  function PidOfCall(k: nat): u32 {
    (k + 1) % U32_LIMIT
  }

  /** Whether that call gets past the exhaustion check. */
  predicate CallSeals(k: nat) {
    PidOfCall(k) < PACKET_ID_REKEY_THRESHOLD
  }

  /** The first 2^31 - 1 calls seal, the next 2^31 do not, and so on with period
      2^32. */
  lemma WhichCallsSeal(k: nat)
    ensures CallSeals(k) <==> (k + 1) % 0x1_0000_0000 < 0x8000_0000
  {
  }

  /** In any run of fewer than 2^32 calls the packet-ids of successful seals are
      strictly increasing in 1..2^31-1, and one refusal means only refusals
      follow. */
  lemma SealsIncrease(i: nat, j: nat)
    requires i < j < U32_LIMIT - 1
    ensures CallSeals(i) && CallSeals(j) ==> 1 <= PidOfCall(i) < PidOfCall(j) <= 0x7FFF_FFFF
    ensures !CallSeals(i) ==> !CallSeals(j)
  {
  }

  /** No two successful seals of a run share a nonce exactly as long as the run
      has at most 2^32 calls: the counter then wraps around. */
  lemma NoncesDistinctUntilWrap(calls: nat, iv: ImplicitIv)
    ensures (forall i, j :: 0 <= i < j < calls && CallSeals(i) && CallSeals(j) ==>
               MakeNonce(PidOfCall(i), iv) != MakeNonce(PidOfCall(j), iv))
            <==> calls <= U32_LIMIT
  {
    if calls <= U32_LIMIT {
      forall i, j | 0 <= i < j < calls && CallSeals(i) && CallSeals(j)
        ensures MakeNonce(PidOfCall(i), iv) != MakeNonce(PidOfCall(j), iv)
      {
        NoncesDiffer(PidOfCall(i), PidOfCall(j), iv);
      }
    } else {
      var i, j := 0, U32_LIMIT;
      assert PidOfCall(i) == PidOfCall(j) == 1;
      assert CallSeals(i) && CallSeals(j);
    }
  }

  // --- the slot --------------------------------------------------------------------

  /** A sequence that has b at dst and is unchanged elsewhere. */
  lemma Spliced(before: seq<byte>, after: seq<byte>, b: seq<byte>, dst: nat)
    requires |after| == |before| && dst + |b| <= |before|
    requires forall k :: dst <= k < dst + |b| ==> after[k] == b[k - dst]
    requires forall k :: 0 <= k < dst || dst + |b| <= k < |before| ==> after[k] == before[k]
    ensures after == before[..dst] + b + before[dst + |b|..]
  {
    assert after[..dst] == before[..dst];
    assert after[dst..dst + |b|] == b;
    assert after[dst + |b|..] == before[dst + |b|..];
  }

  /** copy(a[dst..dst+n], a[src..src+n]) for a move towards the front, which may
      overlap. */
  method CopyDown(a: array<byte>, dst: nat, src: nat, n: nat)
    requires dst <= src && src + n <= a.Length
    modifies a
    ensures a[..] == old(a[..])[..dst] + old(a[..])[src..src + n] + old(a[..])[dst + n..]
  {
    ghost var before := a[..];
    for i := 0 to n
      invariant forall k :: dst <= k < dst + i ==> a[k] == before[k + (src - dst)]
      invariant forall k :: 0 <= k < dst || dst + i <= k < a.Length ==> a[k] == before[k]
    {
      a[dst + i] := a[src + i];
    }
    Spliced(before, a[..], before[src..src + n], dst);
  }

  /** copy(a[dst..], b). */
  method CopyIn(a: array<byte>, dst: nat, b: seq<byte>)
    requires dst + |b| <= a.Length
    modifies a
    ensures a[..] == old(a[..])[..dst] + b + old(a[..])[dst + |b|..]
  {
    ghost var before := a[..];
    for i := 0 to |b|
      invariant forall k :: dst <= k < dst + i ==> a[k] == b[k - dst]
      invariant forall k :: 0 <= k < dst || dst + i <= k < a.Length ==> a[k] == before[k]
    {
      a[dst + i] := b[i];
    }
    Spliced(before, a[..], b, dst);
  }

  method WriteHeader(buf: array<byte>, opcodeKid: byte, peerId: u32, pid: u32)
    requires buf.Length >= 8
    modifies buf
    ensures buf[..8] == MakeAad(opcodeKid, peerId, pid)
  {
    buf[0] := opcodeKid;
    CopyIn(buf, 1, PeerIdBytes(peerId));
    CopyIn(buf, 4, PutU32(pid));
    assert buf[..8] == buf[..][..8];
  }

  /** Writing ciphertext and tag at offset 24 and moving the tag down to offset 8
      leaves header, tag and ciphertext in this order. */
  lemma SealedLayout(started: seq<byte>, sealed: seq<byte>, n: nat)
    requires |sealed| == n + TAG_LEN && |started| == 24 + |sealed|
    ensures var whole := started[..24] + sealed;
      (whole[..8] + whole[24 + n..24 + n + TAG_LEN] + whole[8 + TAG_LEN..])[..24 + n]
      == started[..8] + sealed[n..] + sealed[..n]
  {
    var whole := started[..24] + sealed;
    assert whole[..8] == started[..8];
    assert whole[24 + n..24 + n + TAG_LEN] == sealed[n..];
    assert whole[24..][..n] == sealed[..n];
  }

  /** The AEAD output goes behind the room for the tag, then its trailing tag
      into that room. */
  method PlaceSealed(buf: array<byte>, sealed: seq<byte>, n: nat)
    requires |sealed| == n + TAG_LEN && buf.Length == 24 + |sealed|
    modifies buf
    ensures buf[..24 + n] == old(buf[..8]) + sealed[n..] + sealed[..n]
  {
    ghost var started := buf[..];
    CopyIn(buf, 24, sealed);
    assert buf[..] == started[..24] + sealed;
    CopyDown(buf, 8, 24 + n, TAG_LEN);
    SealedLayout(started, sealed, n);
    assert buf[..24 + n] == buf[..][..24 + n];
  }

  class Slot {
    const keyId: byte
    const peerId: u32
    const sendAead: Aead
    const sendIv: ImplicitIv
    var sendPid: u32
    const recvAead: Aead
    const recvIv: ImplicitIv
    const recvWin: ReplayWindow

    constructor (keyId: byte, peerId: u32, sendAead: Aead, sendIv: ImplicitIv,
                 recvAead: Aead, recvIv: ImplicitIv, replaySize: nat)
      requires peerId < 0x100_0000
      ensures this.keyId == keyId && this.peerId == peerId
      ensures this.sendAead == sendAead && this.sendIv == sendIv
      ensures this.recvAead == recvAead && this.recvIv == recvIv
      ensures sendPid == 0 && fresh(recvWin) && fresh(recvWin.bitmap)
      ensures recvWin.Valid() && recvWin.Abs() == EMPTY
      ensures recvWin.size == if replaySize == 0 then DEFAULT_REPLAY_WINDOW else replaySize
    {
      this.keyId, this.peerId := keyId, peerId;
      this.sendAead, this.sendIv := sendAead, sendIv;
      this.recvAead, this.recvIv := recvAead, recvIv;
      sendPid := 0;
      recvWin := new ReplayWindow(replaySize);
    }

    /** Encrypts into the tail of one buffer and then moves the trailing tag to
        its place behind the header. */
    method Seal(plaintext: seq<byte>) returns (r: Result<seq<byte>, SlotError>)
      modifies this`sendPid
      ensures sendPid == Inc32(old(sendPid))
      ensures sendPid >= PACKET_ID_REKEY_THRESHOLD ==> r == Err(PacketIdExhausted)
      ensures sendPid < PACKET_ID_REKEY_THRESHOLD && Lawful(sendAead) ==>
        r == Ok(WirePacket(keyId, peerId, sendAead, sendIv, sendPid, plaintext))
      ensures r.Ok? && peerId < 0x100_0000 ==>
        sendPid < 0x8000_0000 && IsSealed(r.value, keyId, peerId, sendPid, sendAead, sendIv, plaintext)
      ensures r.Err? ==> sendPid >= 0x8000_0000 || r.error == BadSealLength
    {
      sendPid := Inc32(sendPid);
      var pid := sendPid;
      if pid >= PACKET_ID_REKEY_THRESHOLD {
        return Err(PacketIdExhausted);
      }
      var opcodeKid := PackOpcodeKid(P_DATA_V2, keyId);
      var nonce := MakeNonce(pid, sendIv);
      var aad := MakeAad(opcodeKid, peerId, pid);
      var pktLen := DATA_V2_HEADER_LEN + TAG_LEN + |plaintext|;
      var buf := new byte[pktLen + TAG_LEN];
      WriteHeader(buf, opcodeKid, peerId, pid);
      var sealed := sendAead.seal(nonce, plaintext, aad);
      if |sealed| != |plaintext| + TAG_LEN {
        return Err(BadSealLength);
      }
      PlaceSealed(buf, sealed, |plaintext|);
      assert aad == HeaderBytes(DataV2Header(keyId, peerId, pid));
      if peerId < 0x100_0000 {
        WirePacketIsSealed(keyId, peerId, sendAead, sendIv, pid, plaintext);
      }
      return Ok(buf[..pktLen]);
    }

    /** Checks the header and the replay window, moves the tag behind the
        ciphertext in place, authenticates, and only then records the packet-id. */
    method OpenInto(dst: seq<byte>, packet: array<byte>) returns (r: Result<seq<byte>, SlotError>)
      requires recvWin.Valid() && packet as object != recvWin.bitmap as object
      modifies packet, recvWin, recvWin.bitmap
      ensures recvWin.Valid()
      ensures var o := old(Opened(keyId, peerId, recvAead, recvIv, recvWin.Abs(),
                                  EffectiveSize(recvWin.size), packet[..]));
        r == if o.Ok? then Ok(dst + o.value) else Err(o.error)
      ensures r.Ok? ==>
        recvWin.Abs() == old(Advance(recvWin.Abs(), EffectiveSize(recvWin.size), PacketIdOf(packet[..])))
      ensures r.Err? ==> recvWin.Abs() == old(recvWin.Abs())
    {
      var parsed := ParseDataV2Header(packet[..]);
      if parsed.Err? {
        return Err(BadHeader(parsed.error));
      }
      var hdr := parsed.value;
      if hdr.keyId != keyId {
        return Err(WrongKeyId);
      }
      if hdr.peerId != peerId {
        return Err(WrongPeerId);
      }
      if packet.Length - 8 < TAG_LEN {
        return Err(TooShort);
      }
      var ok := recvWin.Test(hdr.packetId);
      if !ok {
        return Err(ReplayedPacket);
      }
      var opcodeKid := packet[0];
      MoveTagToBack(packet);
      var nonce := MakeNonce(hdr.packetId, recvIv);
      var aad := MakeAad(opcodeKid, hdr.peerId, hdr.packetId);
      var plaintext := recvAead.open(nonce, packet[..][8..], aad);
      if plaintext.None? {
        return Err(AuthenticationFailed);
      }
      ok := recvWin.Accept(hdr.packetId);
      if !ok {
        return Err(ReplayedPacket);
      }
      return Ok(dst + plaintext.value);
    }

    /** Open is OpenInto with a fresh destination. */
    method Open(packet: array<byte>) returns (r: Result<seq<byte>, SlotError>)
      requires recvWin.Valid() && packet as object != recvWin.bitmap as object
      modifies packet, recvWin, recvWin.bitmap
      ensures recvWin.Valid()
      ensures r == old(Opened(keyId, peerId, recvAead, recvIv, recvWin.Abs(),
                              EffectiveSize(recvWin.size), packet[..]))
      ensures r.Ok? ==>
        recvWin.Abs() == old(Advance(recvWin.Abs(), EffectiveSize(recvWin.size), PacketIdOf(packet[..])))
      ensures r.Err? ==> recvWin.Abs() == old(recvWin.Abs())
    {
      var parsed := ParseDataV2Header(packet[..]);
      if parsed.Err? {
        return Err(BadHeader(parsed.error));
      }
      var hdr := parsed.value;
      if hdr.keyId != keyId {
        return Err(WrongKeyId);
      }
      if hdr.peerId != peerId {
        return Err(WrongPeerId);
      }
      if packet.Length - 8 < TAG_LEN {
        return Err(TooShort);
      }
      var ok := recvWin.Test(hdr.packetId);
      if !ok {
        return Err(ReplayedPacket);
      }
      var opcodeKid := packet[0];
      MoveTagToBack(packet);
      var nonce := MakeNonce(hdr.packetId, recvIv);
      var aad := MakeAad(opcodeKid, hdr.peerId, hdr.packetId);
      var plaintext := recvAead.open(nonce, packet[..][8..], aad);
      if plaintext.None? {
        return Err(AuthenticationFailed);
      }
      ok := recvWin.Accept(hdr.packetId);
      if !ok {
        return Err(ReplayedPacket);
      }
      return Ok(plaintext.value);
    }
  }

  /** Refuses a peer-id that does not fit 24 bits. */
  method NewSlot(keyId: byte, peerId: u32, sendAead: Aead, sendIv: ImplicitIv,
                 recvAead: Aead, recvIv: ImplicitIv, replaySize: nat)
    returns (r: Result<Slot, SlotError>)
    ensures peerId >= 0x100_0000 ==> r == Err(PeerIdTooWide)
    ensures peerId < 0x100_0000 ==>
      && r.Ok? && fresh(r.value) && fresh(r.value.recvWin) && r.value.recvWin.Valid()
      && r.value.keyId == keyId && r.value.peerId == peerId && r.value.sendPid == 0
      && r.value.sendAead == sendAead && r.value.sendIv == sendIv
      && r.value.recvAead == recvAead && r.value.recvIv == recvIv
      && r.value.recvWin.Abs() == EMPTY
      && r.value.recvWin.size == if replaySize == 0 then DEFAULT_REPLAY_WINDOW else replaySize
  {
    if peerId >= 0x100_0000 {
      return Err(PeerIdTooWide);
    }
    var s := new Slot(keyId, peerId, sendAead, sendIv, recvAead, recvIv, replaySize);
    return Ok(s);
  }

  /** The in-place reorder: save the tag, slide the ciphertext over it, write the
      tag at the end. */
  method MoveTagToBack(packet: array<byte>)
    requires packet.Length >= 8 + TAG_LEN
    modifies packet
    ensures packet[..] == old(packet[..])[..8] + TagToBack(old(packet[..])[8..])
  {
    var n := packet.Length;
    ghost var before := packet[..];
    var tag := packet[8..8 + TAG_LEN];
    CopyDown(packet, 8, 8 + TAG_LEN, n - 8 - TAG_LEN);
    CopyIn(packet, n - TAG_LEN, tag);
    assert tag == before[8..24];
    assert before[8..][..16] == before[8..24] && before[8..][16..] == before[24..];
  }

  /** A packet sealed by one slot and opened twice by its mirror: the first
      opening returns the plaintext if the packet-id is still fresh, the second
      is always refused as a replay. */
  method SealOpenOpen(snd: Slot, rcv: Slot, plaintext: seq<byte>)
    returns (sealed: bool, first: Result<seq<byte>, SlotError>, second: Result<seq<byte>, SlotError>)
    requires rcv.recvWin.Valid() && Lawful(snd.sendAead)
    requires rcv.recvAead == snd.sendAead && rcv.recvIv == snd.sendIv
    requires rcv.keyId == snd.keyId < 8 && rcv.peerId == snd.peerId < 0x100_0000
    modifies snd`sendPid, rcv.recvWin, rcv.recvWin.bitmap
    ensures sealed == (snd.sendPid < PACKET_ID_REKEY_THRESHOLD)
    ensures sealed ==>
      first == if old(Fresh(rcv.recvWin.Abs(), EffectiveSize(rcv.recvWin.size), Inc32(snd.sendPid)))
               then Ok(plaintext) else Err(ReplayedPacket)
    ensures sealed ==> second == Err(ReplayedPacket)
  {
    first, second := Err(PacketIdExhausted), Err(PacketIdExhausted);
    var r := snd.Seal(plaintext);
    if r.Err? {
      return false, first, second;
    }
    var win, size := rcv.recvWin, EffectiveSize(rcv.recvWin.size);
    var buf := new byte[|r.value|];
    CopyIn(buf, 0, r.value);
    assert buf[..] == r.value;
    OpenUndoesSeal(rcv.keyId, rcv.peerId, rcv.recvAead, rcv.recvIv, win.Abs(), size, snd.sendPid, plaintext);
    first := rcv.Open(buf);
    var again := new byte[|r.value|];
    CopyIn(again, 0, r.value);
    assert again[..] == r.value;
    OpenUndoesSeal(rcv.keyId, rcv.peerId, rcv.recvAead, rcv.recvIv, win.Abs(), size, snd.sendPid, plaintext);
    second := rcv.Open(again);
    return true, first, second;
  }

  /** A fresh slot asked to seal any number of packets draws the packet-ids
      1, 2, 3, ... modulo 2^32 and refuses those from 2^31 on. */
  method SealMany(slot: Slot, plaintexts: seq<seq<byte>>) returns (rs: seq<Result<seq<byte>, SlotError>>)
    requires slot.sendPid == 0 && Lawful(slot.sendAead)
    modifies slot`sendPid
    ensures |rs| == |plaintexts|
    ensures forall k :: 0 <= k < |rs| ==>
      rs[k] == if CallSeals(k)
               then Ok(WirePacket(slot.keyId, slot.peerId, slot.sendAead, slot.sendIv, PidOfCall(k), plaintexts[k]))
               else Err(PacketIdExhausted)
  {
    rs := [];
    for i := 0 to |plaintexts|
      invariant |rs| == i && slot.sendPid == i % U32_LIMIT
      invariant forall k :: 0 <= k < i ==>
        rs[k] == if CallSeals(k)
                 then Ok(WirePacket(slot.keyId, slot.peerId, slot.sendAead, slot.sendIv, PidOfCall(k), plaintexts[k]))
                 else Err(PacketIdExhausted)
    {
      assert Inc32(slot.sendPid) == PidOfCall(i);
      var r := slot.Seal(plaintexts[i]);
      rs := rs + [r];
    }
  }
}
