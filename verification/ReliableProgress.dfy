/** What a layer is bound to do, step by step: take messages in, acknowledge
    them, count higher acks, resend what is due, flush acks. */
module ReliableProgress {
  import opened Bytes
  import opened Proto
  import opened Reliable
  import opened ReliableInvariants
  import opened ReliableTiming

  // --- acks coming in --------------------------------------------------------------

  /** How many of the acks are for a packet-id above pid. */
  function HigherIn(acks: seq<u32>, pid: u32): nat
    decreases |acks|
  {
    if acks == [] then 0 else (if acks[0] > pid then 1 else 0) + HigherIn(acks[1..], pid)
  }

  /** Inbound acks remove exactly the packets they name; every other entry only
      gains one higher ack per ack for a later packet. */
  lemma {:induction false} AckAllCounts(q: map<u32, Pending>, acks: seq<u32>)
    ensures var r := AckAll(q, acks);
      && (forall k :: k in r <==> k in q && k !in acks)
      && (forall k :: k in r ==> r[k] == q[k].(higherAcks := q[k].higherAcks + HigherIn(acks, k)))
    decreases |acks|
  {
    if acks != [] {
      AckAllCounts(AckOne(q, acks[0]), acks[1..]);
      assert acks == [acks[0]] + acks[1..];
    }
  }

  /** What inbound acks do to the send queue. */
  ghost predicate AcksApplied(q: map<u32, Pending>, r: map<u32, Pending>, acks: seq<u32>) {
    && (forall k :: k in r <==> k in q && k !in acks)
    && (forall k :: k in r ==> r[k] == q[k].(higherAcks := q[k].higherAcks + HigherIn(acks, k)))
  }

  /** A standalone ack (opcode 5) from the peer settles the messages it names and
      touches nothing else but what the layer knows of its peer. */
  lemma AckTakenIn(s: State, p: Packet, now: int)
    requires p.opcode == 5 && !s.closed && (s.remoteKnown ==> p.sessionId == s.remoteSid)
    ensures var r := HandleInbound(s, p, now);
      && AcksApplied(s.txQueue, r.txQueue, p.ack.acks)
      && r == s.(remoteSid := p.sessionId, remoteKnown := true, txQueue := r.txQueue)
  {
    AckAllCounts(s.txQueue, p.ack.acks);
  }

  // --- messages coming in ------------------------------------------------------------

  /** A message from the peer inside the window, old or new, is taken in and
      acknowledged; one beyond the window changes nothing but the send queue. */
  lemma MessageTakenIn(s: State, p: Packet, now: int)
    requires LayerInv(s) && p.opcode != P_ACK_V1 && p.payload.msgPid < U32_LIMIT - 1
    requires !s.closed && (s.remoteKnown ==> p.sessionId == s.remoteSid)
    ensures var r, pid := HandleInbound(s, p, now), p.payload.msgPid;
      && AcksApplied(s.txQueue, r.txQueue, p.payload.acks)
      && (pid < s.nextRx + 64 ==> Received(r, pid) && pid in r.pendingAcks)
      && (pid >= s.nextRx + 64 ==>
            r.pendingAcks == s.pendingAcks && r.nextRx == s.nextRx && r.rxBuffer == s.rxBuffer
            && r.readBuf == s.readBuf)
  {
    var k := LockRemote(s, p);
    var a := k.(txQueue := AckAll(k.txQueue, InboundAcks(p)));
    var pid := p.payload.msgPid;
    assert HandleInbound(s, p, now) == ReceiveMessage(a, pid, p.payload.body, now);
    AckAllCounts(s.txQueue, p.payload.acks);
    TakenIn(a, pid, p.payload.body, now);
  }

  lemma TakenIn(s: State, pid: u32, body: seq<byte>, now: int)
    requires AckInv(s) && RxInv(s) && pid < U32_LIMIT - 1
    ensures var r := ReceiveMessage(s, pid, body, now);
      && r.txQueue == s.txQueue
      && (pid < s.nextRx + MAX_RX_BUFFER ==> Received(r, pid) && pid in r.pendingAcks)
      && (pid >= s.nextRx + MAX_RX_BUFFER ==> r == s)
  {
    var b := Absorbed(s, pid, body);
    AbsorbedInv(s, pid, body);
    ReceiveIsAbsorb(s, pid, body, now);
    AddPendingAckFrame(b, pid, now);
    if pid < s.nextRx + MAX_RX_BUFFER {
      assert pid in b.pendingAckSet ==> pid in b.pendingAcks;
    }
  }

  /** The message that is due goes to the reader at once. */
  lemma DueMessageIsDelivered(s: State, p: Packet, now: int)
    requires LayerInv(s) && p.opcode != P_ACK_V1 && p.payload.msgPid == s.nextRx < U32_LIMIT - 1
    requires !s.closed && (s.remoteKnown ==> p.sessionId == s.remoteSid)
    ensures var r := HandleInbound(s, p, now);
      && r.nextRx > s.nextRx
      && Delivered(s) + p.payload.body <= Delivered(r)
  {
    var k := LockRemote(s, p);
    var a := k.(txQueue := AckAll(k.txQueue, InboundAcks(p)));
    assert HandleInbound(s, p, now) == ReceiveMessage(a, s.nextRx, p.payload.body, now);
    assert Delivered(a) == Delivered(s);
    DueIsDelivered(a, p.payload.body, now);
  }

  lemma DueIsDelivered(s: State, body: seq<byte>, now: int)
    requires RxInv(s) && s.nextRx < U32_LIMIT - 1
    ensures var r := ReceiveMessage(s, s.nextRx, body, now);
      r.nextRx > s.nextRx && Delivered(s) + body <= Delivered(r)
  {
    var t := s.(readBuf := s.readBuf + body, nextRx := Inc32(s.nextRx));
    assert t.nextRx == s.nextRx + 1;
    DeliverChainInv(t);
    DeliverChainAppends(t);
    ReceiveIsAbsorb(s, s.nextRx, body, now);
    AddPendingAckFrame(DeliverChain(t), s.nextRx, now);
    assert Absorbed(s, s.nextRx, body) == DeliverChain(t);
    assert Delivered(t) == Delivered(s) + body;
  }

  lemma {:induction false} DeliverChainAppends(s: State)
    ensures s.readBuf <= DeliverChain(s).readBuf
    ensures DeliverChain(s).consumed == s.consumed
    decreases |s.rxBuffer|
  {
    if s.nextRx in s.rxBuffer {
      RemoveShrinks(s.rxBuffer, s.nextRx);
      DeliverChainAppends(DeliverNext(s));
    }
  }

  // --- Tick ------------------------------------------------------------------------------

  function Resent(p: Pending, now: int): Pending {
    p.(attempts := p.attempts + 1, sentAt := now, higherAcks := 0)
  }

  /** A Tick that does not give up resends exactly the packets that are due. */
  lemma {:induction false} TickResendsDue(s: State, now: int, order: seq<u32>, pid: u32)
    requires forall k :: k in order ==> k in s.txQueue
    requires NoDuplicates(order) && pid in s.txQueue
    requires TickLoop(s, now, order).error == None
    ensures var t := TickLoop(s, now, order).state;
      && pid in t.txQueue
      && t.txQueue[pid] == if pid in order && Due(s.txQueue[pid], now)
                           then Resent(s.txQueue[pid], now) else s.txQueue[pid]
    decreases |order|
  {
    if order != [] {
      assert order == [order[0]] + order[1..];
      assert order[0] !in order[1..];
      if !Due(s.txQueue[order[0]], now) {
        TickResendsDue(s, now, order[1..], pid);
      } else {
        ResendQueue(s, order[0], now);
        TickResendsDue(Resend(s, order[0], now), now, order[1..], pid);
      }
    }
  }

  /** ... and with room on the channel, each of them enters it once. */
  lemma {:induction false} TickEmitsDue(s: State, now: int, order: seq<u32>, pid: u32)
    requires AckInv(s) && TxInv(s) && |s.outbound| + |order| <= s.capacity
    requires forall k :: k in order ==> k in s.txQueue
    requires NoDuplicates(order)
    requires TickLoop(s, now, order).error == None
    ensures Transmissions(Emitted(TickLoop(s, now, order).state), pid) ==
            Transmissions(Emitted(s), pid) + if pid in order && Due(s.txQueue[pid], now) then 1 else 0
    decreases |order|
  {
    if order != [] {
      var k := order[0];
      assert order == [k] + order[1..];
      assert k !in order[1..];
      if !Due(s.txQueue[k], now) {
        TickEmitsDue(s, now, order[1..], pid);
      } else {
        ResendReady(s, now, order, pid);
        TickEmitsDue(Resend(s, k, now), now, order[1..], pid);
      }
    }
  }

  /** Resending the first packet leaves the others as due as they were. */
  lemma ResendReady(s: State, now: int, order: seq<u32>, pid: u32)
    requires AckInv(s) && TxInv(s) && order != [] && |s.outbound| + |order| <= s.capacity
    requires (forall k :: k in order ==> k in s.txQueue) && order[0] !in order[1..]
    requires s.txQueue[order[0]].attempts < MAX_RETRANSMITS
    ensures var r := Resend(s, order[0], now);
      && AckInv(r) && TxInv(r) && |r.outbound| + |order[1..]| <= r.capacity
      && (forall k :: k in order[1..] ==> k in r.txQueue && r.txQueue[k] == s.txQueue[k])
      && Transmissions(Emitted(r), pid) == Transmissions(Emitted(s), pid) + if pid == order[0] then 1 else 0
  {
    ResendEmits(s, order[0], now, pid);
    ResendTx(s, order[0], now);
    ResendKeepsOthers(s, now, order);
  }

  lemma ResendKeepsOthers(s: State, now: int, order: seq<u32>)
    requires order != [] && (forall k :: k in order ==> k in s.txQueue) && order[0] !in order[1..]
    requires s.txQueue[order[0]].attempts < MAX_RETRANSMITS
    ensures var r := Resend(s, order[0], now);
      forall k :: k in order[1..] ==> k in r.txQueue && r.txQueue[k] == s.txQueue[k]
  {
    ResendQueue(s, order[0], now);
    assert order == [order[0]] + order[1..];
  }

  lemma ResendEmits(s: State, k: u32, now: int, pid: u32)
    requires AckInv(s) && TxInv(s) && k in s.txQueue && |s.outbound| < s.capacity
    ensures var r := Resend(s, k, now);
      && AckInv(r) && |r.outbound| == |s.outbound| + 1 && r.capacity == s.capacity
      && Transmissions(Emitted(r), pid) == Transmissions(Emitted(s), pid) + if pid == k then 1 else 0
  {
    var p := s.txQueue[k];
    var r := Resend(s, k, now);
    EmitFrame(s, p.opcode, p.msgPid, p.body, now);
    var out := ControlPacket(s, p.opcode, p.msgPid, p.body);
    assert Emitted(r) == Emitted(s) + [out];
    TransmissionsSnoc(Emitted(s), out, pid);
  }

  /** With nothing to resend, Tick's only effect is to flush acks: a standalone ack
      goes out exactly when acks have waited 20 ms or are eight, and the channel has
      room; it carries the oldest ones, eight at most. */
  lemma TickFlushesAcks(s: State, now: int, order: seq<u32>)
    requires LayerInv(s) && IsOrder(s.txQueue, order) && !s.closed
    requires forall k :: k in s.txQueue ==> !Due(s.txQueue[k], now)
    ensures var t := Tick(s, now, order);
      && t.error == None
      && t.state.txQueue == s.txQueue
      && if && s.pendingAcks != [] && |s.outbound| < s.capacity
            && (|s.pendingAcks| >= 8 || now - s.ackSince.value >= 20_000_000)
         then
           && t.state.outbound == s.outbound
                + [Packet(P_ACK_V1, s.keyId, s.localSid, NO_PAYLOAD,
                          AckPayload(s.pendingAcks[..Min(8, |s.pendingAcks|)], s.remoteSid))]
           && t.state.pendingAcks == s.pendingAcks[Min(8, |s.pendingAcks|)..]
         else t.state.outbound == s.outbound && t.state.pendingAcks == s.pendingAcks
  {
    NothingDue(s, now, order);
    StandaloneAckFrame(s, now);
    if s.pendingAcks != [] && |s.outbound| < s.capacity {
      assert s.remoteKnown;
      assert EmitStandaloneAck(s, now).outbound == s.outbound + [StandaloneAck(s)];
    }
  }

  lemma {:induction false} NothingDue(s: State, now: int, order: seq<u32>)
    requires forall k :: k in order ==> k in s.txQueue
    requires forall k :: k in s.txQueue ==> !Due(s.txQueue[k], now)
    ensures TickLoop(s, now, order) == TickResult(s, None)
    decreases |order|
  {
    if order != [] {
      NothingDue(s, now, order[1..]);
    }
  }

  // --- resets -----------------------------------------------------------------------------

  /** A soft reset leaves under the new key-id while the layer keeps its own. */
  lemma SoftResetUsesNewKeyId(s: State, newKeyId: byte, now: int)
    requires LayerInv(s) && !s.closed && HasRoom(s) && |s.outbound| < s.capacity && s.nextTx < U32_LIMIT - 1
    ensures var r := SendSoftReset(s, newKeyId, now);
      && r.keyId == s.keyId && |r.outbound| == |s.outbound| + 1
      && var p := r.outbound[|s.outbound|];
         p.keyId == newKeyId && p.opcode == P_CONTROL_SOFT_RESET_V1
         && p.payload.msgPid == s.nextTx && p.payload.body == []
  {
    var t := s.(keyId := newKeyId);
    ChannelStaysOk(s, t);
    var q := Queued(t, P_CONTROL_SOFT_RESET_V1, [], now);
    QueuedInv(t, P_CONTROL_SOFT_RESET_V1, [], now);
    EmitFrame(q, P_CONTROL_SOFT_RESET_V1, s.nextTx, [], now);
    assert Enqueue(t, P_CONTROL_SOFT_RESET_V1, [], now) == Emit(q, P_CONTROL_SOFT_RESET_V1, s.nextTx, [], now);
  }
}
