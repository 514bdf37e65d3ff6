/** What every step of a single layer keeps, whatever arrives from outside. */
module ReliableInvariants {
  import opened Bytes
  import opened Proto
  import opened Reliable

  /** A packet-id the layer has taken in: delivered or buffered. */
  predicate Received(s: State, pid: u32) {
    pid < s.nextRx || pid in s.rxBuffer
  }

  ghost predicate NoDuplicates(acks: seq<u32>) {
    forall i, j :: 0 <= i < j < |acks| ==> acks[i] != acks[j]
  }

  /** The ack list, its mirror set and its timestamp agree. */
  ghost predicate AckInv(s: State) {
    && NoDuplicates(s.pendingAcks)
    && s.pendingAckSet == ToSet(s.pendingAcks)
    && (s.ackSince.Some? <==> s.pendingAcks != [])
    && (s.pendingAcks != [] ==> s.remoteKnown)
    && (forall a :: a in s.pendingAcks ==> Received(s, a))
  }

  /** The send queue holds a part of what was issued, each packet once. */
  ghost predicate TxInv(s: State) {
    && |s.issued| == s.nextTx
    && (forall i :: 0 <= i < |s.issued| ==> IsControl(s.issued[i].opcode))
    && |s.txQueue| <= MAX_QUEUE_SIZE
    && forall k :: k in s.txQueue ==>
         && k < s.nextTx
         && s.txQueue[k].msgPid == k
         && s.txQueue[k].opcode == s.issued[k].opcode
         && s.txQueue[k].body == s.issued[k].body
         && s.txQueue[k].attempts <= MAX_RETRANSMITS
  }

  /** The reorder buffer lies strictly inside the receive window. */
  ghost predicate RxInv(s: State) {
    forall k :: k in s.rxBuffer ==> s.nextRx < k < s.nextRx + MAX_RX_BUFFER && k < U32_LIMIT - 1
  }

  /** A packet of a reachable layer: a message it issued, or a standalone ack;
      its acks are few, true, and addressed to the known peer. */
  ghost predicate PacketOk(s: State, p: Packet) {
    && p.sessionId == s.localSid
    && (if p.ack.acks == []
        then p.payload.msgPid < |s.issued|
             && p.opcode == s.issued[p.payload.msgPid].opcode
             && p.payload.body == s.issued[p.payload.msgPid].body
        else p.opcode == P_ACK_V1 && p.payload == NO_PAYLOAD)
    && |p.payload.acks| <= MAX_ACKS_PER_PACKET && |p.ack.acks| <= MAX_ACKS_PER_PACKET
    && (p.payload.acks != [] ==> s.remoteKnown && p.payload.remoteSid == s.remoteSid)
    && (p.ack.acks != [] ==> s.remoteKnown && p.ack.remoteSid == s.remoteSid)
    && (forall a :: a in p.payload.acks ==> Received(s, a))
    && (forall a :: a in p.ack.acks ==> Received(s, a))
  }

  ghost predicate ChannelInv(s: State) {
    && |s.outbound| <= s.capacity
    && (forall p :: p in s.taken ==> PacketOk(s, p))
    && (forall p :: p in s.outbound ==> PacketOk(s, p))
  }

  ghost predicate LayerInv(s: State) {
    AckInv(s) && TxInv(s) && RxInv(s) && ChannelInv(s)
  }

  lemma NewInv(localSid: u64, keyId: byte, capacity: nat)
    ensures LayerInv(New(localSid, keyId, capacity))
  {
  }

  // --- growth ---------------------------------------------------------------

  /** s' is a later state of the same layer: nothing issued or received is
      forgotten, and a known peer stays the same. */
  ghost predicate Later(s: State, s': State) {
    && s'.localSid == s.localSid && s'.capacity == s.capacity
    && s.issued <= s'.issued
    && s.nextRx <= s'.nextRx
    && (forall k: u32 :: Received(s, k) ==> Received(s', k))
    && (s.remoteKnown ==> s'.remoteKnown && s'.remoteSid == s.remoteSid)
  }

  lemma PacketStaysOk(s: State, s': State, p: Packet)
    requires PacketOk(s, p) && Later(s, s')
    ensures PacketOk(s', p)
  {
  }

  /** Packets already on the channel stay valid as the layer moves on. */
  lemma ChannelStaysOk(s: State, s': State)
    requires ChannelInv(s) && Later(s, s')
    requires s'.taken == s.taken && s'.outbound == s.outbound
    ensures ChannelInv(s')
  {
    forall p | p in s.taken || p in s.outbound
      ensures PacketOk(s', p)
    {
      PacketStaysOk(s, s', p);
    }
  }

  // --- acks ------------------------------------------------------------------

  lemma DrainAcksInv(s: State, max: nat)
    requires AckInv(s) && max > 0
    ensures AckInv(DrainAcks(s, max))
    ensures forall a :: a in DrainedAcks(s, max) ==> Received(s, a)
    ensures DrainedAcks(s, max) != [] ==> s.remoteKnown
  {
    if s.pendingAcks != [] {
      var acks := DrainedAcks(s, max);
      var left := s.pendingAcks[|acks|..];
      assert s.pendingAcks == acks + left;
      forall a | a in left
        ensures a !in acks
      {
        var j :| 0 <= j < |left| && left[j] == a;
        assert s.pendingAcks[|acks| + j] == a;
      }
      assert ToSet(left) == s.pendingAckSet - ToSet(acks);
      assert forall a :: a in left ==> a in s.pendingAcks;
    }
  }

  /** Draining and restoring gives back exactly the old list. */
  lemma RestoreUndoesDrain(s: State, max: nat, now: int)
    requires AckInv(s)
    ensures var r := RestoreAcks(DrainAcks(s, max), DrainedAcks(s, max), now);
      && r.pendingAcks == s.pendingAcks && r.pendingAckSet == s.pendingAckSet
      && (r.ackSince.Some? <==> s.ackSince.Some?)
      && r == s.(ackSince := r.ackSince)
  {
    var acks := DrainedAcks(s, max);
    assert s.pendingAcks == acks + s.pendingAcks[|acks|..];
    assert s.pendingAckSet - ToSet(acks) + ToSet(acks) == s.pendingAckSet;
  }

  lemma AddPendingAckInv(s: State, pid: u32, now: int)
    requires AckInv(s) && s.remoteKnown && Received(s, pid)
    ensures AckInv(AddPendingAck(s, pid, now))
  {
    if pid !in s.pendingAckSet {
      assert pid !in s.pendingAcks;
      assert ToSet(s.pendingAcks + [pid]) == ToSet(s.pendingAcks) + {pid};
    }
  }

  // --- sending ------------------------------------------------------------------

  /** What Emit does to a layer: at most one packet is appended, and only the
      ack list changes besides; a full channel leaves the ack list as it was. */
  lemma EmitFrame(s: State, opcode: Opcode, pid: u32, body: seq<byte>, now: int)
    requires AckInv(s)
    ensures var e := Emit(s, opcode, pid, body, now);
      && AckInv(e)
      && e == s.(pendingAcks := e.pendingAcks, pendingAckSet := e.pendingAckSet,
                 ackSince := e.ackSince, outbound := e.outbound)
      && (|s.outbound| < s.capacity ==> e.outbound == s.outbound + [ControlPacket(s, opcode, pid, body)])
      && (|s.outbound| >= s.capacity ==> e.pendingAcks == s.pendingAcks && e.outbound == s.outbound)
  {
    if |s.outbound| < s.capacity {
      DrainAcksInv(s, MAX_ACKS_PER_PACKET);
    } else {
      RestoreUndoesDrain(s, MAX_ACKS_PER_PACKET, now);
    }
  }

  lemma ControlPacketOk(s: State, opcode: Opcode, pid: u32, body: seq<byte>)
    requires AckInv(s)
    requires pid < |s.issued| && s.issued[pid].opcode == opcode && s.issued[pid].body == body
    ensures PacketOk(s, ControlPacket(s, opcode, pid, body))
  {
    DrainAcksInv(s, MAX_ACKS_PER_PACKET);
  }

  lemma EmitInv(s: State, opcode: Opcode, pid: u32, body: seq<byte>, now: int)
    requires LayerInv(s)
    requires pid < |s.issued| && s.issued[pid].opcode == opcode && s.issued[pid].body == body
    ensures LayerInv(Emit(s, opcode, pid, body, now))
  {
    var e := Emit(s, opcode, pid, body, now);
    EmitFrame(s, opcode, pid, body, now);
    assert Later(s, e);
    if |s.outbound| < s.capacity {
      var p := ControlPacket(s, opcode, pid, body);
      ControlPacketOk(s, opcode, pid, body);
      PacketStaysOk(s, e, p);
      ChannelGrows(s, e, p);
    } else {
      ChannelStaysOk(s, e);
    }
  }

  lemma ChannelGrows(s: State, s': State, p: Packet)
    requires ChannelInv(s) && Later(s, s') && PacketOk(s', p)
    requires |s.outbound| < s.capacity
    requires s'.taken == s.taken && s'.outbound == s.outbound + [p]
    ensures ChannelInv(s')
  {
    forall q | q in s.taken || q in s.outbound
      ensures PacketOk(s', q)
    {
      PacketStaysOk(s, s', q);
    }
  }

  lemma StandaloneAckFrame(s: State, now: int)
    requires AckInv(s)
    ensures var e := EmitStandaloneAck(s, now);
      && AckInv(e)
      && e == s.(pendingAcks := e.pendingAcks, pendingAckSet := e.pendingAckSet,
                 ackSince := e.ackSince, outbound := e.outbound)
      && (e.outbound == s.outbound
          || (|s.outbound| < s.capacity && s.pendingAcks != [] && e.outbound == s.outbound + [StandaloneAck(s)]))
      && (|s.outbound| >= s.capacity ==> e.pendingAcks == s.pendingAcks && e.outbound == s.outbound)
  {
    if |s.outbound| < s.capacity {
      DrainAcksInv(s, MAX_ACKS_PER_PACKET);
    } else {
      RestoreUndoesDrain(s, MAX_ACKS_PER_PACKET, now);
    }
  }

  lemma StandaloneAckOk(s: State)
    requires AckInv(s) && s.pendingAcks != []
    ensures PacketOk(s, StandaloneAck(s))
  {
    DrainAcksInv(s, MAX_ACKS_PER_PACKET);
  }

  lemma EmitStandaloneAckInv(s: State, now: int)
    requires LayerInv(s)
    ensures LayerInv(EmitStandaloneAck(s, now))
  {
    var e := EmitStandaloneAck(s, now);
    StandaloneAckFrame(s, now);
    assert Later(s, e);
    if e.outbound == s.outbound {
      ChannelStaysOk(s, e);
    } else {
      StandaloneAckOk(s);
      PacketStaysOk(s, e, StandaloneAck(s));
      ChannelGrows(s, e, StandaloneAck(s));
    }
  }

  /** The state right after a message entered the queue, before it is emitted. */
  function Queued(s: State, opcode: Opcode, body: seq<byte>, now: int): State {
    s.(nextTx := Inc32(s.nextTx),
       txQueue := s.txQueue[s.nextTx := Pending(s.nextTx, opcode, body, now, 1, 0)],
       issued := s.issued + [Issue(opcode, body, now)])
  }

  lemma QueuedTx(s: State, opcode: Opcode, body: seq<byte>, now: int)
    requires TxInv(s) && s.nextTx < U32_LIMIT - 1 && HasRoom(s) && IsControl(opcode)
    ensures TxInv(Queued(s, opcode, body, now))
    ensures Later(s, Queued(s, opcode, body, now))
  {
    InsertSize(s.txQueue, s.nextTx, Pending(s.nextTx, opcode, body, now, 1, 0));
    assert Inc32(s.nextTx) == s.nextTx + 1;
  }

  lemma InsertSize<V>(m: map<u32, V>, k: u32, v: V)
    ensures |m[k := v]| <= |m| + 1
  {
    assert m[k := v].Keys == m.Keys + {k};
  }

  lemma QueuedInv(s: State, opcode: Opcode, body: seq<byte>, now: int)
    requires LayerInv(s) && s.nextTx < U32_LIMIT - 1 && HasRoom(s) && IsControl(opcode)
    ensures LayerInv(Queued(s, opcode, body, now)) && Later(s, Queued(s, opcode, body, now))
  {
    QueuedTx(s, opcode, body, now);
    ChannelStaysOk(s, Queued(s, opcode, body, now));
  }

  lemma EnqueueInv(s: State, opcode: Opcode, body: seq<byte>, now: int)
    requires LayerInv(s) && s.nextTx < U32_LIMIT - 1 && IsControl(opcode)
    ensures var e := Enqueue(s, opcode, body, now);
      && LayerInv(e) && Later(s, e)
      && var q := if HasRoom(s) then Queued(s, opcode, body, now) else s;
         e == q.(pendingAcks := e.pendingAcks, pendingAckSet := e.pendingAckSet,
                 ackSince := e.ackSince, outbound := e.outbound)
  {
    if HasRoom(s) {
      QueuedInv(s, opcode, body, now);
      EmitFrame(Queued(s, opcode, body, now), opcode, s.nextTx, body, now);
      EmitInv(Queued(s, opcode, body, now), opcode, s.nextTx, body, now);
    }
  }

  // --- receiving ------------------------------------------------------------------

  lemma {:induction false} AckAllKeeps(q: map<u32, Pending>, acks: seq<u32>)
    ensures var r := AckAll(q, acks);
      && (forall k :: k in r <==> k in q && k !in acks)
      && (forall k :: k in r ==> r[k] == q[k].(higherAcks := r[k].higherAcks) && q[k].higherAcks <= r[k].higherAcks)
      && |r| <= |q|
    decreases |acks|
  {
    if acks != [] {
      var one := AckOne(q, acks[0]);
      AckAllKeeps(one, acks[1..]);
      assert acks == [acks[0]] + acks[1..];
      assert one.Keys <= q.Keys;
      SubsetSize(one.Keys, q.Keys);
    }
  }

  /** The buffer, at or just after the window's lower edge. */
  ghost predicate ChainReady(s: State) {
    forall k :: k in s.rxBuffer ==> s.nextRx <= k < s.nextRx + MAX_RX_BUFFER && k < U32_LIMIT - 1
  }

  /** Delivering the chain forgets nothing and leaves the buffer strictly above
      nextRx. */
  lemma {:induction false} DeliverChainInv(s: State)
    requires ChainReady(s)
    ensures var c := DeliverChain(s);
      && RxInv(c) && s.nextRx <= c.nextRx
      && (forall k: u32 :: Received(c, k) <==> Received(s, k))
      && (forall k :: k in c.rxBuffer ==> k in s.rxBuffer && c.rxBuffer[k] == s.rxBuffer[k])
      && c == s.(nextRx := c.nextRx, rxBuffer := c.rxBuffer, readBuf := c.readBuf)
    decreases |s.rxBuffer|
  {
    if s.nextRx in s.rxBuffer {
      RemoveShrinks(s.rxBuffer, s.nextRx);
      var t := DeliverNext(s);
      assert t.nextRx == s.nextRx + 1;
      assert ChainReady(t);
      DeliverChainInv(t);
      assert forall k: u32 :: Received(t, k) <==> Received(s, k);
    }
  }

  /** The state a message leaves behind before it is acknowledged. */
  function Absorbed(s: State, pid: u32, body: seq<byte>): State {
    if pid < s.nextRx || pid in s.rxBuffer then s
    else if pid == s.nextRx then DeliverChain(s.(readBuf := s.readBuf + body, nextRx := Inc32(s.nextRx)))
    else if pid - s.nextRx >= MAX_RX_BUFFER then s
    else s.(rxBuffer := s.rxBuffer[pid := body])
  }

  lemma AbsorbedInv(s: State, pid: u32, body: seq<byte>)
    requires RxInv(s) && pid < U32_LIMIT - 1
    ensures var r := Absorbed(s, pid, body);
      && RxInv(r) && s.nextRx <= r.nextRx
      && (forall k: u32 :: Received(s, k) ==> Received(r, k))
      && (Received(r, pid) || pid >= s.nextRx + MAX_RX_BUFFER)
      && (forall k: u32 :: Received(r, k) ==> Received(s, k) || k == pid)
      && r == s.(nextRx := r.nextRx, rxBuffer := r.rxBuffer, readBuf := r.readBuf)
  {
    if pid == s.nextRx && pid !in s.rxBuffer {
      var t := s.(readBuf := s.readBuf + body, nextRx := Inc32(s.nextRx));
      assert t.nextRx == s.nextRx + 1;
      DeliverChainInv(t);
      assert Received(t, pid);
    }
  }

  /** Receiving a message is absorbing it and, unless it lies beyond the window,
      acknowledging it. */
  lemma ReceiveIsAbsorb(s: State, pid: u32, body: seq<byte>, now: int)
    requires RxInv(s)
    ensures ReceiveMessage(s, pid, body, now) ==
            if pid >= s.nextRx + MAX_RX_BUFFER then s else AddPendingAck(Absorbed(s, pid, body), pid, now)
  {
    if pid >= s.nextRx + MAX_RX_BUFFER {
      assert pid !in s.rxBuffer;
    }
  }

  lemma AddPendingAckFrame(s: State, pid: u32, now: int)
    ensures var r := AddPendingAck(s, pid, now);
      r == s.(pendingAcks := r.pendingAcks, pendingAckSet := r.pendingAckSet, ackSince := r.ackSince)
  {
  }

  /** What receiving a message can change. */
  lemma ReceiveFrame(s: State, pid: u32, body: seq<byte>, now: int)
    requires RxInv(s) && pid < U32_LIMIT - 1
    ensures var r := ReceiveMessage(s, pid, body, now);
      r == s.(nextRx := r.nextRx, rxBuffer := r.rxBuffer, readBuf := r.readBuf, pendingAcks := r.pendingAcks,
              pendingAckSet := r.pendingAckSet, ackSince := r.ackSince)
  {
    ReceiveIsAbsorb(s, pid, body, now);
    AbsorbedInv(s, pid, body);
    AddPendingAckFrame(Absorbed(s, pid, body), pid, now);
  }

  lemma ReceiveMessageInv(s: State, pid: u32, body: seq<byte>, now: int)
    requires LayerInv(s) && s.remoteKnown && pid < U32_LIMIT - 1
    ensures LayerInv(ReceiveMessage(s, pid, body, now)) && Later(s, ReceiveMessage(s, pid, body, now))
  {
    ReceiveIsAbsorb(s, pid, body, now);
    if pid < s.nextRx + MAX_RX_BUFFER {
      var b := Absorbed(s, pid, body);
      AbsorbedInv(s, pid, body);
      assert Later(s, b);
      ChannelStaysOk(s, b);
      AddPendingAckInv(b, pid, now);
      AddPendingAckFrame(b, pid, now);
      ChannelStaysOk(b, AddPendingAck(b, pid, now));
    }
  }

  lemma HandleInboundInv(s: State, p: Packet, now: int)
    requires LayerInv(s) && p.payload.msgPid < U32_LIMIT - 1
    ensures LayerInv(HandleInbound(s, p, now)) && Later(s, HandleInbound(s, p, now))
  {
    if Admits(s, p) {
      var k := LockRemote(s, p);
      var a := k.(txQueue := AckAll(k.txQueue, InboundAcks(p)));
      AckAllKeeps(k.txQueue, InboundAcks(p));
      assert Later(s, a);
      ChannelStaysOk(s, a);
      if p.opcode != P_ACK_V1 {
        ReceiveMessageInv(a, p.payload.msgPid, p.payload.body, now);
      }
    }
  }

  // --- timers ----------------------------------------------------------------------

  lemma ResendTx(s: State, pid: u32, now: int)
    requires AckInv(s) && TxInv(s) && pid in s.txQueue && s.txQueue[pid].attempts < MAX_RETRANSMITS
    ensures var r := Resend(s, pid, now);
      && TxInv(r) && r.txQueue.Keys == s.txQueue.Keys
      && r == s.(pendingAcks := r.pendingAcks, pendingAckSet := r.pendingAckSet,
                 ackSince := r.ackSince, outbound := r.outbound, txQueue := r.txQueue)
  {
    var p := s.txQueue[pid];
    EmitFrame(s, p.opcode, p.msgPid, p.body, now);
    var r := Resend(s, pid, now);
    assert r.txQueue.Keys == s.txQueue.Keys;
    assert |r.txQueue| == |r.txQueue.Keys| && |s.txQueue| == |s.txQueue.Keys|;
  }

  lemma ResendInv(s: State, pid: u32, now: int)
    requires LayerInv(s) && pid in s.txQueue && s.txQueue[pid].attempts < MAX_RETRANSMITS
    ensures LayerInv(Resend(s, pid, now)) && Later(s, Resend(s, pid, now))
  {
    var p := s.txQueue[pid];
    ResendTx(s, pid, now);
    EmitInv(s, p.opcode, p.msgPid, p.body, now);
    ChannelStaysOk(Emit(s, p.opcode, p.msgPid, p.body, now), Resend(s, pid, now));
  }

  lemma {:induction false} TickLoopInv(s: State, now: int, order: seq<u32>)
    requires LayerInv(s)
    requires forall k :: k in order ==> k in s.txQueue
    ensures var t := TickLoop(s, now, order).state;
      && LayerInv(t) && Later(s, t) && t.txQueue.Keys == s.txQueue.Keys
      && t == s.(pendingAcks := t.pendingAcks, pendingAckSet := t.pendingAckSet,
                 ackSince := t.ackSince, outbound := t.outbound, txQueue := t.txQueue)
    decreases |order|
  {
    if order != [] {
      var p := s.txQueue[order[0]];
      if !Due(p, now) {
        TickLoopInv(s, now, order[1..]);
      } else if p.attempts < MAX_RETRANSMITS {
        ResendTx(s, order[0], now);
        ResendInv(s, order[0], now);
        TickLoopInv(Resend(s, order[0], now), now, order[1..]);
      }
    }
  }

  lemma TickInv(s: State, now: int, order: seq<u32>)
    requires LayerInv(s) && IsOrder(s.txQueue, order)
    ensures var t := Tick(s, now, order).state;
      && LayerInv(t) && Later(s, t) && t.txQueue.Keys == s.txQueue.Keys
      && t == s.(pendingAcks := t.pendingAcks, pendingAckSet := t.pendingAckSet,
                 ackSince := t.ackSince, outbound := t.outbound, txQueue := t.txQueue)
  {
    if !s.closed {
      TickLoopInv(s, now, order);
      var t := TickLoop(s, now, order);
      StandaloneAckFrame(t.state, now);
      EmitStandaloneAckInv(t.state, now);
    }
  }

  // --- bounds ---------------------------------------------------------------------

  /** The reorder buffer holds at most 63 bodies, never the next one due. */
  lemma RxBufferBound(s: State)
    requires RxInv(s)
    ensures |s.rxBuffer| <= MAX_RX_BUFFER - 1
    ensures s.nextRx !in s.rxBuffer
  {
    IntervalCardinality(s.rxBuffer.Keys, s.nextRx + 1, s.nextRx + MAX_RX_BUFFER);
    assert |s.rxBuffer| == |s.rxBuffer.Keys|;
  }
}
