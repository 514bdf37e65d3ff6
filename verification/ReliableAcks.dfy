/** Where acks go: every packet-id a layer owes an ack for leaves in some packet,
    once and in order, and the clock that hurries acks along says since when they
    have waited. */
module ReliableAcks {
  import opened Bytes
  import opened Proto
  import opened Reliable
  import opened ReliableInvariants
  import opened ReliableNode
  import opened ReliableTiming

  /** The acks a packet carries, in either of its two places. */
  function Carried(p: Packet): seq<u32> {
    p.payload.acks + p.ack.acks
  }

  function CarriedBy(ps: seq<Packet>): seq<u32> {
    if ps == [] then [] else CarriedBy(ps[..|ps| - 1]) + Carried(ps[|ps| - 1])
  }

  lemma {:induction false} CarriedAppend(a: seq<Packet>, b: seq<Packet>)
    ensures CarriedBy(a + b) == CarriedBy(a) + CarriedBy(b)
    decreases |b|
  {
    if b == [] {
      assert a + b == a;
    } else {
      var init := b[..|b| - 1];
      assert (a + b)[..|a + b| - 1] == a + init;
      CarriedAppend(a, init);
    }
  }

  lemma CarriedOne(p: Packet)
    ensures CarriedBy([p]) == Carried(p)
  {
    assert [p][..0] == [];
  }

  /** A packet names the layer's session and key-id, and its peer where it says
      whose acks it carries. */
  predicate Signed(s: State, keyId: byte, p: Packet) {
    && p.sessionId == s.localSid && p.keyId == keyId
    && (if p.ack.acks == [] then p.payload.remoteSid == s.remoteSid else p.ack.remoteSid == s.remoteSid)
  }

  /** The layer has put the packets ps on its channel at time `now`: they carry the
      oldest pending acks in order, eight each as long as there are that many, and
      the others still wait; since the same time, or since `now` if the channel
      turned out full. */
  ghost predicate Sends(s: State, s': State, now: int, ps: seq<Packet>) {
    && s'.taken == s.taken && s'.outbound == s.outbound + ps
    && s'.capacity == s.capacity && s'.localSid == s.localSid && s'.keyId == s.keyId && s'.remoteSid == s.remoteSid
    && CarriedBy(ps) + s'.pendingAcks == s.pendingAcks
    && (ps != [] ==> |Carried(ps[0])| == Min(8, |s.pendingAcks|))
    && (forall p :: p in ps ==> Signed(s, s.keyId, p))
    && (s'.ackSince.Some? ==>
          s.ackSince.Some?
          && (s'.ackSince == s.ackSince || (s'.ackSince == Some(now) && |s'.outbound| >= s.capacity)))
  }

  lemma SendsThen(s: State, t: State, u: State, now: int, a: seq<Packet>, b: seq<Packet>)
    requires Sends(s, t, now, a) && Sends(t, u, now, b)
    ensures Sends(s, u, now, a + b)
  {
    assert u.outbound == s.outbound + (a + b);
    AcksThen(s.pendingAcks, t.pendingAcks, u.pendingAcks, a, b);
    assert forall p :: p in a + b ==> p in a || p in b;
  }

  lemma AcksThen(before: seq<u32>, between: seq<u32>, after: seq<u32>, a: seq<Packet>, b: seq<Packet>)
    requires CarriedBy(a) + between == before && CarriedBy(b) + after == between
    requires a != [] ==> |Carried(a[0])| == Min(8, |before|)
    requires b != [] ==> |Carried(b[0])| == Min(8, |between|)
    ensures CarriedBy(a + b) + after == before
    ensures a + b != [] ==> |Carried((a + b)[0])| == Min(8, |before|)
  {
    CarriedAppend(a, b);
    assert (CarriedBy(a) + CarriedBy(b)) + after == CarriedBy(a) + (CarriedBy(b) + after);
    if a == [] {
      assert a + b == b && CarriedBy(a) == [] && between == before;
    } else {
      assert (a + b)[0] == a[0];
    }
  }

  lemma SendsNothing(s: State, s': State, now: int)
    requires s'.taken == s.taken && s'.outbound == s.outbound
    requires s'.capacity == s.capacity && s'.localSid == s.localSid && s'.keyId == s.keyId && s'.remoteSid == s.remoteSid
    requires s'.pendingAcks == s.pendingAcks && s'.ackSince == s.ackSince
    ensures Sends(s, s', now, [])
  {
    assert s.outbound + [] == s.outbound;
  }

  lemma EmitSends(s: State, opcode: Opcode, pid: u32, body: seq<byte>, now: int) returns (ps: seq<Packet>)
    requires AckInv(s)
    ensures Sends(s, Emit(s, opcode, pid, body, now), now, ps)
    ensures ps == if |s.outbound| < s.capacity then [ControlPacket(s, opcode, pid, body)] else []
  {
    var acks := DrainedAcks(s, MAX_ACKS_PER_PACKET);
    assert s.pendingAcks == acks + s.pendingAcks[|acks|..];
    if |s.outbound| < s.capacity {
      var p := ControlPacket(s, opcode, pid, body);
      ps := [p];
      CarriedOne(p);
      assert Carried(p) == acks + [] == acks;
    } else {
      ps := [];
      RestoreUndoesDrain(s, MAX_ACKS_PER_PACKET, now);
      assert s.outbound + [] == s.outbound;
    }
  }

  lemma StandaloneSends(s: State, now: int) returns (ps: seq<Packet>)
    requires AckInv(s)
    ensures Sends(s, EmitStandaloneAck(s, now), now, ps)
  {
    var acks := DrainedAcks(s, MAX_ACKS_PER_PACKET);
    assert s.pendingAcks == acks + s.pendingAcks[|acks|..];
    ps := [];
    assert s.outbound + [] == s.outbound;
    if s.pendingAcks != [] && s.remoteKnown {
      if |s.outbound| < s.capacity {
        ps := [StandaloneAck(s)];
        CarriedOne(StandaloneAck(s));
        assert Carried(StandaloneAck(s)) == [] + acks == acks;
      } else {
        RestoreUndoesDrain(s, MAX_ACKS_PER_PACKET, now);
      }
    }
  }

  lemma EnqueueSends(s: State, opcode: Opcode, body: seq<byte>, now: int) returns (ps: seq<Packet>)
    requires AckInv(s)
    ensures Sends(s, Enqueue(s, opcode, body, now), now, ps)
    ensures |s.txQueue| >= 12 || |s.outbound| >= s.capacity ==> ps == []
    ensures |s.txQueue| < 12 && |s.outbound| < s.capacity ==>
      |ps| == 1 && ps[0].opcode == opcode && ps[0].payload.msgPid == s.nextTx && ps[0].payload.body == body
  {
    if HasRoom(s) {
      ps := EmitSends(Queued(s, opcode, body, now), opcode, s.nextTx, body, now);
    } else {
      ps := [];
      SendsNothing(s, s, now);
    }
  }

  lemma {:induction false} TickLoopSends(s: State, now: int, order: seq<u32>) returns (ps: seq<Packet>)
    requires AckInv(s) && TxInv(s)
    requires forall k :: k in order ==> k in s.txQueue
    ensures AckInv(TickLoop(s, now, order).state)
    ensures Sends(s, TickLoop(s, now, order).state, now, ps)
    decreases |order|
  {
    ps := [];
    SendsNothing(s, s, now);
    if order != [] {
      var p := s.txQueue[order[0]];
      if !Due(p, now) {
        ps := TickLoopSends(s, now, order[1..]);
      } else if p.attempts < MAX_RETRANSMITS {
        var first := ResendSends(s, order[0], now);
        ResendTx(s, order[0], now);
        var rest := TickLoopSends(Resend(s, order[0], now), now, order[1..]);
        SendsThen(s, Resend(s, order[0], now), TickLoop(s, now, order).state, now, first, rest);
        ps := first + rest;
      }
    }
  }

  lemma ResendSends(s: State, pid: u32, now: int) returns (ps: seq<Packet>)
    requires AckInv(s) && TxInv(s) && pid in s.txQueue && s.txQueue[pid].attempts < MAX_RETRANSMITS
    ensures AckInv(Resend(s, pid, now))
    ensures Sends(s, Resend(s, pid, now), now, ps)
  {
    var p := s.txQueue[pid];
    EmitFrame(s, p.opcode, p.msgPid, p.body, now);
    ps := EmitSends(s, p.opcode, p.msgPid, p.body, now);
  }

  lemma TickSends(s: State, now: int, order: seq<u32>) returns (ps: seq<Packet>)
    requires AckInv(s) && TxInv(s) && IsOrder(s.txQueue, order)
    ensures Sends(s, Tick(s, now, order).state, now, ps)
  {
    ps := [];
    SendsNothing(s, s, now);
    if !s.closed {
      var t := TickLoop(s, now, order);
      ps := TickLoopSends(s, now, order);
      if t.error == None && t.state.pendingAcks != [] && AckFlushDue(t.state, now) {
        var more := StandaloneSends(t.state, now);
        SendsThen(s, t.state, EmitStandaloneAck(t.state, now), now, ps, more);
        ps := ps + more;
      }
    }
  }

  lemma SoftResetSends(s: State, keyId: byte, now: int) returns (ps: seq<Packet>)
    requires AckInv(s)
    ensures Sends(s.(keyId := keyId), SendSoftReset(s, keyId, now).(keyId := keyId), now, ps)
    ensures s.closed ==> ps == []
  {
    if s.closed {
      ps := [];
      SendsNothing(s.(keyId := keyId), s.(keyId := keyId), now);
    } else {
      var t := s.(keyId := keyId);
      ps := EnqueueSends(t, P_CONTROL_SOFT_RESET_V1, [], now);
      assert SendSoftReset(s, keyId, now).(keyId := keyId) == Enqueue(t, P_CONTROL_SOFT_RESET_V1, [], now);
    }
  }

  // --- any event ---------------------------------------------------------------------

  /** The moment an event happens, where its code looks at the clock. */
  function Stamp(e: Event): int {
    match e
    case HardReset(_, now) => now
    case SoftReset(_, now) => now
    case Inbound(_, now) => now
    case Timer(now, _) => now
    case ContinueWrite(_, now) => now
    case _ => 0
  }

  /** The key-id under which an event sends. */
  function SendingKeyId(s: State, e: Event): byte {
    if e.SoftReset? then e.keyId else s.keyId
  }

  /** The packet-id an event makes the layer owe a new ack for: that of a message
      from its peer, at most 63 beyond the next one due, not yet owed. */
  function Owed(s: State, e: Event): seq<u32> {
    if && e.Inbound? && !s.closed && (s.remoteKnown ==> e.packet.sessionId == s.remoteSid)
       && e.packet.opcode != P_ACK_V1
       && e.packet.payload.msgPid < s.nextRx + 64 && e.packet.payload.msgPid !in s.pendingAcks
    then [e.packet.payload.msgPid] else []
  }

  /** What an event does to acks and to the channel. */
  ghost predicate Accounts(s: State, s': State, e: Event, ps: seq<Packet>) {
    && Emitted(s') == Emitted(s) + ps
    && CarriedBy(ps) + s'.pendingAcks == s.pendingAcks + Owed(s, e)
    && (ps != [] ==> |Carried(ps[0])| == Min(8, |s.pendingAcks|))
    && (forall p :: p in ps ==> Signed(s, SendingKeyId(s, e), p))
    && (s'.ackSince.Some? ==>
          || s'.ackSince == s.ackSince
          || (s.ackSince == None && Owed(s, e) != [] && s'.ackSince == Some(Stamp(e)))
          || (s.ackSince.Some? && |s'.outbound| >= s.capacity && s'.ackSince == Some(Stamp(e))))
  }

  lemma SendsAccounts(s: State, s': State, e: Event, ps: seq<Packet>)
    requires Sends(s, s', Stamp(e), ps) && Owed(s, e) == [] && SendingKeyId(s, e) == s.keyId
    ensures Accounts(s, s', e, ps)
  {
    assert s.taken + (s.outbound + ps) == s.taken + s.outbound + ps;
    assert s.pendingAcks + [] == s.pendingAcks;
  }

  lemma InboundAccounts(s: State, e: Event)
    requires LayerInv(s) && e.Inbound? && e.packet.payload.msgPid < U32_LIMIT - 1
    ensures Accounts(s, HandleInbound(s, e.packet, e.now), e, [])
  {
    var p, now := e.packet, e.now;
    var r := HandleInbound(s, p, now);
    InboundFrame(s, p, now);
    assert Emitted(s) + [] == Emitted(s);
    if !s.closed && (s.remoteKnown ==> p.sessionId == s.remoteSid) && p.opcode != P_ACK_V1 {
      var k := LockRemote(s, p);
      var a := k.(txQueue := AckAll(k.txQueue, InboundAcks(p)));
      assert r == ReceiveMessage(a, p.payload.msgPid, p.payload.body, now);
      MessageAccounts(a, p.payload.msgPid, p.payload.body, now);
    } else {
      assert r.pendingAcks == s.pendingAcks && r.ackSince == s.ackSince;
    }
  }

  lemma MessageAccounts(s: State, pid: u32, body: seq<byte>, now: int)
    requires AckInv(s) && RxInv(s) && pid < U32_LIMIT - 1
    ensures var r := ReceiveMessage(s, pid, body, now);
      && r.pendingAcks == s.pendingAcks + (if pid < s.nextRx + 64 && pid !in s.pendingAcks then [pid] else [])
      && r.ackSince == if r.pendingAcks == s.pendingAcks || s.ackSince.Some? then s.ackSince else Some(now)
  {
    ReceiveIsAbsorb(s, pid, body, now);
    AbsorbedInv(s, pid, body);
    assert s.pendingAcks + [] == s.pendingAcks;
    assert pid in s.pendingAckSet <==> pid in s.pendingAcks;
  }

  lemma PumpAccounts(s: State)
    requires LayerInv(s)
    ensures Accounts(s, Pump(s), PumpOne, [])
  {
    PumpInv(s);
    assert Emitted(s) + [] == Emitted(s);
  }

  /** Every event: the packets it sends carry the oldest acks owed, in order, and
      what they do not carry is still owed, together with the one the event adds. */
  lemma EventAccounts(n: Node, e: Event) returns (ps: seq<Packet>)
    requires LayerInv(n.layer) && Enabled(n, e)
    ensures Accounts(n.layer, ApplyLayer(n, e), e, ps)
  {
    var s, s' := n.layer, ApplyLayer(n, e);
    ps := [];
    match e
    case HardReset(op, now) =>
      SendsNothing(s, s, now);
      if !s.closed && IsControl(op) {
        ps := EnqueueSends(s, op, [], now);
      }
      SendsAccounts(s, s', e, ps);
    case SoftReset(k, now) =>
      ps := SoftResetSends(s, k, now);
      SoftResetAccounts(s, e, ps);
    case Inbound(p, now) =>
      InboundAccounts(s, e);
    case Timer(now, order) =>
      ps := TickSends(s, now, order);
      SendsAccounts(s, s', e, ps);
    case ContinueWrite(i, now) =>
      SendsNothing(s, s, now);
      if WillEnqueue(s, n.writers[i]) {
        ps := EnqueueSends(s, P_CONTROL_V1, NextChunk(n.writers[i]), now);
      }
      SendsAccounts(s, s', e, ps);
    case PumpOne =>
      PumpAccounts(s);
    case _ =>
      OtherAccounts(n, e);
  }

  lemma SoftResetAccounts(s: State, e: Event, ps: seq<Packet>)
    requires e.SoftReset?
    requires Sends(s.(keyId := e.keyId), SendSoftReset(s, e.keyId, e.now).(keyId := e.keyId), e.now, ps)
    ensures Accounts(s, SendSoftReset(s, e.keyId, e.now), e, ps)
  {
    assert s.taken + (s.outbound + ps) == s.taken + s.outbound + ps;
    assert s.pendingAcks + [] == s.pendingAcks;
    var t := s.(keyId := e.keyId);
    assert forall p :: p in ps ==> Signed(t, t.keyId, p) && Signed(s, e.keyId, p);
  }

  lemma OtherAccounts(n: Node, e: Event)
    requires Enabled(n, e)
    requires e.ReadBytes? || e.BeginWrite? || e.EndRead? || e.Shut? || e.UseKeyId? || e.PreSeedRemote?
    ensures Accounts(n.layer, ApplyLayer(n, e), e, [])
  {
    var s := n.layer;
    assert Emitted(s) + [] == Emitted(s) && s.pendingAcks + [] == s.pendingAcks;
    assert [] + s.pendingAcks == s.pendingAcks;
  }

  // --- runs ------------------------------------------------------------------------------

  /** The packet-ids a layer has come to owe an ack for in the first i events. */
  ghost function OwedBy(states: seq<Node>, events: seq<Event>, i: nat): seq<u32>
    requires |states| == |events| + 1 && i <= |events|
  {
    if i == 0 then [] else OwedBy(states, events, i - 1) + Owed(states[i - 1].layer, events[i - 1])
  }

  /** In every run the acks sent so far and the acks pending are together exactly
      the acks owed so far, in order: none is lost, repeated, invented or
      overtaken. */
  lemma {:induction false} AcksAreConserved(states: seq<Node>, events: seq<Event>, i: nat)
    requires IsLayerRun(states, events) && i < |states|
    ensures CarriedBy(Emitted(states[i].layer)) + states[i].layer.pendingAcks == OwedBy(states, events, i)
  {
    if i > 0 {
      AcksAreConserved(states, events, i - 1);
      LayerRunInv(states, events, i - 1);
      assert StepAt(states, events, i - 1);
      var s, s' := states[i - 1].layer, states[i].layer;
      var ps := EventAccounts(states[i - 1], events[i - 1]);
      CarriedAppend(Emitted(s), ps);
      Reassociate(CarriedBy(Emitted(s)), CarriedBy(ps), s'.pendingAcks, s.pendingAcks, Owed(s, events[i - 1]));
    }
  }

  lemma Reassociate(a: seq<u32>, b: seq<u32>, c: seq<u32>, d: seq<u32>, e: seq<u32>)
    requires b + c == d + e
    ensures (a + b) + c == (a + d) + e
  {
    assert (a + b) + c == a + (b + c) == a + (d + e);
  }

  ghost predicate IsAccountedFor(s: State, s': State, e: Event) {
    exists ps :: Accounts(s, s', e, ps)
  }

  /** In every run each event's packets are signed with the layer's session-id, the
      key-id in force and the peer's session-id, and their acks are the oldest ones
      pending, eight to a packet where there are so many. */
  lemma PacketsAreSigned(states: seq<Node>, events: seq<Event>, i: nat)
    requires IsLayerRun(states, events) && i < |events|
    ensures IsAccountedFor(states[i].layer, states[i + 1].layer, events[i])
  {
    LayerRunInv(states, events, i);
    assert StepAt(states, events, i);
    var ps := EventAccounts(states[i], events[i]);
  }

  /** The clock that says since when acks wait: it starts with the event that makes
      the first ack owed, and stands still until all are sent, except that an event
      that wants to send them and finds the channel full may set it to its own
      time. */
  lemma AckClock(states: seq<Node>, events: seq<Event>, i: nat)
    requires IsLayerRun(states, events) && i < |events|
    ensures var s, s', now := states[i].layer, states[i + 1].layer, Stamp(events[i]);
      && (s.pendingAcks == [] && s'.pendingAcks != [] ==>
            events[i].Inbound? && s'.ackSince == Some(now))
      && (s.pendingAcks != [] && s'.pendingAcks != [] ==>
            || s'.ackSince == s.ackSince
            || (!events[i].Inbound? && |s'.outbound| >= s'.capacity && s'.ackSince == Some(now)))
  {
    LayerRunInv(states, events, i);
    LayerRunInv(states, events, i + 1);
    assert StepAt(states, events, i);
    LayerStepInv(states[i], events[i]);
    var s, s' := states[i].layer, states[i + 1].layer;
    var ps := EventAccounts(states[i], events[i]);
    assert |CarriedBy(ps)| + |s'.pendingAcks| == |s.pendingAcks| + |Owed(s, events[i])|;
    if events[i].Inbound? && s.pendingAcks != [] {
      InboundClock(s, events[i].packet, events[i].now);
    }
  }

  lemma InboundClock(s: State, p: Packet, now: int)
    requires LayerInv(s) && s.pendingAcks != [] && p.payload.msgPid < U32_LIMIT - 1
    ensures HandleInbound(s, p, now).ackSince == s.ackSince
  {
    if Admits(s, p) && p.opcode != P_ACK_V1 {
      var k := LockRemote(s, p);
      MessageAccounts(k.(txQueue := AckAll(k.txQueue, InboundAcks(p))), p.payload.msgPid, p.payload.body, now);
    }
  }
}
