/** The layer's operations as their callers see them: whom it listens to, when it
    resends, when Write waits, what Read ends with. */
module ReliableContract {
  import opened Bytes
  import opened Proto
  import opened Reliable
  import opened ReliableInvariants
  import opened ReliableNode
  import opened ReliableTiming
  import opened ReliableProgress
  import opened ReliableAcks

  // --- whom a layer listens to ---------------------------------------------------------

  lemma {:induction false} ChainFrame(s: State)
    ensures var c := DeliverChain(s);
      c == s.(nextRx := c.nextRx, rxBuffer := c.rxBuffer, readBuf := c.readBuf)
    decreases |s.rxBuffer|
  {
    if s.nextRx in s.rxBuffer {
      RemoveShrinks(s.rxBuffer, s.nextRx);
      ChainFrame(DeliverNext(s));
    }
  }

  lemma MessageFrame(s: State, pid: u32, body: seq<byte>, now: int)
    ensures var r := ReceiveMessage(s, pid, body, now);
      r.remoteKnown == s.remoteKnown && r.remoteSid == s.remoteSid && r.closed == s.closed
  {
    ChainFrame(s.(readBuf := s.readBuf + body, nextRx := Inc32(s.nextRx)));
  }

  /** A closed layer and a packet of a foreign session leave everything as it was,
      each with its own error; any other packet is taken, and from the first on the
      layer knows its peer. */
  lemma SessionIdLock(s: State, p: Packet, now: int)
    ensures var r, err := HandleInbound(s, p, now), HandleInboundError(s, p);
      && (s.closed ==> r == s && err == Some(Closed))
      && (!s.closed && s.remoteKnown && p.sessionId != s.remoteSid ==> r == s && err == Some(SessionIdMismatch))
      && (!s.closed && (!s.remoteKnown || p.sessionId == s.remoteSid) ==>
            err == None && r.remoteKnown && r.remoteSid == p.sessionId)
  {
    if !s.closed && (!s.remoteKnown || p.sessionId == s.remoteSid) {
      var k := s.(remoteSid := p.sessionId, remoteKnown := true);
      var a := k.(txQueue := AckAll(k.txQueue, InboundAcks(p)));
      MessageFrame(a, p.payload.msgPid, p.payload.body, now);
      assert HandleInbound(s, p, now) ==
             if p.opcode == P_ACK_V1 then a else ReceiveMessage(a, p.payload.msgPid, p.payload.body, now);
    }
  }

  lemma {:induction false} PeerStays(states: seq<Node>, events: seq<Event>, i: nat, k: nat)
    requires IsLayerRun(states, events) && i <= k < |states| && states[i].layer.remoteKnown
    ensures states[k].layer.remoteKnown && states[k].layer.remoteSid == states[i].layer.remoteSid
    decreases k
  {
    if i < k {
      PeerStays(states, events, i, k - 1);
      LayerRunInv(states, events, k - 1);
      assert StepAt(states, events, k - 1);
      LayerStepInv(states[k - 1], events[k - 1]);
    }
  }

  /** In every run all inbound packets that change anything come from one session,
      the one the layer knows as its peer from then on. */
  lemma OneSession(states: seq<Node>, events: seq<Event>, i: nat, k: nat)
    requires IsLayerRun(states, events) && i < |events| && i < k < |states|
    requires events[i].Inbound? && states[i + 1].layer != states[i].layer
    ensures states[k].layer.remoteKnown && states[k].layer.remoteSid == events[i].packet.sessionId
    ensures forall j :: 0 <= j < |events| && events[j].Inbound? && states[j + 1].layer != states[j].layer ==>
      events[j].packet.sessionId == events[i].packet.sessionId
  {
    ChangeMeansPeer(states, events, i);
    PeerStays(states, events, i + 1, k);
    forall j | 0 <= j < |events| && events[j].Inbound? && states[j + 1].layer != states[j].layer
      ensures events[j].packet.sessionId == events[i].packet.sessionId
    {
      ChangeMeansPeer(states, events, j);
      PeerStays(states, events, Min(i, j) + 1, Max(i, j) + 1);
    }
  }

  lemma ChangeMeansPeer(states: seq<Node>, events: seq<Event>, i: nat)
    requires IsLayerRun(states, events) && i < |events|
    requires events[i].Inbound? && states[i + 1].layer != states[i].layer
    ensures states[i + 1].layer.remoteKnown && states[i + 1].layer.remoteSid == events[i].packet.sessionId
  {
    assert StepAt(states, events, i);
    SessionIdLock(states[i].layer, events[i].packet, events[i].now);
  }

  /** The key-id in force is the one last set, the peer the one pre-set or heard
      first. */
  lemma SettingsStep(states: seq<Node>, events: seq<Event>, i: nat)
    requires IsLayerRun(states, events) && i < |events|
    ensures var s, s', e := states[i].layer, states[i + 1].layer, events[i];
      && s'.keyId == (if e.UseKeyId? then e.keyId else s.keyId)
      && s'.localSid == s.localSid && s'.capacity == s.capacity
      && (e.PreSeedRemote? ==> s'.remoteKnown && s'.remoteSid == e.sid)
      && (!e.PreSeedRemote? && !e.Inbound? ==> s'.remoteKnown == s.remoteKnown && s'.remoteSid == s.remoteSid)
  {
    LayerRunInv(states, events, i);
    assert StepAt(states, events, i);
    SettingsOf(states[i], events[i]);
  }

  lemma SettingsOf(n: Node, e: Event)
    requires LayerInv(n.layer) && Enabled(n, e)
    ensures var s, s' := n.layer, ApplyLayer(n, e);
      && s'.keyId == (if e.UseKeyId? then e.keyId else s.keyId)
      && s'.localSid == s.localSid && s'.capacity == s.capacity
      && (e.PreSeedRemote? ==> s'.remoteKnown && s'.remoteSid == e.sid)
      && (!e.PreSeedRemote? && !e.Inbound? ==> s'.remoteKnown == s.remoteKnown && s'.remoteSid == s.remoteSid)
  {
    if Sending(e) {
      SendingFrame(n, e);
    } else if e.Inbound? {
      InboundSettings(n.layer, e.packet, e.now);
    }
  }

  lemma InboundSettings(s: State, p: Packet, now: int)
    ensures var r := HandleInbound(s, p, now);
      r.keyId == s.keyId && r.localSid == s.localSid && r.capacity == s.capacity
  {
    var k := LockRemote(s, p);
    var a := k.(txQueue := AckAll(k.txQueue, InboundAcks(p)));
    ChainFrame(a.(readBuf := a.readBuf + p.payload.body, nextRx := Inc32(a.nextRx)));
  }

  /** Events that may put packets on the channel. */
  predicate Sending(e: Event) {
    e.HardReset? || e.SoftReset? || e.Timer? || e.ContinueWrite?
  }

  /** They change the send queue, the pending acks and the channel only. */
  lemma SendingFrame(n: Node, e: Event)
    requires LayerInv(n.layer) && Enabled(n, e) && Sending(e)
    ensures var s, s' := n.layer, ApplyLayer(n, e);
      s' == s.(nextTx := s'.nextTx, txQueue := s'.txQueue, issued := s'.issued, pendingAcks := s'.pendingAcks,
               pendingAckSet := s'.pendingAckSet, ackSince := s'.ackSince, outbound := s'.outbound)
  {
    var s := n.layer;
    match e
    case HardReset(op, now) =>
      if !s.closed && IsControl(op) {
        EnqueueInv(s, op, [], now);
      }
    case SoftReset(k, now) =>
      if !s.closed {
        ChannelStaysOk(s, s.(keyId := k));
        EnqueueInv(s.(keyId := k), P_CONTROL_SOFT_RESET_V1, [], now);
      }
    case Timer(now, order) =>
      TickInv(s, now, order);
    case ContinueWrite(i, now) =>
      if WillEnqueue(s, n.writers[i]) {
        EnqueueInv(s, P_CONTROL_V1, NextChunk(n.writers[i]), now);
      }
  }

  // --- when Tick resends ------------------------------------------------------------------

  /** Seconds to wait after the a-th transmission. */
  const WAITS: seq<int> := [1, 2, 4, 8, 16, 16, 16, 16]

  lemma BackoffTable(a: Attempts)
    ensures a <= 8 ==> Backoff(a) == WAITS[a - 1] * 1_000_000_000
    ensures a >= 8 ==> Backoff(a) == 16_000_000_000
  {
    assert Shift(0) == 1 && Shift(1) == 2 && Shift(2) == 4 && Shift(3) == 8 && Shift(4) == 16;
  }

  /** Whether a pending packet is to be resent: three acks for later packets have
      come in, or it has waited 1, 2, 4, 8, 16, 16, 16, 16 seconds after its first,
      second, ... eighth transmission. */
  predicate Overdue(p: Pending, now: int) {
    p.higherAcks >= 3 || now - p.sentAt >= (if p.attempts <= 8 then WAITS[p.attempts - 1] else 16) * 1_000_000_000
  }

  lemma OverdueIsDue(p: Pending, now: int)
    ensures Overdue(p, now) <==> Due(p, now)
  {
    BackoffTable(p.attempts);
  }

  lemma {:induction false} LoopFails(s: State, now: int, order: seq<u32>)
    requires forall k :: k in order ==> k in s.txQueue
    requires NoDuplicates(order)
    ensures var e := TickLoop(s, now, order).error;
      && (e == None || e == Some(TooManyRetransmits))
      && (e.Some? <==> exists k :: k in order && s.txQueue[k].attempts >= 8 && Overdue(s.txQueue[k], now))
    decreases |order|
  {
    if order != [] {
      var k0, rest := order[0], order[1..];
      assert order == [k0] + rest && k0 !in rest;
      OverdueIsDue(s.txQueue[k0], now);
      if !Due(s.txQueue[k0], now) {
        LoopFails(s, now, rest);
      } else if s.txQueue[k0].attempts < MAX_RETRANSMITS {
        ResendQueue(s, k0, now);
        LoopFails(Resend(s, k0, now), now, rest);
      }
    }
  }

  /** When Tick fails: on a closed layer, or over a packet sent eight times that is
      to be sent again. */
  lemma TickFails(s: State, now: int, order: seq<u32>)
    requires IsOrder(s.txQueue, order)
    ensures var t := Tick(s, now, order);
      && (s.closed ==> t.error == Some(Closed) && t.state == s)
      && (!s.closed ==> t.error == None || t.error == Some(TooManyRetransmits))
      && (!s.closed ==>
            (t.error == Some(TooManyRetransmits) <==>
             exists k :: k in s.txQueue && s.txQueue[k].attempts >= 8 && Overdue(s.txQueue[k], now)))
  {
    LoopFails(s, now, order);
  }

  /** Exactly the overdue packets have been resent: each of these counts one attempt
      more, now, with no higher ack; the others are as they were; none came or went. */
  ghost predicate Retransmitted(q: map<u32, Pending>, q': map<u32, Pending>, now: int) {
    && q'.Keys == q.Keys
    && forall pid :: pid in q ==>
         var p, wait := q[pid], if q[pid].attempts <= 8 then [1, 2, 4, 8, 16, 16, 16, 16][q[pid].attempts - 1] else 16;
         if p.higherAcks >= 3 || now - p.sentAt >= wait * 1_000_000_000
         then q'[pid] == p.(attempts := p.attempts + 1, sentAt := now, higherAcks := 0)
         else q'[pid] == p
  }

  /** A Tick that does not fail resends exactly the overdue packets. */
  lemma TickResends(s: State, now: int, order: seq<u32>)
    requires IsOrder(s.txQueue, order) && Tick(s, now, order).error == None
    ensures Retransmitted(s.txQueue, Tick(s, now, order).state.txQueue, now)
  {
    var q := Tick(s, now, order).state.txQueue;
    TickLoopKeys(s, now, order);
    forall pid | pid in s.txQueue
      ensures var p := s.txQueue[pid];
        pid in q && q[pid] == if Overdue(p, now) then Resent(p, now) else p
    {
      TickResendsDue(s, now, order, pid);
      OverdueIsDue(s.txQueue[pid], now);
    }
  }

  /** ... and with room on the channel each of them enters it exactly once, and no
      other message does. */
  lemma TickTransmits(s: State, now: int, order: seq<u32>, pid: u32)
    requires LayerInv(s) && IsOrder(s.txQueue, order) && Tick(s, now, order).error == None
    requires |s.outbound| + |order| <= s.capacity
    ensures Transmissions(Emitted(Tick(s, now, order).state), pid) ==
            Transmissions(Emitted(s), pid) + if pid in s.txQueue && Overdue(s.txQueue[pid], now) then 1 else 0
  {
    var t := TickLoop(s, now, order).state;
    TickEmitsDue(s, now, order, pid);
    TickLoopInv(s, now, order);
    if pid in s.txQueue {
      OverdueIsDue(s.txQueue[pid], now);
    }
    FlushTransmits(t, now, pid);
  }

  lemma FlushTransmits(s: State, now: int, pid: u32)
    requires AckInv(s)
    ensures Transmissions(Emitted(EmitStandaloneAck(s, now)), pid) == Transmissions(Emitted(s), pid)
  {
    var e := EmitStandaloneAck(s, now);
    StandaloneAckFrame(s, now);
    if e.outbound != s.outbound {
      assert Emitted(e) == Emitted(s) + [StandaloneAck(s)];
      TransmissionsSnoc(Emitted(s), StandaloneAck(s), pid);
    }
  }

  // --- how far apart transmissions are ------------------------------------------------------

  /** What an event can do to an entry of the send queue: create it, credit it a
      higher ack, mark it resent, take it out. */
  lemma EntryStep(n: Node, e: Event, pid: u32)
    requires LayerInv(n.layer) && Enabled(n, e) && pid in ApplyLayer(n, e).txQueue
    ensures var q, q' := n.layer.txQueue, ApplyLayer(n, e).txQueue;
      if pid in q then
        || q'[pid] == q[pid].(higherAcks := q'[pid].higherAcks)
        || (e.Timer? && Overdue(q[pid], e.now)
            && q'[pid] == q[pid].(attempts := q[pid].attempts + 1, sentAt := e.now, higherAcks := 0))
      else
        pid == n.layer.nextTx && q'[pid].attempts == 1 && q'[pid].sentAt == Stamp(e)
  {
    var s := n.layer;
    match e
    case HardReset(op, now) =>
      if !s.closed && IsControl(op) {
        EnqueueEntry(s, op, [], now);
      }
    case SoftReset(k, now) =>
      if !s.closed {
        ChannelStaysOk(s, s.(keyId := k));
        EnqueueEntry(s.(keyId := k), P_CONTROL_SOFT_RESET_V1, [], now);
      }
    case Inbound(p, now) =>
      InboundQueue(s, p, now);
    case Timer(now, order) =>
      TickEntry(s, now, order, pid);
    case ContinueWrite(i, now) =>
      if WillEnqueue(s, n.writers[i]) {
        EnqueueEntry(s, P_CONTROL_V1, NextChunk(n.writers[i]), now);
      }
    case _ =>
  }

  lemma EnqueueEntry(s: State, opcode: Opcode, body: seq<byte>, now: int)
    requires LayerInv(s) && s.nextTx < U32_LIMIT - 1 && IsControl(opcode)
    ensures var q := Enqueue(s, opcode, body, now).txQueue;
      q == s.txQueue || q == s.txQueue[s.nextTx := Pending(s.nextTx, opcode, body, now, 1, 0)]
    ensures s.nextTx !in s.txQueue
  {
    EnqueueInv(s, opcode, body, now);
  }

  lemma TickEntry(s: State, now: int, order: seq<u32>, pid: u32)
    requires IsOrder(s.txQueue, order) && pid in Tick(s, now, order).state.txQueue
    ensures var q, q' := s.txQueue, Tick(s, now, order).state.txQueue;
      && pid in q
      && (q'[pid] == q[pid]
          || (Overdue(q[pid], now)
              && q'[pid] == q[pid].(attempts := q[pid].attempts + 1, sentAt := now, higherAcks := 0)))
  {
    if !s.closed {
      TickLoopKeys(s, now, order);
      TickLoopEntry(s, now, order, pid);
      OverdueIsDue(s.txQueue[pid], now);
    }
  }

  /** The a-th transmission of message pid is due to step i. */
  ghost predicate Transmits(states: seq<Node>, i: nat, pid: u32, a: Attempts) {
    && i + 1 < |states|
    && pid in states[i + 1].layer.txQueue && states[i + 1].layer.txQueue[pid].attempts == a
    && (pid !in states[i].layer.txQueue || states[i].layer.txQueue[pid].attempts != a)
  }

  /** What one step of a run does to message pid. */
  ghost predicate QueueStep(s: State, s': State, e: Event, pid: u32) {
    && s.nextTx <= s'.nextTx
    && (pid in s'.txQueue ==> pid < s'.nextTx && s'.txQueue[pid].attempts <= 8)
    && (pid in s'.txQueue && pid !in s.txQueue ==>
          pid == s.nextTx && s'.txQueue[pid].attempts == 1 && s'.txQueue[pid].sentAt == Stamp(e))
    && (pid in s'.txQueue && pid in s.txQueue ==>
          var p, p' := s.txQueue[pid], s'.txQueue[pid];
          || p' == p.(higherAcks := p'.higherAcks)
          || (e.Timer? && Overdue(p, e.now)
              && p' == p.(attempts := p.attempts + 1, sentAt := e.now, higherAcks := 0)))
  }

  lemma RunQueueStep(states: seq<Node>, events: seq<Event>, i: nat, pid: u32)
    requires IsLayerRun(states, events) && i < |events|
    ensures QueueStep(states[i].layer, states[i + 1].layer, events[i], pid)
  {
    assert StepAt(states, events, i);
    LayerRunInv(states, events, i);
    LayerStepInv(states[i], events[i]);
    if pid in states[i + 1].layer.txQueue {
      EntryStep(states[i], events[i], pid);
    }
  }

  lemma {:induction false} CountGrows(states: seq<Node>, events: seq<Event>, i: nat, k: nat)
    requires IsLayerRun(states, events) && i <= k < |states|
    ensures states[i].layer.nextTx <= states[k].layer.nextTx
    decreases k
  {
    if i < k {
      CountGrows(states, events, i, k - 1);
      RunQueueStep(states, events, k - 1, 0);
    }
  }

  /** From its a-th transmission on an entry has at least a attempts, and as long as
      it has no more, the time of that transmission; once gone it is gone. */
  lemma {:induction false} EntryKeeps(states: seq<Node>, events: seq<Event>, i: nat, k: nat, pid: u32, a: Attempts)
    requires IsLayerRun(states, events) && i < k < |states| && Transmits(states, i, pid, a)
    requires pid in states[k].layer.txQueue
    ensures var p := states[k].layer.txQueue[pid];
      p.attempts >= a && (p.attempts == a ==> p.sentAt == Stamp(events[i]))
    decreases k
  {
    RunQueueStep(states, events, k - 1, pid);
    if i + 1 < k {
      RunQueueStep(states, events, i, pid);
      CountGrows(states, events, i + 1, k - 1);
      EntryKeeps(states, events, i, k - 1, pid, a);
    }
  }

  /** In every run, as long as a message has not had three higher acks, its next
      transmission comes at least 1, 2, 4, 8, 16, 16, 16 seconds after its first,
      second, ... seventh; and there is no ninth. */
  lemma TransmissionsAreSpaced(states: seq<Node>, events: seq<Event>, i: nat, j: nat, pid: u32, a: Attempts)
    requires IsLayerRun(states, events) && i < j < |events|
    requires Transmits(states, i, pid, a) && Transmits(states, j, pid, a + 1)
    requires pid in states[j].layer.txQueue ==> states[j].layer.txQueue[pid].higherAcks < 3
    ensures 1 <= a <= 7 && events[j].Timer?
    ensures Stamp(events[j]) - Stamp(events[i]) >= [1, 2, 4, 8, 16, 16, 16][a - 1] * 1_000_000_000
  {
    RunQueueStep(states, events, i, pid);
    RunQueueStep(states, events, j, pid);
    CountGrows(states, events, i + 1, j);
    assert pid in states[j].layer.txQueue;
    EntryKeeps(states, events, i, j, pid, a);
  }

  // --- what is refused -----------------------------------------------------------------------

  /** A reset is refused on a closed layer, under an opcode that is none of the
      control channel's, and when twelve messages are unacknowledged, and then
      changes nothing; otherwise the message is queued under the next packet-id,
      and with room on the channel it leaves at once. */
  lemma HardResetOutcome(s: State, opcode: Opcode, now: int)
    requires AckInv(s)
    ensures var r, err := SendHardReset(s, opcode, now), SendHardResetError(s, opcode);
      if s.closed then r == s && err == Some(Closed)
      else if opcode !in {3, 4, 5, 7, 8, 10, 11} then r == s && err == Some(BadOpcode)
      else if |s.txQueue| >= 12 then r == s && err == Some(QueueFull)
      else err == None && IsSentAs(s, r, opcode, [], s.keyId, now)
  {
    if !s.closed && IsControl(opcode) && |s.txQueue| < 12 {
      EnqueueIsSent(s, opcode, [], now);
    }
  }

  lemma SoftResetOutcome(s: State, keyId: byte, now: int)
    requires AckInv(s)
    ensures var r, err := SendSoftReset(s, keyId, now), SendSoftResetError(s);
      if s.closed then r == s && err == Some(Closed)
      else if |s.txQueue| >= 12 then r == s && err == Some(QueueFull)
      else err == None && r.keyId == s.keyId && IsSentAs(s, r, 3, [], keyId, now)
  {
    if !s.closed && |s.txQueue| < 12 {
      var t := s.(keyId := keyId);
      EnqueueIsSent(t, P_CONTROL_SOFT_RESET_V1, [], now);
      assert SendSoftReset(s, keyId, now) == Enqueue(t, P_CONTROL_SOFT_RESET_V1, [], now).(keyId := s.keyId);
    }
  }

  /** A message has been sent: queued under the next packet-id, first transmitted at
      `now`, and on the channel if there was room, behind what was there. */
  ghost predicate IsSentAs(s: State, r: State, opcode: Opcode, body: seq<byte>, keyId: byte, now: int) {
    && r.nextTx == (s.nextTx + 1) % 0x1_0000_0000
    && r.issued == s.issued + [Issue(opcode, body, now)]
    && r.txQueue == s.txQueue[s.nextTx := Pending(s.nextTx, opcode, body, now, 1, 0)]
    && if |s.outbound| < s.capacity
       then r.outbound == s.outbound
              + [Packet(opcode, keyId, s.localSid,
                        ControlPayload(s.pendingAcks[..Min(8, |s.pendingAcks|)], s.remoteSid, s.nextTx, body),
                        AckPayload([], 0))]
            && r.pendingAcks == s.pendingAcks[Min(8, |s.pendingAcks|)..]
       else r.outbound == s.outbound && r.pendingAcks == s.pendingAcks
  }

  lemma EnqueueIsSent(s: State, opcode: Opcode, body: seq<byte>, now: int)
    requires AckInv(s) && |s.txQueue| < 12
    ensures IsSentAs(s, Enqueue(s, opcode, body, now), opcode, body, s.keyId, now)
  {
    var q := Queued(s, opcode, body, now);
    EmitFrame(q, opcode, s.nextTx, body, now);
    assert Enqueue(s, opcode, body, now) == Emit(q, opcode, s.nextTx, body, now);
  }

  // --- when Write waits --------------------------------------------------------------------------

  /** Before the peer is known: a call on an open layer waits and enqueues nothing;
      with the read side closed it returns the reason for that, or Closed; on a
      closed layer it returns Closed, unless it was to write nothing. */
  lemma WriteBeforePeer(s: State, input: seq<byte>, now: int)
    requires s.closed || !s.remoteKnown
    ensures var (r, w) := WriteRun(s, StartWrite(input), now);
      && r == s && w.written == 0 && w.pids == []
      && w.phase == if s.closed then Returned(0, if input == [] then None else Some(Closed))
                    else if s.readClosed then Returned(0, if s.readErr == None then Some(Closed) else s.readErr)
                    else AwaitRemote
  {
    var w0 := StartWrite(input);
    if s.closed || s.readClosed {
      var w1 := WriteWriter(s, w0);
      assert WriteRun(s, w0, now) == WriteRun(s, w1, now);
      if s.closed {
        assert w1 == w0.(phase := Running);
        var w2 := WriteWriter(s, w1);
        assert WriteRun(s, w1, now) == WriteRun(s, w2, now) == (s, w2);
      } else {
        assert WriteRun(s, w1, now) == (s, w1);
      }
    } else {
      assert WriteRun(s, w0, now) == (s, w0);
    }
  }

  /** Once the peer is known, a call on an open layer enqueues chunks of 1200 bytes
      while fewer than twelve messages are unacknowledged; it returns when all its
      input is enqueued and waits otherwise. */
  lemma WriteOutcome(s: State, input: seq<byte>, now: int)
    requires LayerInv(s) && !s.closed && s.remoteKnown && s.nextTx + 12 < U32_LIMIT - 1
    ensures var (r, w) := WriteRun(s, StartWrite(input), now);
      && w.written == Min(|input|, 1200 * (12 - |s.txQueue|))
      && w.phase == (if w.written == |input| then Returned(|input|, None) else Running)
      && |r.txQueue| == |s.txQueue| + |w.pids|
      && 1200 * (|w.pids| - 1) < w.written <= 1200 * |w.pids|
      && !r.closed
  {
    var w0 := StartWrite(input).(phase := Running);
    assert WriteRun(s, StartWrite(input), now) == WriteRun(s, w0, now);
    RunningOutcome(s, w0, now);
  }

  /** A running call has gone from s and w to r and v, where it returns or waits. */
  ghost predicate Went(s: State, w: Writer, r: State, v: Writer) {
    && v.input == w.input && !r.closed
    && v.written == Min(|w.input|, w.written + 1200 * (12 - |s.txQueue|))
    && v.phase == (if v.written == |w.input| then Returned(|w.input|, None) else Running)
    && |r.txQueue| + |w.pids| == |s.txQueue| + |v.pids|
    && 1200 * (|v.pids| - 1) < v.written <= 1200 * |v.pids|
  }

  /** A running call has enqueued exactly its first pieces. */
  ghost predicate InPieces(w: Writer) {
    && w.phase.Running? && w.written == Min(|w.input|, 1200 * |w.pids|)
    && 1200 * (|w.pids| - 1) < w.written <= 1200 * |w.pids|
  }

  lemma {:induction false} RunningOutcome(s: State, w: Writer, now: int)
    requires LayerInv(s) && !s.closed && s.nextTx + (12 - |s.txQueue|) < U32_LIMIT - 1
    requires InPieces(w)
    ensures var (r, v) := WriteRun(s, w, now);
      Went(s, w, r, v)
    decreases |w.input| - w.written
  {
    if w.written == |w.input| {
      var v := w.(phase := Returned(w.written, None));
      assert WriteRun(s, w, now) == WriteRun(s, v, now) == (s, v);
    } else if |s.txQueue| >= 12 {
      assert WriteRun(s, w, now) == (s, w);
    } else {
      OneChunk(s, w, now);
      var t, x := WriteLayer(s, w, now), WriteWriter(s, w);
      ChunkArithmetic(|w.input|, w.written, x.written, |w.pids|, |s.txQueue|);
      RunningOutcome(t, x, now);
      var (r, v) := WriteRun(t, x, now);
      WentOn(s, w, t, x, r, v);
    }
  }

  lemma WentOn(s: State, w: Writer, t: State, x: Writer, r: State, v: Writer)
    requires Went(t, x, r, v) && x.input == w.input && w.written < |w.input| && |s.txQueue| < 12
    requires |t.txQueue| == |s.txQueue| + 1 && |x.pids| == |w.pids| + 1
    requires x.written == w.written + Min(1200, |w.input| - w.written)
    ensures Went(s, w, r, v)
  {
  }

  lemma ChunkArithmetic(len: nat, before: nat, after: nat, pieces: nat, queued: nat)
    requires before == Min(len, 1200 * pieces) < len && after == before + Min(1200, len - before)
    requires 1200 * (pieces - 1) < before <= 1200 * pieces && queued < 12
    ensures after == Min(len, 1200 * (pieces + 1)) && 1200 * pieces < after <= 1200 * (pieces + 1)
    ensures Min(len, before + 1200 * (12 - queued)) == Min(len, after + 1200 * (12 - (queued + 1)))
  {
  }

  lemma OneChunk(s: State, w: Writer, now: int)
    requires LayerInv(s) && !s.closed && s.nextTx < U32_LIMIT - 1 && |s.txQueue| < 12
    requires w.phase.Running? && w.written < |w.input|
    ensures var t, v := WriteLayer(s, w, now), WriteWriter(s, w);
      && LayerInv(t) && !t.closed && t.nextTx == s.nextTx + 1 && |t.txQueue| == |s.txQueue| + 1
      && v == w.(written := w.written + Min(1200, |w.input| - w.written), pids := w.pids + [s.nextTx])
      && WriteRun(s, w, now) == WriteRun(t, v, now)
  {
    ChunkQueued(s, NextChunk(w), now);
    assert WriteLayer(s, w, now) == Enqueue(s, P_CONTROL_V1, NextChunk(w), now);
    ChunkWritten(s, w);
  }

  lemma ChunkWritten(s: State, w: Writer)
    requires !s.closed && |s.txQueue| < 12 && w.phase.Running? && w.written < |w.input|
    ensures WriteWriter(s, w)
         == w.(written := w.written + Min(1200, |w.input| - w.written), pids := w.pids + [s.nextTx])
  {
    assert |NextChunk(w)| == Min(1200, |w.input| - w.written);
  }

  lemma ChunkQueued(s: State, body: seq<byte>, now: int)
    requires LayerInv(s) && s.nextTx < U32_LIMIT - 1 && |s.txQueue| < 12
    ensures var t := Enqueue(s, P_CONTROL_V1, body, now);
      LayerInv(t) && t.closed == s.closed && t.nextTx == s.nextTx + 1 && |t.txQueue| == |s.txQueue| + 1
  {
    var t := Enqueue(s, P_CONTROL_V1, body, now);
    EnqueueInv(s, P_CONTROL_V1, body, now);
    assert s.nextTx !in s.txQueue;
    assert t.txQueue.Keys == s.txQueue.Keys + {s.nextTx};
    assert |t.txQueue| == |t.txQueue.Keys| && |s.txQueue| == |s.txQueue.Keys|;
  }

  // --- what Read ends with ---------------------------------------------------------------------------

  /** The last cause given for closing the read side in the first i events. */
  ghost function LastCause(events: seq<Event>, i: nat): Option<nat>
    requires i <= |events|
  {
    if i == 0 then None
    else if events[i - 1].EndRead? && events[i - 1].cause.Some? then events[i - 1].cause
    else LastCause(events, i - 1)
  }

  ghost predicate SideClosed(events: seq<Event>, i: nat)
    requires i <= |events|
  {
    exists j :: 0 <= j < i && (events[j].EndRead? || events[j].Shut?)
  }

  lemma ReadFieldsStep(n: Node, e: Event)
    requires LayerInv(n.layer) && Enabled(n, e)
    requires n.layer.closed ==> n.layer.readClosed
    ensures var s, s' := n.layer, ApplyLayer(n, e);
      if e.EndRead? then
        s'.readClosed && s'.closed == s.closed && s'.readErr == if e.cause.Some? then Some(Cause(e.cause.value)) else s.readErr
      else if e.Shut? then
        s'.readClosed && s'.closed && (s'.readErr == s.readErr || (s.readErr == None && s'.readErr == Some(Eof)))
      else s'.readClosed == s.readClosed && s'.closed == s.closed && s'.readErr == s.readErr
  {
    if Sending(e) {
      SendingFrame(n, e);
    } else if e.Inbound? {
      InboundReadFields(n.layer, e.packet, e.now);
    }
  }

  lemma InboundReadFields(s: State, p: Packet, now: int)
    ensures var r := HandleInbound(s, p, now);
      r.readClosed == s.readClosed && r.closed == s.closed && r.readErr == s.readErr
  {
    var k := LockRemote(s, p);
    var a := k.(txQueue := AckAll(k.txQueue, InboundAcks(p)));
    ChainFrame(a.(readBuf := a.readBuf + p.payload.body, nextRx := Inc32(a.nextRx)));
  }

  lemma {:induction false} ReadSide(states: seq<Node>, events: seq<Event>, i: nat)
    requires IsLayerRun(states, events) && i < |states|
    ensures var s := states[i].layer;
      && (s.readClosed <==> SideClosed(events, i))
      && (s.closed ==> s.readClosed)
      && (LastCause(events, i).Some? ==> s.readErr == Some(Cause(LastCause(events, i).value)))
      && (LastCause(events, i) == None ==> s.readErr == None || s.readErr == Some(Eof))
  {
    if i > 0 {
      ReadSide(states, events, i - 1);
      LayerRunInv(states, events, i - 1);
      assert StepAt(states, events, i - 1);
      ReadFieldsStep(states[i - 1], events[i - 1]);
      if SideClosed(events, i) && !SideClosed(events, i - 1) {
        assert events[i - 1].EndRead? || events[i - 1].Shut?;
      }
      if events[i - 1].EndRead? || events[i - 1].Shut? {
        assert SideClosed(events, i);
      }
    }
  }

  /** In every run, Read waits exactly while nothing is buffered and neither
      CloseRead nor Close was called; when it ends with nothing buffered, it reports
      the last cause given to CloseRead, or the end of the stream if none was. */
  lemma ReadEndsWithCause(states: seq<Node>, events: seq<Event>, i: nat)
    requires IsLayerRun(states, events) && i < |states|
    ensures var s := states[i].layer;
      && (ReadReady(s) <==> s.readBuf != [] || SideClosed(events, i))
      && (s.readBuf != [] ==> ReadError(s) == None)
      && (s.readBuf == [] ==>
            ReadError(s) == Some(if LastCause(events, i).Some? then Cause(LastCause(events, i).value) else Eof))
  {
    ReadSide(states, events, i);
  }
}
