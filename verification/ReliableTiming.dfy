/** How often and how long a layer retransmits, whatever arrives from outside. */
module ReliableTiming {
  import opened Bytes
  import opened Proto
  import opened Reliable
  import opened ReliableInvariants
  import opened ReliableNode

  /** How many packets of the sequence carry message pid. */
  function Transmissions(ps: seq<Packet>, pid: u32): nat {
    if ps == [] then 0
    else
      var p := ps[|ps| - 1];
      Transmissions(ps[..|ps| - 1], pid) + if p.ack.acks == [] && p.payload.msgPid == pid then 1 else 0
  }

  lemma TransmissionsSnoc(ps: seq<Packet>, p: Packet, pid: u32)
    ensures Transmissions(ps + [p], pid) ==
            Transmissions(ps, pid) + if p.ack.acks == [] && p.payload.msgPid == pid then 1 else 0
  {
    assert (ps + [p])[..|ps|] == ps;
  }

  /** How often a message may have been transmitted. */
  function Allowance(s: State, pid: u32): nat {
    if pid in s.txQueue then s.txQueue[pid].attempts
    else if pid < |s.issued| then MAX_RETRANSMITS
    else 0
  }

  ghost predicate Rationed(s: State) {
    forall pid: u32 :: Transmissions(Emitted(s), pid) <= Allowance(s, pid)
  }

  /** The channel got at most the given packet. */
  lemma ChannelStep(s: State, s': State, p: Packet, pid: u32)
    requires s'.taken == s.taken
    requires s'.outbound == s.outbound || s'.outbound == s.outbound + [p]
    ensures Transmissions(Emitted(s'), pid) <=
            Transmissions(Emitted(s), pid) + if p.ack.acks == [] && p.payload.msgPid == pid then 1 else 0
  {
    if s'.outbound == s.outbound + [p] {
      assert Emitted(s') == Emitted(s) + [p];
      TransmissionsSnoc(Emitted(s), p, pid);
    }
  }

  lemma EnqueueRationed(s: State, opcode: Opcode, body: seq<byte>, now: int)
    requires LayerInv(s) && s.nextTx < U32_LIMIT - 1 && IsControl(opcode)
    requires Rationed(s)
    ensures Rationed(Enqueue(s, opcode, body, now))
  {
    if HasRoom(s) {
      var q := Queued(s, opcode, body, now);
      QueuedInv(s, opcode, body, now);
      EmitFrame(q, opcode, s.nextTx, body, now);
      var e := Enqueue(s, opcode, body, now);
      assert e == Emit(q, opcode, s.nextTx, body, now);
      forall pid: u32
        ensures Transmissions(Emitted(e), pid) <= Allowance(e, pid)
      {
        assert Transmissions(Emitted(s), pid) <= Allowance(s, pid);
        ChannelStep(q, e, ControlPacket(q, opcode, s.nextTx, body), pid);
      }
    }
  }

  lemma ResendRationed(s: State, k: u32, now: int)
    requires AckInv(s) && TxInv(s) && k in s.txQueue && s.txQueue[k].attempts < MAX_RETRANSMITS
    requires Rationed(s)
    ensures Rationed(Resend(s, k, now))
  {
    var p := s.txQueue[k];
    var r := Resend(s, k, now);
    EmitFrame(s, p.opcode, p.msgPid, p.body, now);
    forall pid: u32
      ensures Transmissions(Emitted(r), pid) <= Allowance(r, pid)
    {
      assert Transmissions(Emitted(s), pid) <= Allowance(s, pid);
      ChannelStep(s, r, ControlPacket(s, p.opcode, p.msgPid, p.body), pid);
    }
  }

  lemma {:induction false} TickLoopRationed(s: State, now: int, order: seq<u32>)
    requires LayerInv(s) && Rationed(s)
    requires forall k :: k in order ==> k in s.txQueue
    ensures Rationed(TickLoop(s, now, order).state)
    decreases |order|
  {
    if order != [] {
      var p := s.txQueue[order[0]];
      if !Due(p, now) {
        TickLoopRationed(s, now, order[1..]);
      } else if p.attempts < MAX_RETRANSMITS {
        ResendTx(s, order[0], now);
        ResendInv(s, order[0], now);
        ResendRationed(s, order[0], now);
        TickLoopRationed(Resend(s, order[0], now), now, order[1..]);
      }
    }
  }

  lemma StandaloneAckRationed(s: State, now: int)
    requires AckInv(s) && Rationed(s)
    ensures Rationed(EmitStandaloneAck(s, now))
  {
    var e := EmitStandaloneAck(s, now);
    StandaloneAckFrame(s, now);
    forall pid: u32
      ensures Transmissions(Emitted(e), pid) <= Allowance(e, pid)
    {
      assert Transmissions(Emitted(s), pid) <= Allowance(s, pid);
      if e.outbound != s.outbound {
        ChannelStep(s, e, StandaloneAck(s), pid);
      }
    }
  }

  lemma InboundRationed(s: State, p: Packet, now: int)
    requires LayerInv(s) && Rationed(s) && p.payload.msgPid < U32_LIMIT - 1
    ensures Rationed(HandleInbound(s, p, now))
  {
    var r := HandleInbound(s, p, now);
    InboundFrame(s, p, now);
    InboundQueue(s, p, now);
    forall pid: u32
      ensures Transmissions(Emitted(r), pid) <= Allowance(r, pid)
    {
      assert Transmissions(Emitted(s), pid) <= Allowance(s, pid);
    }
  }

  /** An inbound packet adds nothing to the send queue and changes nothing of an
      entry but its count of higher acks. */
  lemma InboundQueue(s: State, p: Packet, now: int)
    requires RxInv(s) && p.payload.msgPid < U32_LIMIT - 1
    ensures var r := HandleInbound(s, p, now);
      forall k :: k in r.txQueue ==>
        k in s.txQueue && r.txQueue[k] == s.txQueue[k].(higherAcks := r.txQueue[k].higherAcks)
  {
    if Admits(s, p) {
      var k := LockRemote(s, p);
      var a := k.(txQueue := AckAll(k.txQueue, InboundAcks(p)));
      AckAllKeeps(k.txQueue, InboundAcks(p));
      if p.opcode != P_ACK_V1 {
        ReceiveFrame(a, p.payload.msgPid, p.payload.body, now);
      }
    }
  }

  lemma SoftResetRationed(s: State, k: byte, now: int)
    requires LayerInv(s) && s.nextTx < U32_LIMIT - 1 && Rationed(s)
    ensures Rationed(SendSoftReset(s, k, now))
  {
    if !s.closed {
      var t := s.(keyId := k);
      ChannelStaysOk(s, t);
      assert Rationed(t) by {
        forall pid: u32
          ensures Transmissions(Emitted(t), pid) <= Allowance(t, pid)
        {
          assert Transmissions(Emitted(s), pid) <= Allowance(s, pid);
        }
      }
      EnqueueRationed(t, P_CONTROL_SOFT_RESET_V1, [], now);
      RationedFrame(Enqueue(t, P_CONTROL_SOFT_RESET_V1, [], now), SendSoftReset(s, k, now));
    }
  }

  lemma RationedFrame(s: State, s': State)
    requires Rationed(s) && Emitted(s') == Emitted(s) && s'.txQueue == s.txQueue && s'.issued == s.issued
    ensures Rationed(s')
  {
    forall pid: u32
      ensures Transmissions(Emitted(s'), pid) <= Allowance(s', pid)
    {
      assert Transmissions(Emitted(s), pid) <= Allowance(s, pid);
    }
  }

  lemma StepRationed(n: Node, e: Event)
    requires LayerInv(n.layer) && Enabled(n, e) && Rationed(n.layer)
    ensures Rationed(ApplyLayer(n, e))
  {
    var s := n.layer;
    match e
    case HardReset(op, now) =>
      if !s.closed && IsControl(op) {
        EnqueueRationed(s, op, [], now);
      }
    case SoftReset(k, now) =>
      SoftResetRationed(s, k, now);
    case Inbound(p, now) =>
      InboundRationed(s, p, now);
    case Timer(now, order) =>
      if !s.closed {
        TickLoopInv(s, now, order);
        TickLoopRationed(s, now, order);
        StandaloneAckRationed(TickLoop(s, now, order).state, now);
      }
    case ContinueWrite(i, now) =>
      if WillEnqueue(s, n.writers[i]) {
        EnqueueRationed(s, P_CONTROL_V1, NextChunk(n.writers[i]), now);
      }
    case PumpOne =>
      PumpInv(s);
      RationedFrame(s, Pump(s));
    case _ =>
      RationedFrame(s, ApplyLayer(n, e));
  }

  // --- runs of one layer ----------------------------------------------------------

  ghost predicate StepAt(states: seq<Node>, events: seq<Event>, i: nat)
    requires i < |events| && |states| == |events| + 1
  {
    Enabled(states[i], events[i]) && states[i + 1] == Apply(states[i], events[i])
  }

  /** A run of one layer from its creation, under any events at all. */
  ghost predicate IsLayerRun(states: seq<Node>, events: seq<Event>) {
    && |states| == |events| + 1
    && states[0] == Node(New(states[0].layer.localSid, states[0].layer.keyId, states[0].layer.capacity), [])
    && forall i :: 0 <= i < |events| ==> StepAt(states, events, i)
  }

  lemma {:induction false} LayerRunInv(states: seq<Node>, events: seq<Event>, i: nat)
    requires IsLayerRun(states, events) && i < |states|
    ensures LayerInv(states[i].layer) && Rationed(states[i].layer)
  {
    if i == 0 {
      var s := states[0].layer;
      NewInv(s.localSid, s.keyId, s.capacity);
    } else {
      LayerRunInv(states, events, i - 1);
      assert StepAt(states, events, i - 1);
      LayerStepInv(states[i - 1], events[i - 1]);
      StepRationed(states[i - 1], events[i - 1]);
    }
  }

  /** In every run, each message enters the outbound channel at most 8 times. */
  lemma AtMostEightTransmissions(states: seq<Node>, events: seq<Event>, i: nat, pid: u32)
    requires IsLayerRun(states, events) && i < |states|
    ensures Transmissions(Emitted(states[i].layer), pid) <= 8
  {
    LayerRunInv(states, events, i);
    assert Transmissions(Emitted(states[i].layer), pid) <= Allowance(states[i].layer, pid);
  }

  // --- time ---------------------------------------------------------------------

  /** The least time between the first and the a-th transmission by backoff. */
  function Waited(a: Attempts): int {
    if a == 1 then 0 else Waited(a - 1) + Backoff(a - 1)
  }

  lemma WaitedToTheEnd()
    ensures Waited(MAX_RETRANSMITS) + Backoff(MAX_RETRANSMITS) == 79 * SECOND
  {
    assert Shift(0) == 1 && Shift(1) == 2 && Shift(2) == 4 && Shift(3) == 8 && Shift(4) == 16;
    assert Waited(2) == SECOND && Waited(3) == 3 * SECOND && Waited(4) == 7 * SECOND;
    assert Waited(5) == 15 * SECOND && Waited(6) == 31 * SECOND && Waited(7) == 47 * SECOND;
  }

  /** The message has been on its current attempt for no shorter than backoff
      demands. */
  ghost predicate OnSchedule(s: State, pid: u32) {
    pid in s.txQueue && pid < |s.issued| ==>
      s.txQueue[pid].sentAt >= s.issued[pid].at + Waited(s.txQueue[pid].attempts)
  }

  predicate Fast(s: State, pid: u32) {
    pid in s.txQueue && s.txQueue[pid].higherAcks >= FAST_RETRANSMIT_THRESHOLD
  }

  /** Tick either leaves an entry alone or, when it is due, marks it resent. */
  ghost predicate LeftOrResent(p: Pending, p': Pending, now: int) {
    p' == p || (Due(p, now) && p' == p.(attempts := p.attempts + 1, sentAt := now, higherAcks := 0))
  }

  lemma EmitKeepsQueue(s: State, opcode: Opcode, pid: u32, body: seq<byte>, now: int)
    ensures Emit(s, opcode, pid, body, now).txQueue == s.txQueue
    ensures Emit(s, opcode, pid, body, now).issued == s.issued
  {
    var d := DrainAcks(s, MAX_ACKS_PER_PACKET);
    assert d.txQueue == s.txQueue && d.issued == s.issued;
    if |s.outbound| >= s.capacity {
      assert Emit(s, opcode, pid, body, now) == RestoreAcks(d, DrainedAcks(s, MAX_ACKS_PER_PACKET), now);
    }
  }

  lemma ResendQueue(s: State, pid: u32, now: int)
    requires pid in s.txQueue
    ensures var r := Resend(s, pid, now);
      && r.txQueue == s.txQueue[pid := s.txQueue[pid].(attempts := s.txQueue[pid].attempts + 1,
                                                       sentAt := now, higherAcks := 0)]
      && r.issued == s.issued
  {
    var p := s.txQueue[pid];
    EmitKeepsQueue(s, p.opcode, p.msgPid, p.body, now);
  }

  lemma {:induction false} TickLoopEntry(s: State, now: int, order: seq<u32>, pid: u32)
    requires pid in s.txQueue
    requires forall k :: k in order ==> k in s.txQueue
    requires NoDuplicates(order)
    ensures var t := TickLoop(s, now, order).state;
      && pid in t.txQueue && LeftOrResent(s.txQueue[pid], t.txQueue[pid], now)
      && (pid !in order ==> t.txQueue[pid] == s.txQueue[pid])
      && t.issued == s.issued
    decreases |order|
  {
    if order != [] {
      var p := s.txQueue[order[0]];
      assert order[0] !in order[1..];
      if !Due(p, now) {
        TickLoopEntry(s, now, order[1..], pid);
      } else if p.attempts < MAX_RETRANSMITS {
        ResendQueue(s, order[0], now);
        TickLoopEntry(Resend(s, order[0], now), now, order[1..], pid);
      }
    }
  }

  /** A Tick that gives up does so because of a packet that has used all its
      attempts and is due again. */
  lemma {:induction false} TickLoopCulprit(s: State, now: int, order: seq<u32>) returns (pid: u32)
    requires forall k :: k in order ==> k in s.txQueue
    requires NoDuplicates(order)
    requires TickLoop(s, now, order).error.Some?
    ensures pid in order && pid in s.txQueue
    ensures s.txQueue[pid].attempts >= MAX_RETRANSMITS && Due(s.txQueue[pid], now)
    decreases |order|
  {
    var p := s.txQueue[order[0]];
    assert order[0] !in order[1..];
    if !Due(p, now) {
      pid := TickLoopCulprit(s, now, order[1..]);
    } else if p.attempts >= MAX_RETRANSMITS {
      pid := order[0];
    } else {
      ResendQueue(s, order[0], now);
      pid := TickLoopCulprit(Resend(s, order[0], now), now, order[1..]);
    }
  }

  lemma StepOnSchedule(n: Node, e: Event, pid: u32)
    requires LayerInv(n.layer) && Enabled(n, e)
    requires OnSchedule(n.layer, pid) && !Fast(n.layer, pid)
    ensures OnSchedule(ApplyLayer(n, e), pid)
  {
    var s := n.layer;
    match e
    case HardReset(op, now) =>
      if !s.closed && IsControl(op) {
        EnqueueOnSchedule(s, op, [], now, pid);
      }
    case SoftReset(k, now) =>
      if !s.closed {
        ChannelStaysOk(s, s.(keyId := k));
        EnqueueOnSchedule(s.(keyId := k), P_CONTROL_SOFT_RESET_V1, [], now, pid);
      }
    case Inbound(p, now) =>
      InboundOnSchedule(s, p, now, pid);
    case Timer(now, order) =>
      TickOnSchedule(s, now, order, pid);
    case ContinueWrite(i, now) =>
      if WillEnqueue(s, n.writers[i]) {
        EnqueueOnSchedule(s, P_CONTROL_V1, NextChunk(n.writers[i]), now, pid);
      }
    case _ =>
  }

  lemma EnqueueOnSchedule(s: State, opcode: Opcode, body: seq<byte>, now: int, pid: u32)
    requires LayerInv(s) && s.nextTx < U32_LIMIT - 1 && IsControl(opcode) && OnSchedule(s, pid)
    ensures OnSchedule(Enqueue(s, opcode, body, now), pid)
  {
    EnqueueInv(s, opcode, body, now);
  }

  lemma InboundOnSchedule(s: State, p: Packet, now: int, pid: u32)
    requires RxInv(s) && p.payload.msgPid < U32_LIMIT - 1 && OnSchedule(s, pid)
    ensures OnSchedule(HandleInbound(s, p, now), pid)
  {
    InboundFrame(s, p, now);
    InboundQueue(s, p, now);
  }

  lemma TickOnSchedule(s: State, now: int, order: seq<u32>, pid: u32)
    requires IsOrder(s.txQueue, order)
    requires OnSchedule(s, pid) && !Fast(s, pid)
    ensures OnSchedule(Tick(s, now, order).state, pid)
  {
    if !s.closed {
      var t := TickLoop(s, now, order).state;
      TickLoopKeys(s, now, order);
      if pid in s.txQueue {
        TickLoopEntry(s, now, order, pid);
      }
    }
  }

  lemma {:induction false} TickLoopKeys(s: State, now: int, order: seq<u32>)
    requires forall k :: k in order ==> k in s.txQueue
    ensures TickLoop(s, now, order).state.txQueue.Keys == s.txQueue.Keys
    decreases |order|
  {
    if order != [] {
      var p := s.txQueue[order[0]];
      if !Due(p, now) {
        TickLoopKeys(s, now, order[1..]);
      } else if p.attempts < MAX_RETRANSMITS {
        ResendQueue(s, order[0], now);
        TickLoopKeys(Resend(s, order[0], now), now, order[1..]);
      }
    }
  }

  lemma {:induction false} RunOnSchedule(states: seq<Node>, events: seq<Event>, i: nat, pid: u32)
    requires IsLayerRun(states, events) && i < |states|
    requires forall j :: 0 <= j < i ==> !Fast(states[j].layer, pid)
    ensures OnSchedule(states[i].layer, pid)
  {
    if i > 0 {
      RunOnSchedule(states, events, i - 1, pid);
      LayerRunInv(states, events, i - 1);
      assert StepAt(states, events, i - 1);
      StepOnSchedule(states[i - 1], events[i - 1], pid);
    }
  }

  /** Tick gives up only over a message that either reached the fast-retransmit
      threshold at some time, or was first sent at least 79 seconds ago. */
  lemma NoEarlySurrender(states: seq<Node>, events: seq<Event>, now: int, order: seq<u32>)
    requires IsLayerRun(states, events)
    requires IsOrder(states[|events|].layer.txQueue, order)
    requires Tick(states[|events|].layer, now, order).error == Some(TooManyRetransmits)
    ensures var s := states[|events|].layer;
      exists pid :: pid in s.txQueue && pid < |s.issued| && s.txQueue[pid].attempts == MAX_RETRANSMITS
        && ((exists j :: 0 <= j < |states| && Fast(states[j].layer, pid))
            || now - s.issued[pid].at >= 79 * SECOND)
  {
    var s := states[|events|].layer;
    LayerRunInv(states, events, |events|);
    var pid := TickLoopCulprit(s, now, order);
    if forall j :: 0 <= j < |states| ==> !Fast(states[j].layer, pid) {
      RunOnSchedule(states, events, |events|, pid);
      WaitedToTheEnd();
      assert now - s.issued[pid].at >= 79 * SECOND;
    }
  }
}
