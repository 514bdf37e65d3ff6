/** Two layers joined by a network that loses, duplicates, reorders and delays
    packets at will: a packet one pump has taken off its channel may reach the
    other side at any later time, any number of times, or never. */
module ReliableNetwork {
  import opened Bytes
  import opened Proto
  import opened Reliable
  import opened ReliableInvariants
  import opened ReliableNode

  /** What the receiving session makes of an emitted packet: header byte packed
      and unpacked, payload marshalled and parsed.  A standalone ack without acks
      cannot be marshalled, so it never arrives. */
  ghost predicate Wire(out: Packet, arrived: Packet) {
    && arrived.opcode == UnpackOpcode(PackOpcodeKid(out.opcode, out.keyId))
    && arrived.keyId == UnpackKid(PackOpcodeKid(out.opcode, out.keyId))
    && arrived.sessionId == out.sessionId
    && if out.opcode == P_ACK_V1
       then && 0 < |out.ack.acks| <= MAX_ACKS && |arrived.ack.acks| <= MAX_ACKS
            && AckPayloadBytes(arrived.ack) == AckPayloadBytes(out.ack)
            && arrived.payload == NO_PAYLOAD
       else && |out.payload.acks| <= MAX_ACKS && |arrived.payload.acks| <= MAX_ACKS
            && ControlBytes(arrived.payload) == ControlBytes(out.payload)
            && arrived.payload == Canonical(arrived.payload)
            && arrived.ack == NO_ACK
  }

  /** The wire keeps the acks, the packet-id and the body of a packet. */
  lemma WireFaithful(s: State, out: Packet, arrived: Packet)
    requires TxInv(s) && PacketOk(s, out) && Wire(out, arrived)
    ensures arrived.opcode == out.opcode
    ensures InboundAcks(arrived) == InboundAcks(out)
    ensures arrived.opcode != P_ACK_V1 ==>
      arrived.payload.msgPid == out.payload.msgPid && arrived.payload.body == out.payload.body
      && out.payload.msgPid < |s.issued| && out.payload.body == s.issued[out.payload.msgPid].body
    ensures arrived.payload.msgPid < U32_LIMIT - 1
  {
    assert IsControl(out.opcode);
    OpcodeRoundTrip(out.opcode, out.keyId);
    if out.opcode == P_ACK_V1 {
      AckPayloadBytesInjective(arrived.ack, out.ack);
    } else {
      ControlBytesInjective(arrived.payload, out.payload);
    }
  }

  /** Bodies of the first n messages: the byte stream they carry. */
  function ByteStream(issued: seq<Issue>, n: nat): seq<byte>
    requires n <= |issued|
  {
    if n == 0 then [] else ByteStream(issued, n - 1) + issued[n - 1].body
  }

  lemma {:induction false} ByteStreamStable(issued: seq<Issue>, issued': seq<Issue>, n: nat)
    requires issued <= issued' && n <= |issued|
    ensures ByteStream(issued', n) == ByteStream(issued, n)
  {
    if n > 0 {
      ByteStreamStable(issued, issued', n - 1);
    }
  }

  lemma {:induction false} ByteStreamPrefix(issued: seq<Issue>, m: nat, n: nat)
    requires m <= n <= |issued|
    ensures ByteStream(issued, m) <= ByteStream(issued, n)
  {
    if m < n {
      ByteStreamPrefix(issued, m, n - 1);
    }
  }

  /** What the receiver holds agrees with what the sender issued. */
  ghost predicate Agrees(snd: State, rcv: State) {
    && rcv.nextRx <= |snd.issued|
    && Delivered(rcv) == ByteStream(snd.issued, rcv.nextRx)
    && (forall k :: k in rcv.rxBuffer ==> k < |snd.issued| && rcv.rxBuffer[k] == snd.issued[k].body)
  }

  /** Every message issued is still queued for sending or has been received. */
  ghost predicate Accounted(snd: State, rcv: State) {
    forall k: u32 :: k < |snd.issued| ==> k in snd.txQueue || Received(rcv, k)
  }

  ghost predicate InSync(snd: State, rcv: State) {
    Agrees(snd, rcv) && Accounted(snd, rcv)
  }

  datatype System = System(a: Node, b: Node)

  function Side(sys: System, left: bool): Node {
    if left then sys.a else sys.b
  }

  /** The peer's packet an inbound event stems from. */
  ghost predicate Deliverable(e: Event, peer: State) {
    e.Inbound? ==> exists out :: out in peer.taken && Wire(out, e.packet)
  }

  ghost predicate Init(sys: System) {
    && sys.a == Node(New(sys.a.layer.localSid, sys.a.layer.keyId, sys.a.layer.capacity), [])
    && sys.b == Node(New(sys.b.layer.localSid, sys.b.layer.keyId, sys.b.layer.capacity), [])
  }

  ghost predicate StepOfA(sys: System, sys': System, e: Event) {
    Enabled(sys.a, e) && Deliverable(e, sys.b.layer) && sys' == System(Apply(sys.a, e), sys.b)
  }

  ghost predicate StepOfB(sys: System, sys': System, e: Event) {
    Enabled(sys.b, e) && Deliverable(e, sys.a.layer) && sys' == System(sys.a, Apply(sys.b, e))
  }

  ghost predicate Step(sys: System, sys': System) {
    exists e :: StepOfA(sys, sys', e) || StepOfB(sys, sys', e)
  }

  ghost predicate StepInto(run: seq<System>, i: nat)
    requires 0 < i < |run|
  {
    Step(run[i - 1], run[i])
  }

  ghost predicate IsRun(run: seq<System>) {
    && |run| > 0
    && Init(run[0])
    && forall i :: 0 < i < |run| ==> StepInto(run, i)
  }

  ghost predicate SystemInv(sys: System) {
    && NodeInv(sys.a) && NodeInv(sys.b)
    && InSync(sys.a.layer, sys.b.layer)
    && InSync(sys.b.layer, sys.a.layer)
  }

  // --- receiving keeps step with the sender ------------------------------------

  lemma {:induction false} ChainAgrees(snd: State, s: State)
    requires ChainReady(s) && Agrees(snd, s)
    ensures Agrees(snd, DeliverChain(s))
    decreases |s.rxBuffer|
  {
    if s.nextRx in s.rxBuffer {
      RemoveShrinks(s.rxBuffer, s.nextRx);
      var t := DeliverNext(s);
      assert t.nextRx == s.nextRx + 1;
      assert Delivered(t) == Delivered(s) + snd.issued[s.nextRx].body;
      ChainAgrees(snd, t);
    }
  }

  lemma AbsorbAgrees(snd: State, s: State, pid: u32, body: seq<byte>)
    requires RxInv(s) && Agrees(snd, s) && |snd.issued| < U32_LIMIT
    requires pid < |snd.issued| && body == snd.issued[pid].body
    ensures Agrees(snd, Absorbed(s, pid, body))
  {
    if pid == s.nextRx {
      var t := s.(readBuf := s.readBuf + body, nextRx := Inc32(s.nextRx));
      assert t.nextRx == s.nextRx + 1;
      assert Delivered(t) == Delivered(s) + body;
      ChainAgrees(snd, t);
    }
  }

  lemma InboundAgrees(snd: State, s: State, p: Packet, now: int)
    requires RxInv(s) && Agrees(snd, s) && |snd.issued| < U32_LIMIT
    requires p.opcode != P_ACK_V1 ==>
      p.payload.msgPid < |snd.issued| && p.payload.body == snd.issued[p.payload.msgPid].body
    ensures Agrees(snd, HandleInbound(s, p, now))
  {
    if Admits(s, p) && p.opcode != P_ACK_V1 {
      var k := LockRemote(s, p);
      var a := k.(txQueue := AckAll(k.txQueue, InboundAcks(p)));
      AbsorbAgrees(snd, a, p.payload.msgPid, p.payload.body);
    }
  }

  /** A step of the receiving side keeps it in step with the sender. */
  lemma ReceiverStep(snd: State, n: Node, e: Event)
    requires LayerInv(snd) && LayerInv(n.layer) && InSync(snd, n.layer)
    requires Enabled(n, e) && Deliverable(e, snd)
    ensures InSync(snd, ApplyLayer(n, e))
  {
    LayerStepInv(n, e);
    if e.Inbound? {
      var out :| out in snd.taken && Wire(out, e.packet);
      WireFaithful(snd, out, e.packet);
      InboundAgrees(snd, n.layer, e.packet, e.now);
    } else {
      QuietStep(n, e);
    }
  }

  /** A step of the sending side loses nothing: an ack takes a message off the
      queue only after the receiver has it. */
  lemma SenderStep(n: Node, rcv: State, e: Event)
    requires LayerInv(n.layer) && LayerInv(rcv) && InSync(n.layer, rcv)
    requires Enabled(n, e) && Deliverable(e, rcv)
    ensures InSync(ApplyLayer(n, e), rcv)
  {
    var s, s' := n.layer, ApplyLayer(n, e);
    LayerStepInv(n, e);
    ByteStreamStable(s.issued, s'.issued, rcv.nextRx);
    if e.Inbound? {
      var out :| out in rcv.taken && Wire(out, e.packet);
      WireFaithful(rcv, out, e.packet);
      assert forall k :: k in InboundAcks(out) ==> Received(rcv, k);
      InboundFrame(s, e.packet, e.now);
    } else {
      QuietStep(n, e);
    }
  }

  lemma StepKeepsInv(sys: System, sys': System)
    requires SystemInv(sys) && Step(sys, sys')
    ensures SystemInv(sys')
  {
    var e :| StepOfA(sys, sys', e) || StepOfB(sys, sys', e);
    if StepOfA(sys, sys', e) {
      NodeStepInv(sys.a, e);
      ReceiverStep(sys.b.layer, sys.a, e);
      SenderStep(sys.a, sys.b.layer, e);
    } else {
      NodeStepInv(sys.b, e);
      ReceiverStep(sys.a.layer, sys.b, e);
      SenderStep(sys.b, sys.a.layer, e);
    }
  }

  lemma InitInv(sys: System)
    requires Init(sys)
    ensures SystemInv(sys)
  {
    var a, b := sys.a.layer, sys.b.layer;
    NewInv(a.localSid, a.keyId, a.capacity);
    NewInv(b.localSid, b.keyId, b.capacity);
  }

  lemma {:induction false} RunInv(run: seq<System>, i: nat)
    requires IsRun(run) && i < |run|
    ensures SystemInv(run[i])
  {
    if i == 0 {
      InitInv(run[0]);
    } else {
      RunInv(run, i - 1);
      assert StepInto(run, i);
      StepKeepsInv(run[i - 1], run[i]);
    }
  }

  // --- the guarantees -----------------------------------------------------------

  /** Exactly once and in order: at every moment of every run, the bytes handed
      to one side's reader are a prefix of the bytes the other side sent. */
  lemma ExactlyOnceInOrder(run: seq<System>, i: nat)
    requires IsRun(run) && i < |run|
    ensures var a, b := run[i].a.layer, run[i].b.layer;
      && Delivered(b) <= ByteStream(a.issued, |a.issued|)
      && Delivered(a) <= ByteStream(b.issued, |b.issued|)
  {
    RunInv(run, i);
    var a, b := run[i].a.layer, run[i].b.layer;
    ByteStreamPrefix(a.issued, b.nextRx, |a.issued|);
    ByteStreamPrefix(b.issued, a.nextRx, |b.issued|);
  }

  /** All the acks a layer is about to send or ever sent. */
  ghost predicate AcksAreTrue(s: State) {
    && (forall k :: k in s.pendingAcks ==> Received(s, k))
    && (forall p, k :: p in Emitted(s) && (k in p.payload.acks || k in p.ack.acks) ==> Received(s, k))
  }

  lemma ChannelAcksAreTrue(s: State)
    requires AckInv(s) && ChannelInv(s)
    ensures AcksAreTrue(s)
  {
    forall p, k | p in Emitted(s) && (k in p.payload.acks || k in p.ack.acks)
      ensures Received(s, k)
    {
      assert PacketOk(s, p);
    }
  }

  /** Acks never lie and nothing is lost, at every moment of every run. */
  lemma NothingIsLost(run: seq<System>, i: nat)
    requires IsRun(run) && i < |run|
    ensures var a, b := run[i].a.layer, run[i].b.layer;
      AcksAreTrue(a) && AcksAreTrue(b) && Accounted(a, b) && Accounted(b, a)
  {
    RunInv(run, i);
    ChannelAcksAreTrue(run[i].a.layer);
    ChannelAcksAreTrue(run[i].b.layer);
  }

  /** A sender with nothing left to resend has had everything delivered. */
  lemma QuietMeansDelivered(run: seq<System>, i: nat, left: bool)
    requires IsRun(run) && i < |run| && Side(run[i], left).layer.txQueue == map[]
    ensures var snd, rcv := Side(run[i], left).layer, Side(run[i], !left).layer;
      rcv.nextRx == snd.nextTx && Delivered(rcv) == ByteStream(snd.issued, |snd.issued|)
  {
    RunInv(run, i);
    var rcv := Side(run[i], !left).layer;
    assert !Received(rcv, rcv.nextRx);
  }

  lemma {:induction false} IntervalSize(lo: int, hi: int, s: set<int>)
    requires lo <= hi
    requires forall k :: lo <= k < hi ==> k in s
    ensures hi - lo <= |s|
    decreases hi - lo
  {
    if lo < hi {
      IntervalSize(lo, hi - 1, s - {hi - 1});
      assert s == (s - {hi - 1}) + {hi - 1};
    }
  }

  lemma FlightBound(snd: State, rcv: State)
    requires LayerInv(snd) && LayerInv(rcv) && InSync(snd, rcv)
    ensures snd.nextTx <= rcv.nextRx + MAX_RX_BUFFER + MAX_QUEUE_SIZE - 1
  {
    var edge := rcv.nextRx + MAX_RX_BUFFER;
    if snd.nextTx > edge {
      var far: set<int> := snd.txQueue.Keys - {rcv.nextRx};
      assert rcv.nextRx in snd.txQueue;
      forall k | edge <= k < snd.nextTx
        ensures k in far
      {
        assert !Received(rcv, k);
      }
      IntervalSize(edge, snd.nextTx, far);
      assert snd.txQueue.Keys == far + {rcv.nextRx};
      assert |snd.txQueue.Keys| == |far| + 1;
      assert |snd.txQueue.Keys| == |snd.txQueue|;
    }
  }

  /** The 12-entry queue and the 64-wide window bound the flight: a sender is
      never more than 75 messages ahead of its peer, and the reorder buffer holds
      at most 63 bodies, never the next one due. */
  lemma WindowsAreBounded(run: seq<System>, i: nat)
    requires IsRun(run) && i < |run|
    ensures var a, b := run[i].a.layer, run[i].b.layer;
      && a.nextTx <= b.nextRx + 75 && b.nextTx <= a.nextRx + 75
      && |a.rxBuffer| <= 63 && |b.rxBuffer| <= 63
      && a.nextRx !in a.rxBuffer && b.nextRx !in b.rxBuffer
      && |a.txQueue| <= 12 && |b.txQueue| <= 12
  {
    RunInv(run, i);
    var a, b := run[i].a.layer, run[i].b.layer;
    FlightBound(a, b);
    FlightBound(b, a);
    RxBufferBound(a);
    RxBufferBound(b);
  }

  /** Ack bookkeeping of every reachable layer, and what its packets carry. */
  lemma AckBookkeeping(run: seq<System>, i: nat, left: bool)
    requires IsRun(run) && i < |run|
    ensures var s := Side(run[i], left).layer;
      && NoDuplicates(s.pendingAcks) && s.pendingAckSet == ToSet(s.pendingAcks)
      && (s.ackSince.Some? <==> s.pendingAcks != [])
      && forall p :: p in Emitted(s) ==>
           && |p.payload.acks| <= 8 && |p.ack.acks| <= 8
           && (p.payload.acks != [] ==> s.remoteKnown && p.payload.remoteSid == s.remoteSid)
           && (p.ack.acks != [] ==> s.remoteKnown && p.ack.remoteSid == s.remoteSid)
  {
    RunInv(run, i);
    var s := Side(run[i], left).layer;
    assert forall p :: p in Emitted(s) ==> PacketOk(s, p);
  }

  /** Write, for every call in every run: the packets it enqueued, in ascending
      order, are the pieces of 1200 bytes of its input, the last perhaps shorter,
      none before the peer was known; it reports exactly their bytes, all of the
      input unless the layer was closed meanwhile, and never a full queue. */
  lemma WritesAreFaithful(run: seq<System>, i: nat, left: bool, j: nat)
    requires IsRun(run) && i < |run| && j < |Side(run[i], left).writers|
    ensures var s, w := Side(run[i], left).layer, Side(run[i], left).writers[j];
      && (forall k :: 0 <= k < |w.pids| ==>
            && w.pids[k] < |s.issued| && s.issued[w.pids[k]].opcode == 4
            && 1200 * k < |w.input|
            && s.issued[w.pids[k]].body == w.input[1200 * k..Min(1200 * (k + 1), |w.input|)])
      && (forall k, l :: 0 <= k < l < |w.pids| ==> w.pids[k] < w.pids[l])
      && (w.pids != [] ==> s.remoteKnown)
      && w.written == Min(1200 * |w.pids|, |w.input|) && Bodies(s.issued, w.pids) == w.input[..w.written]
      && (w.phase.Returned? ==> w.phase.n == w.written && w.phase.error != Some(QueueFull))
      && (w.phase.Returned? && w.written < |w.input| ==> w.phase.error.Some? || s.closed)
      && (w.phase.Returned? && w.phase.error.Some? ==> w.written == 0)
  {
    RunInv(run, i);
  }

  /** Once a side is closed it stays closed and silent for the rest of the run:
      what it has put on its outbound channel and what it has enqueued are final. */
  lemma {:induction false} SilentAfterClose(run: seq<System>, i: nat, j: nat, left: bool)
    requires IsRun(run) && i <= j < |run| && Side(run[i], left).layer.closed
    ensures var was, now := Side(run[i], left).layer, Side(run[j], left).layer;
      now.closed && Emitted(now) == Emitted(was) && now.issued == was.issued
    decreases j
  {
    if i < j {
      SilentAfterClose(run, i, j - 1, left);
      LayerInvAt(run, j - 1, left);
      assert StepInto(run, j);
      SilentStep(run[j - 1], run[j], left);
    }
  }

  lemma LayerInvAt(run: seq<System>, i: nat, left: bool)
    requires IsRun(run) && i < |run|
    ensures LayerInv(Side(run[i], left).layer)
  {
    RunInv(run, i);
  }

  lemma SilentStep(sys: System, sys': System, left: bool)
    requires Step(sys, sys') && LayerInv(Side(sys, left).layer) && Side(sys, left).layer.closed
    ensures var was, now := Side(sys, left).layer, Side(sys', left).layer;
      now.closed && Emitted(now) == Emitted(was) && now.issued == was.issued
  {
    var e :| StepOfA(sys, sys', e) || StepOfB(sys, sys', e);
    if StepOfA(sys, sys', e) && left {
      ClosedIsSilent(sys.a, e);
    } else if !StepOfA(sys, sys', e) && !left {
      ClosedIsSilent(sys.b, e);
    }
  }
}
