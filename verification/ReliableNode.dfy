/** A layer together with the Write calls running on it, driven by events in any
    order.  Each event is one section of code under the layer's mutex; Write is
    cut at the points where it waits. */
module ReliableNode {
  import opened Bytes
  import opened Proto
  import opened Reliable
  import opened ReliableInvariants

  datatype Node = Node(layer: State, writers: seq<Writer>)

  datatype Event =
    | HardReset(opcode: Opcode, now: int)
    | SoftReset(keyId: byte, now: int)
    | Inbound(packet: Packet, now: int)
    | Timer(now: int, order: seq<u32>)
    | ReadBytes(max: nat)
    | BeginWrite(input: seq<byte>)
    | ContinueWrite(writer: nat, now: int)
    | EndRead(cause: Option<nat>)
    | Shut
    | PumpOne
    | UseKeyId(keyId: byte)
    | PreSeedRemote(sid: u64)

  /** When an event can happen.  The counters stay below 2^32; a layer is told
      its peer's session-id only while it does not know it. */
  ghost predicate Enabled(n: Node, e: Event) {
    match e
    case HardReset(_, _) => n.layer.nextTx < U32_LIMIT - 1
    case SoftReset(_, _) => n.layer.nextTx < U32_LIMIT - 1
    case ContinueWrite(i, _) => n.layer.nextTx < U32_LIMIT - 1 && i < |n.writers|
    case Inbound(p, _) => p.payload.msgPid < U32_LIMIT - 1
    case Timer(_, order) => IsOrder(n.layer.txQueue, order)
    case ReadBytes(_) => ReadReady(n.layer)
    case PreSeedRemote(_) => !n.layer.remoteKnown
    case _ => true
  }

  ghost function ApplyLayer(n: Node, e: Event): State
    requires Enabled(n, e)
  {
    var s := n.layer;
    match e
    case HardReset(op, now) => SendHardReset(s, op, now)
    case SoftReset(k, now) => SendSoftReset(s, k, now)
    case Inbound(p, now) => HandleInbound(s, p, now)
    case Timer(now, order) => Tick(s, now, order).state
    case ReadBytes(max) => Read(s, max)
    case BeginWrite(_) => s
    case ContinueWrite(i, now) => WriteLayer(s, n.writers[i], now)
    case EndRead(cause) => CloseRead(s, if cause.Some? then Some(Cause(cause.value)) else None)
    case Shut => Close(s)
    case PumpOne => Pump(s)
    case UseKeyId(k) => SetKeyId(s, k)
    case PreSeedRemote(sid) => SetRemoteSessionId(s, sid)
  }

  ghost function Apply(n: Node, e: Event): Node
    requires Enabled(n, e)
  {
    Node(ApplyLayer(n, e),
         match e
         case BeginWrite(input) => n.writers + [StartWrite(input)]
         case ContinueWrite(i, _) => n.writers[i := WriteWriter(n.layer, n.writers[i])]
         case _ => n.writers)
  }

  // --- the layer under any event -----------------------------------------------

  lemma LayerStepInv(n: Node, e: Event)
    requires LayerInv(n.layer) && Enabled(n, e)
    ensures LayerInv(ApplyLayer(n, e)) && Later(n.layer, ApplyLayer(n, e))
  {
    var s := n.layer;
    match e
    case HardReset(op, now) =>
      if !s.closed && IsControl(op) {
        EnqueueInv(s, op, [], now);
      }
    case SoftReset(k, now) =>
      SoftResetInv(s, k, now);
    case Inbound(p, now) =>
      HandleInboundInv(s, p, now);
    case Timer(now, order) =>
      TickInv(s, now, order);
    case ContinueWrite(i, now) =>
      if WillEnqueue(s, n.writers[i]) {
        EnqueueInv(s, P_CONTROL_V1, NextChunk(n.writers[i]), now);
      }
    case PumpOne =>
      PumpInv(s);
    case _ =>
      SmallEventInv(n, e);
  }

  /** Events that move no packet. */
  lemma SmallEventInv(n: Node, e: Event)
    requires LayerInv(n.layer) && Enabled(n, e)
    requires e.ReadBytes? || e.BeginWrite? || e.EndRead? || e.Shut? || e.UseKeyId? || e.PreSeedRemote?
    ensures LayerInv(ApplyLayer(n, e)) && Later(n.layer, ApplyLayer(n, e))
  {
    ChannelStaysOk(n.layer, ApplyLayer(n, e));
  }

  lemma SoftResetInv(s: State, k: byte, now: int)
    requires LayerInv(s) && s.nextTx < U32_LIMIT - 1
    ensures LayerInv(SendSoftReset(s, k, now)) && Later(s, SendSoftReset(s, k, now))
  {
    if !s.closed {
      var t := s.(keyId := k);
      ChannelStaysOk(s, t);
      EnqueueInv(t, P_CONTROL_SOFT_RESET_V1, [], now);
      ChannelStaysOk(Enqueue(t, P_CONTROL_SOFT_RESET_V1, [], now), SendSoftReset(s, k, now));
    }
  }

  lemma PumpInv(s: State)
    requires LayerInv(s)
    ensures LayerInv(Pump(s)) && Later(s, Pump(s))
    ensures Emitted(Pump(s)) == Emitted(s)
  {
    if s.outbound != [] {
      var s' := Pump(s);
      assert s.outbound == [s.outbound[0]] + s.outbound[1..];
      forall p | p in s'.taken || p in s'.outbound
        ensures PacketOk(s', p)
      {
        assert p in s.taken || p in s.outbound;
        PacketStaysOk(s, s', p);
      }
    }
  }

  /** Once closed, a layer never sends on its outbound channel again. */
  lemma ClosedIsSilent(n: Node, e: Event)
    requires LayerInv(n.layer) && Enabled(n, e) && n.layer.closed
    ensures ApplyLayer(n, e).closed
    ensures Emitted(ApplyLayer(n, e)) == Emitted(n.layer)
    ensures ApplyLayer(n, e).issued == n.layer.issued
  {
    if e.PumpOne? {
      PumpInv(n.layer);
    }
  }

  // --- the writers ----------------------------------------------------------------

  /** The bodies of the given messages, one after the other. */
  function Bodies(issued: seq<Issue>, pids: seq<u32>): seq<byte>
    requires forall i :: 0 <= i < |pids| ==> pids[i] < |issued|
  {
    if pids == [] then []
    else Bodies(issued, pids[..|pids| - 1]) + issued[pids[|pids| - 1]].body
  }

  /** The i-th piece of 1200 bytes of an input; the last one may be shorter. */
  function Piece(input: seq<byte>, i: nat): seq<byte>
    requires 1200 * i < |input|
  {
    input[1200 * i..Min(1200 * (i + 1), |input|)]
  }

  /** What a Write call has done so far: its packets are the first pieces of the
      input, sent since the peer was known, and the bytes reported written are
      those of these pieces. */
  ghost predicate WriterInv(s: State, w: Writer) {
    && w.written == Min(1200 * |w.pids|, |w.input|)
    && (forall i :: 0 <= i < |w.pids| ==>
          && w.pids[i] < |s.issued|
          && s.issued[w.pids[i]].opcode == P_CONTROL_V1
          && 1200 * i < |w.input| && s.issued[w.pids[i]].body == Piece(w.input, i))
    && (w.pids != [] ==> s.remoteKnown)
    && (w.phase.Running? ==> s.remoteKnown || s.closed)
    && (forall i, j :: 0 <= i < j < |w.pids| ==> w.pids[i] < w.pids[j])
    && Bodies(s.issued, w.pids) == w.input[..w.written]
    && (w.phase.AwaitRemote? ==> w.pids == [] && w.written == 0)
    && (w.phase.Returned? ==>
          w.phase.n == w.written && w.phase.error != Some(QueueFull)
          && (w.phase.error.Some? ==> w.written == 0)
          && (w.phase.error == None && w.written < |w.input| ==> s.closed && w.written > 0))
    && (s.readErr != Some(QueueFull))
  }

  lemma {:induction false} BodiesStable(issued: seq<Issue>, issued': seq<Issue>, pids: seq<u32>)
    requires issued <= issued'
    requires forall i :: 0 <= i < |pids| ==> pids[i] < |issued|
    ensures Bodies(issued', pids) == Bodies(issued, pids)
  {
    if pids != [] {
      BodiesStable(issued, issued', pids[..|pids| - 1]);
    }
  }

  lemma WriterStable(s: State, s': State, w: Writer)
    requires WriterInv(s, w) && s.issued <= s'.issued && s'.readErr != Some(QueueFull)
    requires (s.closed ==> s'.closed) && (s.remoteKnown ==> s'.remoteKnown)
    ensures WriterInv(s', w)
  {
    BodiesStable(s.issued, s'.issued, w.pids);
  }

  lemma BodiesSnoc(issued: seq<Issue>, pids: seq<u32>, k: u32)
    requires forall i :: 0 <= i < |pids| ==> pids[i] < |issued|
    requires k < |issued|
    ensures Bodies(issued, pids + [k]) == Bodies(issued, pids) + issued[k].body
  {
    assert (pids + [k])[..|pids|] == pids;
  }

  /** One more chunk extends the part of the input written. */
  lemma ChunkExtends(w: Writer)
    requires w.written == 1200 * |w.pids| < |w.input|
    ensures NextChunk(w) == Piece(w.input, |w.pids|)
    ensures w.written + |NextChunk(w)| <= |w.input|
    ensures w.input[..w.written + |NextChunk(w)|] == w.input[..w.written] + NextChunk(w)
  {
  }

  /** A writer with one more packet, the newest message, whose body is its next
      chunk. */
  lemma WriterExtends(q: State, w: Writer, w': Writer, k: u32, chunk: seq<byte>)
    requires WriterInv(q, w) && w.phase.Running? && q.remoteKnown && w.written < |w.input|
    requires chunk == Piece(w.input, |w.pids|)
    requires forall i :: 0 <= i < |w.pids| ==> w.pids[i] < k
    requires k < |q.issued| && q.issued[k].opcode == P_CONTROL_V1 && q.issued[k].body == chunk
    requires w' == w.(written := w.written + |chunk|, pids := w.pids + [k])
    requires w'.written <= |w.input| && w.input[..w'.written] == w.input[..w.written] + chunk
    ensures WriterInv(q, w')
  {
    BodiesSnoc(q.issued, w.pids, k);
    PieceCounts(w.input, |w.pids|);
    assert w'.written == Min(1200 * |w'.pids|, |w.input|);
    PiecesExtend(q.issued, w, w', k);
  }

  /** The pieces before stay where they are, and the new one is behind them. */
  lemma PiecesExtend(issued: seq<Issue>, w: Writer, w': Writer, k: u32)
    requires w'.input == w.input && w'.pids == w.pids + [k]
    requires forall i :: 0 <= i < |w.pids| ==>
      && w.pids[i] < |issued| && issued[w.pids[i]].opcode == P_CONTROL_V1
      && 1200 * i < |w.input| && issued[w.pids[i]].body == Piece(w.input, i)
    requires k < |issued| && issued[k].opcode == P_CONTROL_V1
    requires 1200 * |w.pids| < |w.input| && issued[k].body == Piece(w.input, |w.pids|)
    ensures forall i :: 0 <= i < |w'.pids| ==>
      && w'.pids[i] < |issued| && issued[w'.pids[i]].opcode == P_CONTROL_V1
      && 1200 * i < |w'.input| && issued[w'.pids[i]].body == Piece(w'.input, i)
  {
    forall i | 0 <= i < |w'.pids|
      ensures w'.pids[i] < |issued| && issued[w'.pids[i]].opcode == P_CONTROL_V1
      ensures 1200 * i < |w'.input| && issued[w'.pids[i]].body == Piece(w'.input, i)
    {
      if i < |w.pids| {
        assert w'.pids[i] == w.pids[i];
      }
    }
  }

  lemma PieceCounts(input: seq<byte>, n: nat)
    requires 1200 * n < |input|
    ensures Min(1200 * n, |input|) == 1200 * n
    ensures 1200 * n + |Piece(input, n)| == Min(1200 * (n + 1), |input|)
  {
  }

  lemma WriterEnqueues(s: State, w: Writer, now: int)
    requires |s.issued| == s.nextTx && WriterInv(s, w) && WillEnqueue(s, w)
    requires s.nextTx < U32_LIMIT - 1
    ensures WriterInv(Queued(s, P_CONTROL_V1, NextChunk(w), now), WriteWriter(s, w))
  {
    var q := Queued(s, P_CONTROL_V1, NextChunk(w), now);
    WriterStable(s, q, w);
    ChunkExtends(w);
    WriterExtends(q, w, WriteWriter(s, w), s.nextTx, NextChunk(w));
  }

  ghost predicate NodeInv(n: Node) {
    && LayerInv(n.layer)
    && n.layer.readErr != Some(QueueFull)
    && forall i :: 0 <= i < |n.writers| ==> WriterInv(n.layer, n.writers[i])
  }

  lemma WriterStepInv(n: Node, i: nat, now: int)
    requires NodeInv(n) && Enabled(n, ContinueWrite(i, now))
    ensures WriterInv(WriteLayer(n.layer, n.writers[i], now), WriteWriter(n.layer, n.writers[i]))
  {
    var s, w := n.layer, n.writers[i];
    if WillEnqueue(s, w) {
      EnqueueInv(s, P_CONTROL_V1, NextChunk(w), now);
      WriterEnqueues(s, w, now);
      WriterStable(Queued(s, P_CONTROL_V1, NextChunk(w), now), WriteLayer(s, w, now), WriteWriter(s, w));
    }
  }

  /** What an event that brings no packet leaves alone: the receive side, and
      the messages already queued.  A new message enters the queue. */
  ghost predicate Quiet(s: State, s': State) {
    && s'.nextRx == s.nextRx && s'.rxBuffer == s.rxBuffer && Delivered(s') == Delivered(s)
    && (forall k :: k in s.txQueue ==> k in s'.txQueue)
    && (forall k: u32 :: |s.issued| <= k < |s'.issued| ==> k in s'.txQueue)
    && (s.closed ==> s'.closed)
    && (s'.readErr == Some(QueueFull) ==> s.readErr == Some(QueueFull))
  }

  lemma EnqueueQuiet(s: State, opcode: Opcode, body: seq<byte>, now: int)
    requires LayerInv(s) && s.nextTx < U32_LIMIT - 1 && IsControl(opcode)
    ensures Quiet(s, Enqueue(s, opcode, body, now))
  {
    EnqueueInv(s, opcode, body, now);
  }

  lemma SoftResetQuiet(s: State, k: byte, now: int)
    requires LayerInv(s) && s.nextTx < U32_LIMIT - 1 && !s.closed
    ensures Quiet(s, SendSoftReset(s, k, now))
  {
    ChannelStaysOk(s, s.(keyId := k));
    EnqueueQuiet(s.(keyId := k), P_CONTROL_SOFT_RESET_V1, [], now);
  }

  lemma TickQuiet(s: State, now: int, order: seq<u32>)
    requires LayerInv(s) && IsOrder(s.txQueue, order)
    ensures Quiet(s, Tick(s, now, order).state)
  {
    TickInv(s, now, order);
  }

  lemma ReadQuiet(s: State, max: nat)
    ensures Quiet(s, Read(s, max))
  {
    var m := Min(max, |s.readBuf|);
    assert s.readBuf == s.readBuf[..m] + s.readBuf[m..];
  }

  lemma QuietStep(n: Node, e: Event)
    requires LayerInv(n.layer) && Enabled(n, e) && !e.Inbound?
    ensures Quiet(n.layer, ApplyLayer(n, e))
  {
    var s := n.layer;
    match e
    case HardReset(op, now) =>
      if !s.closed && IsControl(op) {
        EnqueueQuiet(s, op, [], now);
      }
    case SoftReset(k, now) =>
      if !s.closed {
        SoftResetQuiet(s, k, now);
      }
    case Timer(now, order) =>
      TickQuiet(s, now, order);
    case ReadBytes(max) =>
      ReadQuiet(s, max);
    case ContinueWrite(i, now) =>
      if WillEnqueue(s, n.writers[i]) {
        EnqueueQuiet(s, P_CONTROL_V1, NextChunk(n.writers[i]), now);
      }
    case _ =>
  }

  /** An inbound packet touches neither the outbound channel nor the history of
      what this side sent. */
  lemma InboundFrame(s: State, p: Packet, now: int)
    requires RxInv(s) && p.payload.msgPid < U32_LIMIT - 1
    ensures var r := HandleInbound(s, p, now);
      && r.readErr == s.readErr && r.closed == s.closed && r.issued == s.issued && r.nextTx == s.nextTx
      && r.outbound == s.outbound && r.taken == s.taken && r.consumed == s.consumed
      && (forall k :: k in s.txQueue ==> k in r.txQueue || (Admits(s, p) && k in InboundAcks(p)))
  {
    if Admits(s, p) {
      var k := LockRemote(s, p);
      var a := k.(txQueue := AckAll(k.txQueue, InboundAcks(p)));
      AckAllKeeps(k.txQueue, InboundAcks(p));
      if p.opcode != P_ACK_V1 {
        ReceiveFrame(a, p.payload.msgPid, p.payload.body, now);
      }
    }
  }

  /** Every event keeps everything: the layer's invariants and every writer's. */
  lemma NodeStepInv(n: Node, e: Event)
    requires NodeInv(n) && Enabled(n, e)
    ensures NodeInv(Apply(n, e)) && Later(n.layer, Apply(n, e).layer)
  {
    LayerStepInv(n, e);
    ErrorFrame(n, e);
    OldWritersKept(n.layer, ApplyLayer(n, e), n.writers);
    NewWritersKept(n, e);
  }

  /** The one call that an event begins or continues. */
  lemma NewWritersKept(n: Node, e: Event)
    requires NodeInv(n) && Enabled(n, e)
    requires forall i :: 0 <= i < |n.writers| ==> WriterInv(ApplyLayer(n, e), n.writers[i])
    ensures forall i :: 0 <= i < |Apply(n, e).writers| ==> WriterInv(ApplyLayer(n, e), Apply(n, e).writers[i])
  {
    if e.ContinueWrite? {
      WriterStepInv(n, e.writer, e.now);
      OneReplaced(ApplyLayer(n, e), n.writers, e.writer, WriteWriter(n.layer, n.writers[e.writer]));
    } else if e.BeginWrite? {
      StartWriteInv(n.layer, e.input);
    }
  }

  lemma OneReplaced(s: State, writers: seq<Writer>, i: nat, w: Writer)
    requires i < |writers| && WriterInv(s, w)
    requires forall j :: 0 <= j < |writers| ==> WriterInv(s, writers[j])
    ensures var after := writers[i := w];
      forall j :: 0 <= j < |after| ==> WriterInv(s, after[j])
  {
  }

  lemma OldWritersKept(s: State, s': State, writers: seq<Writer>)
    requires forall i :: 0 <= i < |writers| ==> WriterInv(s, writers[i])
    requires s.issued <= s'.issued && s'.readErr != Some(QueueFull)
    requires (s.closed ==> s'.closed) && (s.remoteKnown ==> s'.remoteKnown)
    ensures forall i :: 0 <= i < |writers| ==> WriterInv(s', writers[i])
  {
    forall i | 0 <= i < |writers|
      ensures WriterInv(s', writers[i])
    {
      WriterStable(s, s', writers[i]);
    }
  }

  /** No event undoes Close or records a queue-full error. */
  lemma ErrorFrame(n: Node, e: Event)
    requires LayerInv(n.layer) && Enabled(n, e) && n.layer.readErr != Some(QueueFull)
    ensures ApplyLayer(n, e).readErr != Some(QueueFull)
    ensures n.layer.closed ==> ApplyLayer(n, e).closed
  {
    if e.Inbound? {
      InboundFrame(n.layer, e.packet, e.now);
    } else {
      QuietStep(n, e);
    }
  }

  lemma StartWriteInv(s: State, input: seq<byte>)
    requires s.readErr != Some(QueueFull)
    ensures WriterInv(s, StartWrite(input))
  {
    assert input[..0] == [];
  }
}
