/** The control-channel reliability layer as a transition system: one function
    per section of code that holds the layer's mutex. */
module Reliable {
  import opened Bytes
  import opened Proto

  const MAX_ACKS_PER_PACKET := 8
  const MAX_QUEUE_SIZE := 12
  const MAX_RX_BUFFER := 64
  const MAX_RETRANSMITS := 8
  const FAST_RETRANSMIT_THRESHOLD := 3
  const TLS_CHUNK_SIZE := 1200

  /** Times and durations are in nanoseconds. */
  const SECOND := 1_000_000_000
  const INITIAL_RETRANSMIT := SECOND
  const MAX_RETRANSMIT := 16 * SECOND
  const ACK_FLUSH_DELAY := 20_000_000

  datatype Error =
    | Closed
    | TooManyRetransmits
    | QueueFull
    | SessionIdMismatch
    | BadOpcode
    | Eof
    | Cause(code: nat)

  type Attempts = n: int | 1 <= n witness 1

  datatype Pending = Pending(msgPid: u32, opcode: Opcode, body: seq<byte>,
                             sentAt: int, attempts: Attempts, higherAcks: nat)

  /** A packet as emitted or received: `ack` is used by standalone acks only,
      `payload` by every other packet. */
  datatype Packet = Packet(opcode: Opcode, keyId: byte, sessionId: u64,
                           payload: ControlPayload, ack: AckPayload)

  const NO_ACK := AckPayload([], 0)
  const NO_PAYLOAD := ControlPayload([], 0, 0, [])

  /** A message handed to the layer: what was sent, and when first. */
  datatype Issue = Issue(opcode: Opcode, body: seq<byte>, at: int)

  /** The fields of a layer.  `issued`, `taken` and `consumed` record history:
      every message enqueued, every packet the pump took off the outbound
      channel, every byte the reader consumed.  Nothing branches on them. */
  datatype State = State(
    localSid: u64,
    capacity: nat,
    keyId: byte,
    remoteSid: u64,
    remoteKnown: bool,
    nextTx: u32,
    txQueue: map<u32, Pending>,
    nextRx: u32,
    rxBuffer: map<u32, seq<byte>>,
    pendingAcks: seq<u32>,
    pendingAckSet: set<u32>,
    ackSince: Option<int>,
    readBuf: seq<byte>,
    readClosed: bool,
    readErr: Option<Error>,
    outbound: seq<Packet>,
    closed: bool,
    issued: seq<Issue>,
    taken: seq<Packet>,
    consumed: seq<byte>)

  function New(localSid: u64, keyId: byte, capacity: nat): State {
    State(localSid, if capacity == 0 then 64 else capacity, keyId, 0, false,
          0, map[], 0, map[], [], {}, None, [], false, None, [], false, [], [], [])
  }

  /** Every packet ever put on the outbound channel, in order. */
  function Emitted(s: State): seq<Packet> {
    s.taken + s.outbound
  }

  /** Every byte ever appended to the read buffer. */
  function Delivered(s: State): seq<byte> {
    s.consumed + s.readBuf
  }

  // --- acks -----------------------------------------------------------------

  function ToSet(acks: seq<u32>): set<u32> {
    set a | a in acks
  }

  /** The acks drainAcksLocked(max) removes. */
  function DrainedAcks(s: State, max: nat): seq<u32> {
    s.pendingAcks[..Min(|s.pendingAcks|, max)]
  }

  function DrainAcks(s: State, max: nat): State {
    if s.pendingAcks == [] then s
    else
      var acks := DrainedAcks(s, max);
      var left := s.pendingAcks[|acks|..];
      s.(pendingAcks := left,
         pendingAckSet := s.pendingAckSet - ToSet(acks),
         ackSince := if left == [] then None else s.ackSince)
  }

  /** Acks that could not be sent go back to the front of the list. */
  function RestoreAcks(s: State, acks: seq<u32>, now: int): State {
    s.(pendingAcks := acks + s.pendingAcks,
       pendingAckSet := s.pendingAckSet + ToSet(acks),
       ackSince := if s.ackSince == None && acks + s.pendingAcks != [] then Some(now) else s.ackSince)
  }

  function AddPendingAck(s: State, pid: u32, now: int): State {
    if pid in s.pendingAckSet then s
    else s.(pendingAckSet := s.pendingAckSet + {pid},
            pendingAcks := s.pendingAcks + [pid],
            ackSince := if s.ackSince == None then Some(now) else s.ackSince)
  }

  // --- sending ----------------------------------------------------------------

  function ControlPacket(s: State, opcode: Opcode, pid: u32, body: seq<byte>): Packet {
    Packet(opcode, s.keyId, s.localSid,
           ControlPayload(DrainedAcks(s, MAX_ACKS_PER_PACKET), s.remoteSid, pid, body), NO_ACK)
  }

  /** A non-blocking send: a full channel takes nothing and the acks return. */
  function Emit(s: State, opcode: Opcode, pid: u32, body: seq<byte>, now: int): State {
    var d := DrainAcks(s, MAX_ACKS_PER_PACKET);
    if |s.outbound| < s.capacity
    then d.(outbound := s.outbound + [ControlPacket(s, opcode, pid, body)])
    else RestoreAcks(d, DrainedAcks(s, MAX_ACKS_PER_PACKET), now)
  }

  function StandaloneAck(s: State): Packet {
    Packet(P_ACK_V1, s.keyId, s.localSid, NO_PAYLOAD,
           AckPayload(DrainedAcks(s, MAX_ACKS_PER_PACKET), s.remoteSid))
  }

  function EmitStandaloneAck(s: State, now: int): State {
    if s.pendingAcks == [] || !s.remoteKnown then s
    else
      var d := DrainAcks(s, MAX_ACKS_PER_PACKET);
      if |s.outbound| < s.capacity
      then d.(outbound := s.outbound + [StandaloneAck(s)])
      else RestoreAcks(d, DrainedAcks(s, MAX_ACKS_PER_PACKET), now)
  }

  /** Room in the send queue, the guard of enqueueAndEmitLocked. */
  predicate HasRoom(s: State) {
    |s.txQueue| < MAX_QUEUE_SIZE
  }

  function Enqueue(s: State, opcode: Opcode, body: seq<byte>, now: int): State {
    if !HasRoom(s) then s
    else
      var pid := s.nextTx;
      var q := s.(nextTx := Inc32(pid),
                  txQueue := s.txQueue[pid := Pending(pid, opcode, body, now, 1, 0)],
                  issued := s.issued + [Issue(opcode, body, now)]);
      Emit(q, opcode, pid, body, now)
  }

  function EnqueueError(s: State): Option<Error> {
    if HasRoom(s) then None else Some(QueueFull)
  }

  function SendHardReset(s: State, opcode: Opcode, now: int): State {
    if s.closed || !IsControl(opcode) then s else Enqueue(s, opcode, [], now)
  }

  function SendHardResetError(s: State, opcode: Opcode): Option<Error> {
    if s.closed then Some(Closed)
    else if !IsControl(opcode) then Some(BadOpcode)
    else EnqueueError(s)
  }

  function SendSoftReset(s: State, newKeyId: byte, now: int): State {
    if s.closed then s
    else Enqueue(s.(keyId := newKeyId), P_CONTROL_SOFT_RESET_V1, [], now).(keyId := s.keyId)
  }

  function SendSoftResetError(s: State): Option<Error> {
    if s.closed then Some(Closed) else EnqueueError(s)
  }

  // --- receiving --------------------------------------------------------------

  /** One inbound ack: the packet leaves the queue and every older one still
      waiting counts a higher ack. */
  function AckOne(q: map<u32, Pending>, acked: u32): map<u32, Pending> {
    map pid | pid in q && pid != acked ::
      if pid < acked then q[pid].(higherAcks := q[pid].higherAcks + 1) else q[pid]
  }

  function AckAll(q: map<u32, Pending>, acks: seq<u32>): map<u32, Pending>
    decreases |acks|
  {
    if acks == [] then q else AckAll(AckOne(q, acks[0]), acks[1..])
  }

  /** Hands over the buffered body that is due. */
  function DeliverNext(s: State): State
    requires s.nextRx in s.rxBuffer
  {
    s.(rxBuffer := s.rxBuffer - {s.nextRx},
       readBuf := s.readBuf + s.rxBuffer[s.nextRx],
       nextRx := Inc32(s.nextRx))
  }

  /** Hands over every contiguous buffered body from nextRx on. */
  function DeliverChain(s: State): State
    decreases |s.rxBuffer|
  {
    if s.nextRx in s.rxBuffer
    then RemoveShrinks(s.rxBuffer, s.nextRx); DeliverChain(DeliverNext(s))
    else s
  }

  lemma RemoveShrinks<V>(m: map<u32, V>, k: u32)
    requires k in m
    ensures |m - {k}| < |m|
  {
    assert (m - {k}).Keys == m.Keys - {k};
    assert m.Keys == (m.Keys - {k}) + {k};
  }

  /** Whether an inbound packet gets past the session-id lock. */
  predicate Admits(s: State, p: Packet) {
    !s.closed && (s.remoteKnown ==> p.sessionId == s.remoteSid)
  }

  function LockRemote(s: State, p: Packet): State {
    if s.remoteKnown then s else s.(remoteSid := p.sessionId, remoteKnown := true)
  }

  /** The acks of a packet that the receiver looks at. */
  function InboundAcks(p: Packet): seq<u32> {
    if p.opcode == P_ACK_V1 then p.ack.acks else p.payload.acks
  }

  /** The message part of an inbound packet: deliver, buffer, or drop. */
  function ReceiveMessage(s: State, pid: u32, body: seq<byte>, now: int): State {
    if pid < s.nextRx || pid in s.rxBuffer then AddPendingAck(s, pid, now)
    else if pid == s.nextRx then
      AddPendingAck(DeliverChain(s.(readBuf := s.readBuf + body, nextRx := Inc32(s.nextRx))), pid, now)
    else if pid - s.nextRx >= MAX_RX_BUFFER then s
    else AddPendingAck(s.(rxBuffer := s.rxBuffer[pid := body]), pid, now)
  }

  function HandleInbound(s: State, p: Packet, now: int): State {
    if !Admits(s, p) then s
    else
      var k := LockRemote(s, p);
      var a := k.(txQueue := AckAll(k.txQueue, InboundAcks(p)));
      if p.opcode == P_ACK_V1 then a
      else ReceiveMessage(a, p.payload.msgPid, p.payload.body, now)
  }

  function HandleInboundError(s: State, p: Packet): Option<Error> {
    if s.closed then Some(Closed)
    else if Admits(s, p) then None
    else Some(SessionIdMismatch)
  }

  // --- timers -------------------------------------------------------------------

  function Backoff(attempts: Attempts): int {
    Min(INITIAL_RETRANSMIT * Shift(Min(attempts - 1, 4)), MAX_RETRANSMIT)
  }

  function Shift(n: nat): nat {
    if n == 0 then 1 else 2 * Shift(n - 1)
  }

  /** Whether Tick acts on a pending packet: fast retransmit or backoff over. */
  predicate Due(p: Pending, now: int) {
    p.higherAcks >= FAST_RETRANSMIT_THRESHOLD || now - p.sentAt >= Backoff(p.attempts)
  }

  function Resend(s: State, pid: u32, now: int): State
    requires pid in s.txQueue
  {
    var p := s.txQueue[pid];
    var e := Emit(s, p.opcode, p.msgPid, p.body, now);
    e.(txQueue := e.txQueue[pid := p.(attempts := p.attempts + 1, sentAt := now, higherAcks := 0)])
  }

  datatype TickResult = TickResult(state: State, error: Option<Error>)

  /** Visits the queue in the given order, stopping at the first packet that has
      used up its attempts. */
  function TickLoop(s: State, now: int, order: seq<u32>): TickResult
    requires forall k :: k in order ==> k in s.txQueue
    decreases |order|
  {
    if order == [] then TickResult(s, None)
    else
      var p := s.txQueue[order[0]];
      if !Due(p, now) then TickLoop(s, now, order[1..])
      else if p.attempts >= MAX_RETRANSMITS then TickResult(s, Some(TooManyRetransmits))
      else TickLoop(Resend(s, order[0], now), now, order[1..])
  }

  predicate AckFlushDue(s: State, now: int) {
    || |s.pendingAcks| >= MAX_ACKS_PER_PACKET
    || (s.ackSince.Some? && now - s.ackSince.value >= ACK_FLUSH_DELAY)
  }

  /** The orders in which a map iteration may visit the queue. */
  ghost predicate IsOrder(q: map<u32, Pending>, order: seq<u32>) {
    && (forall k :: k in order <==> k in q)
    && forall i, j :: 0 <= i < j < |order| ==> order[i] != order[j]
  }

  function Tick(s: State, now: int, order: seq<u32>): TickResult
    requires IsOrder(s.txQueue, order)
  {
    if s.closed then TickResult(s, Some(Closed))
    else
      var t := TickLoop(s, now, order);
      if t.error.Some? then t
      else if t.state.pendingAcks != [] && AckFlushDue(t.state, now)
      then TickResult(EmitStandaloneAck(t.state, now), None)
      else t
  }

  // --- the reader, the writer, the pump and teardown --------------------------------

  /** Read waits until this holds. */
  predicate ReadReady(s: State) {
    s.readBuf != [] || s.closed || s.readClosed
  }

  function Read(s: State, max: nat): State {
    var n := Min(max, |s.readBuf|);
    s.(consumed := s.consumed + s.readBuf[..n], readBuf := s.readBuf[n..])
  }

  function ReadError(s: State): Option<Error> {
    if s.readBuf != [] then None
    else if s.readErr.Some? then s.readErr
    else Some(Eof)
  }

  datatype Phase = AwaitRemote | Running | Returned(n: nat, error: Option<Error>)

  /** One call of Write: its input, how much of it was enqueued, as which
      packet-ids. */
  datatype Writer = Writer(input: seq<byte>, written: nat, pids: seq<u32>, phase: Phase)

  function StartWrite(input: seq<byte>): Writer {
    Writer(input, 0, [], AwaitRemote)
  }

  /** A writer that Write's condition variables keep waiting. */
  predicate Blocked(s: State, w: Writer) {
    || (w.phase.AwaitRemote? && !s.remoteKnown && !s.closed && !s.readClosed)
    || (w.phase.Running? && w.written < |w.input| && !s.closed && !HasRoom(s))
    || w.phase.Returned?
  }

  function NextChunk(w: Writer): seq<byte>
    requires w.written <= |w.input|
  {
    w.input[w.written..Min(w.written + TLS_CHUNK_SIZE, |w.input|)]
  }

  /** Whether the writer's next step enqueues a chunk. */
  predicate WillEnqueue(s: State, w: Writer) {
    w.phase.Running? && w.written < |w.input| && !s.closed && HasRoom(s)
  }

  function WriteLayer(s: State, w: Writer, now: int): State {
    if WillEnqueue(s, w) then Enqueue(s, P_CONTROL_V1, NextChunk(w), now) else s
  }

  function WriteWriter(s: State, w: Writer): Writer {
    if Blocked(s, w) then w
    else if w.phase.AwaitRemote? then
      if !s.remoteKnown && s.readClosed && !s.closed
      then w.(phase := Returned(0, if s.readErr.Some? then s.readErr else Some(Closed)))
      else w.(phase := Running)
    else if w.written >= |w.input| then w.(phase := Returned(w.written, None))
    else if s.closed then
      w.(phase := if w.written > 0 then Returned(w.written, None) else Returned(0, Some(Closed)))
    else w.(written := w.written + |NextChunk(w)|, pids := w.pids + [s.nextTx])
  }

  /** All the steps a Write call takes before it waits or returns. */
  function WriteRun(s: State, w: Writer, now: int): (State, Writer)
    decreases |w.input| - w.written, if w.phase.AwaitRemote? then 2 else if w.phase.Running? then 1 else 0
  {
    if Blocked(s, w) then (s, w) else WriteRun(WriteLayer(s, w, now), WriteWriter(s, w), now)
  }

  function CloseRead(s: State, cause: Option<Error>): State {
    s.(readClosed := true, readErr := if cause.Some? then cause else s.readErr)
  }

  function Close(s: State): State {
    if s.closed then s
    else s.(closed := true, readClosed := true,
            readErr := if s.readErr == None then Some(Eof) else s.readErr)
  }

  /** The pump takes the oldest packet off the outbound channel. */
  function Pump(s: State): State {
    if s.outbound == [] then s
    else s.(taken := s.taken + [s.outbound[0]], outbound := s.outbound[1..])
  }

  function SetKeyId(s: State, k: byte): State {
    s.(keyId := k)
  }

  function SetRemoteSessionId(s: State, sid: u64): State {
    s.(remoteSid := sid, remoteKnown := true)
  }
}
