/** The layer as an object whose methods update its fields under the mutex.
    Each method is proved to make exactly the transition of module Reliable. */
module ReliableClass {
  import opened Bytes
  import opened Proto
  import opened Reliable
  import ReliableContract

  class Layer {
    const localSid: u64
    const capacity: nat
    var keyId: byte
    var remoteSid: u64
    var remoteKnown: bool
    var nextTx: u32
    var txQueue: map<u32, Pending>
    var nextRx: u32
    var rxBuffer: map<u32, seq<byte>>
    var pendingAcks: seq<u32>
    var pendingAckSet: set<u32>
    var ackSince: Option<int>
    var readBuf: seq<byte>
    var readClosed: bool
    var readErr: Option<Error>
    var outbound: seq<Packet>
    var closed: bool
    ghost var issued: seq<Issue>
    ghost var taken: seq<Packet>
    ghost var consumed: seq<byte>

    ghost function Abs(): State
      reads this
    {
      State(localSid, capacity, keyId, remoteSid, remoteKnown, nextTx, txQueue, nextRx, rxBuffer,
            pendingAcks, pendingAckSet, ackSince, readBuf, readClosed, readErr, outbound, closed,
            issued, taken, consumed)
    }

    constructor (localSid: u64, initialKeyId: byte, outboundBuffer: nat)
      ensures Abs() == New(localSid, initialKeyId, outboundBuffer)
      ensures capacity == if outboundBuffer == 0 then 64 else outboundBuffer
      ensures this.localSid == localSid && keyId == initialKeyId && !remoteKnown && !closed && !readClosed
      ensures nextTx == nextRx == 0 && txQueue == map[] && rxBuffer == map[]
      ensures pendingAcks == [] && readBuf == [] && outbound == []
    {
      this.localSid := localSid;
      capacity := if outboundBuffer == 0 then 64 else outboundBuffer;
      keyId, remoteSid, remoteKnown := initialKeyId, 0, false;
      nextTx, txQueue, nextRx, rxBuffer := 0, map[], 0, map[];
      pendingAcks, pendingAckSet, ackSince := [], {}, None;
      readBuf, readClosed, readErr := [], false, None;
      outbound, closed := [], false;
      issued, taken, consumed := [], [], [];
    }

    method DrainAcks(max: nat) returns (acks: seq<u32>)
      modifies this`pendingAcks, this`pendingAckSet, this`ackSince
      ensures acks == old(DrainedAcks(Abs(), max))
      ensures Abs() == old(Reliable.DrainAcks(Abs(), max))
    {
      if |pendingAcks| == 0 {
        return [];
      }
      var n := Min(|pendingAcks|, max);
      acks := pendingAcks[..n];
      for i := 0 to |acks|
        invariant pendingAckSet == old(pendingAckSet) - ToSet(acks[..i])
        invariant pendingAcks == old(pendingAcks) && ackSince == old(ackSince)
      {
        assert acks[..i + 1] == acks[..i] + [acks[i]];
        pendingAckSet := pendingAckSet - {acks[i]};
      }
      assert acks[..|acks|] == acks;
      pendingAcks := pendingAcks[n..];
      if |pendingAcks| == 0 {
        ackSince := None;
      }
    }

    method RestoreAcks(acks: seq<u32>, now: int)
      modifies this`pendingAcks, this`pendingAckSet, this`ackSince
      ensures Abs() == old(Reliable.RestoreAcks(Abs(), acks, now))
    {
      pendingAcks := acks + pendingAcks;
      for i := 0 to |acks|
        invariant pendingAckSet == old(pendingAckSet) + ToSet(acks[..i])
        invariant pendingAcks == acks + old(pendingAcks) && ackSince == old(ackSince)
      {
        assert acks[..i + 1] == acks[..i] + [acks[i]];
        pendingAckSet := pendingAckSet + {acks[i]};
      }
      assert acks[..|acks|] == acks;
      if ackSince == None && |pendingAcks| > 0 {
        ackSince := Some(now);
      }
    }

    method Emit(opcode: Opcode, pid: u32, body: seq<byte>, now: int)
      modifies this`pendingAcks, this`pendingAckSet, this`ackSince, this`outbound
      ensures Abs() == old(Reliable.Emit(Abs(), opcode, pid, body, now))
    {
      var acks := DrainAcks(MAX_ACKS_PER_PACKET);
      var out := Packet(opcode, keyId, localSid, ControlPayload(acks, remoteSid, pid, body), NO_ACK);
      if |outbound| < capacity {
        outbound := outbound + [out];
      } else {
        RestoreAcks(acks, now);
      }
    }

    method EmitStandaloneAck(now: int)
      modifies this`pendingAcks, this`pendingAckSet, this`ackSince, this`outbound
      ensures Abs() == old(Reliable.EmitStandaloneAck(Abs(), now))
    {
      if |pendingAcks| == 0 || !remoteKnown {
        return;
      }
      var acks := DrainAcks(MAX_ACKS_PER_PACKET);
      var out := Packet(P_ACK_V1, keyId, localSid, NO_PAYLOAD, AckPayload(acks, remoteSid));
      if |outbound| < capacity {
        outbound := outbound + [out];
      } else {
        RestoreAcks(acks, now);
      }
    }

    method EnqueueAndEmit(opcode: Opcode, body: seq<byte>, now: int) returns (err: Option<Error>)
      modifies this
      ensures Abs() == old(Enqueue(Abs(), opcode, body, now))
      ensures err == old(EnqueueError(Abs()))
    {
      if |txQueue| >= MAX_QUEUE_SIZE {
        return Some(QueueFull);
      }
      ghost var result := Enqueue(Abs(), opcode, body, now);
      var pid := nextTx;
      nextTx := Inc32(nextTx);
      txQueue := txQueue[pid := Pending(pid, opcode, body, now, 1, 0)];
      issued := issued + [Issue(opcode, body, now)];
      assert result == Reliable.Emit(Abs(), opcode, pid, body, now);
      Emit(opcode, pid, body, now);
      return None;
    }

    method SendHardReset(opcode: Opcode, now: int) returns (err: Option<Error>)
      modifies this
      ensures Abs() == old(Reliable.SendHardReset(Abs(), opcode, now))
      ensures err == old(SendHardResetError(Abs(), opcode))
    {
      if closed {
        return Some(Closed);
      }
      if !IsControl(opcode) {
        return Some(BadOpcode);
      }
      err := EnqueueAndEmit(opcode, [], now);
    }

    method SendSoftReset(newKeyId: byte, now: int) returns (err: Option<Error>)
      modifies this
      ensures Abs() == old(Reliable.SendSoftReset(Abs(), newKeyId, now))
      ensures err == old(SendSoftResetError(Abs()))
    {
      if closed {
        return Some(Closed);
      }
      var prev := keyId;
      keyId := newKeyId;
      err := EnqueueAndEmit(P_CONTROL_SOFT_RESET_V1, [], now);
      keyId := prev;
    }

    /** Removes the acked packet and credits every older one. */
    method AckOne(acked: u32)
      modifies this`txQueue
      ensures txQueue == Reliable.AckOne(old(txQueue), acked)
    {
      txQueue := txQueue - {acked};
      ghost var q := txQueue;
      var left := txQueue.Keys;
      while left != {}
        invariant left <= q.Keys && txQueue.Keys == q.Keys
        invariant forall k :: k in q ==>
          txQueue[k] == (if k !in left && k < acked then q[k].(higherAcks := q[k].higherAcks + 1) else q[k])
        decreases |left|
      {
        var pid :| pid in left;
        left := left - {pid};
        if pid < acked {
          txQueue := txQueue[pid := txQueue[pid].(higherAcks := txQueue[pid].higherAcks + 1)];
        }
      }
      assert txQueue.Keys == Reliable.AckOne(old(txQueue), acked).Keys;
    }

    method AckAll(acks: seq<u32>)
      modifies this`txQueue
      ensures txQueue == Reliable.AckAll(old(txQueue), acks)
    {
      for i := 0 to |acks|
        invariant Reliable.AckAll(txQueue, acks[i..]) == Reliable.AckAll(old(txQueue), acks)
      {
        assert acks[i..][1..] == acks[i + 1..];
        AckOne(acks[i]);
      }
    }

    method AddPendingAck(pid: u32, now: int)
      modifies this`pendingAcks, this`pendingAckSet, this`ackSince
      ensures Abs() == old(Reliable.AddPendingAck(Abs(), pid, now))
    {
      if pid in pendingAckSet {
        return;
      }
      pendingAckSet := pendingAckSet + {pid};
      pendingAcks := pendingAcks + [pid];
      if ackSince == None {
        ackSince := Some(now);
      }
    }

    method AppendRead(body: seq<byte>)
      modifies this`readBuf
      ensures readBuf == old(readBuf) + body
    {
      if |body| == 0 {
        return;
      }
      readBuf := readBuf + body;
    }

    method DeliverOne()
      requires nextRx in rxBuffer
      modifies this`readBuf, this`nextRx, this`rxBuffer
      ensures Abs() == old(DeliverNext(Abs()))
    {
      var body := rxBuffer[nextRx];
      rxBuffer := rxBuffer - {nextRx};
      AppendRead(body);
      nextRx := Inc32(nextRx);
    }

    /** Delivers every contiguous buffered body. */
    method DeliverBuffered()
      modifies this`readBuf, this`nextRx, this`rxBuffer
      ensures Abs() == old(DeliverChain(Abs()))
    {
      ghost var s := Abs();
      while nextRx in rxBuffer
        invariant DeliverChain(Abs()) == DeliverChain(s)
        decreases |rxBuffer|
      {
        RemoveShrinks(rxBuffer, nextRx);
        DeliverOne();
      }
    }

    method ReceiveMessage(pid: u32, body: seq<byte>, now: int)
      modifies this
      ensures Abs() == old(Reliable.ReceiveMessage(Abs(), pid, body, now))
    {
      if pid < nextRx {
        AddPendingAck(pid, now);
        return;
      }
      if pid in rxBuffer {
        AddPendingAck(pid, now);
        return;
      }
      ghost var result := Reliable.ReceiveMessage(Abs(), pid, body, now);
      if pid == nextRx {
        AppendRead(body);
        nextRx := Inc32(nextRx);
        DeliverBuffered();
      } else {
        if pid - nextRx >= MAX_RX_BUFFER {
          return;
        }
        rxBuffer := rxBuffer[pid := body];
      }
      assert result == Reliable.AddPendingAck(Abs(), pid, now);
      AddPendingAck(pid, now);
    }

    /** Refuses a closed layer and a foreign session-id; learns the peer's
        session-id from the first packet. */
    method Admit(p: Packet) returns (err: Option<Error>)
      modifies this`remoteSid, this`remoteKnown
      ensures err == old(HandleInboundError(Abs(), p))
      ensures Abs() == if err == None then old(LockRemote(Abs(), p)) else old(Abs())
    {
      if closed {
        return Some(Closed);
      }
      if !remoteKnown {
        remoteSid := p.sessionId;
        remoteKnown := true;
      } else if p.sessionId != remoteSid {
        return Some(SessionIdMismatch);
      }
      return None;
    }

    method HandleInbound(p: Packet, now: int) returns (err: Option<Error>)
      modifies this
      ensures Abs() == old(Reliable.HandleInbound(Abs(), p, now))
      ensures err == old(HandleInboundError(Abs(), p))
      ensures err == if old(closed) then Some(Closed)
                     else if old(remoteKnown) && p.sessionId != old(remoteSid) then Some(SessionIdMismatch)
                     else None
    {
      err := Admit(p);
      if err != None {
        return;
      }
      if p.opcode == P_ACK_V1 {
        AckAll(p.ack.acks);
        return None;
      }
      AckAll(p.payload.acks);
      assert old(Reliable.HandleInbound(Abs(), p, now))
          == Reliable.ReceiveMessage(Abs(), p.payload.msgPid, p.payload.body, now);
      ReceiveMessage(p.payload.msgPid, p.payload.body, now);
      return None;
    }

    /** One pass of Read once it need not wait. */
    method Read(max: nat) returns (b: seq<byte>, err: Option<Error>)
      requires ReadReady(Abs())
      modifies this`readBuf, this`consumed
      ensures Abs() == old(Reliable.Read(Abs(), max))
      ensures err == old(ReadError(Abs()))
      ensures b == old(readBuf)[..Min(max, |old(readBuf)|)]
    {
      if |readBuf| == 0 {
        err := if readErr != None then readErr else Some(Eof);
        return [], err;
      }
      var n := Min(max, |readBuf|);
      b := readBuf[..n];
      consumed := consumed + b;
      readBuf := readBuf[n..];
      return b, None;
    }

    /** Write from one wait to the next: on return the call has ended or waits. */
    method Write(call: Writer, now: int) returns (w: Writer)
      modifies this
      ensures (Abs(), w) == old(WriteRun(Abs(), call, now))
      ensures Blocked(Abs(), w)
    {
      w := call;
      if w.phase.Returned? {
        return;
      }
      if w.phase.AwaitRemote? {
        if !remoteKnown && !closed && !readClosed {
          return;
        }
        if !remoteKnown && readClosed && !closed {
          w := w.(phase := Returned(0, if readErr != None then readErr else Some(Closed)));
          return;
        }
        w := w.(phase := Running);
      }
      w := WriteChunks(w, now);
    }

    /** The chunk loop of Write. */
    method WriteChunks(call: Writer, now: int) returns (w: Writer)
      requires call.phase.Running?
      modifies this
      ensures (Abs(), w) == old(WriteRun(Abs(), call, now))
      ensures Blocked(Abs(), w)
    {
      w := call;
      ghost var result := WriteRun(Abs(), call, now);
      while w.written < |w.input|
        invariant w.phase.Running?
        invariant WriteRun(Abs(), w, now) == result
        decreases |w.input| - w.written
      {
        if closed {
          w := w.(phase := if w.written > 0 then Returned(w.written, None) else Returned(0, Some(Closed)));
          return;
        }
        if |txQueue| >= MAX_QUEUE_SIZE {
          return;
        }
        var chunk := w.input[w.written..];
        if |chunk| > TLS_CHUNK_SIZE {
          chunk := chunk[..TLS_CHUNK_SIZE];
        }
        assert chunk == NextChunk(w);
        var pid := nextTx;
        var err := EnqueueAndEmit(P_CONTROL_V1, chunk, now);
        w := w.(written := w.written + |chunk|, pids := w.pids + [pid]);
      }
      w := w.(phase := Returned(w.written, None));
    }

    method CloseRead(cause: Option<Error>)
      modifies this`readClosed, this`readErr
      ensures Abs() == old(Reliable.CloseRead(Abs(), cause))
    {
      readClosed := true;
      if cause != None {
        readErr := cause;
      }
    }

    method Close()
      modifies this`closed, this`readClosed, this`readErr
      ensures Abs() == old(Reliable.Close(Abs()))
    {
      if closed {
        return;
      }
      closed := true;
      readClosed := true;
      if readErr == None {
        readErr := Some(Eof);
      }
    }

    /** The queue's keys in some order, as a map iteration yields them. */
    method VisitOrder() returns (order: seq<u32>)
      ensures IsOrder(txQueue, order)
    {
      order := [];
      var left := txQueue.Keys;
      while left != {}
        invariant left <= txQueue.Keys
        invariant forall k :: k in order <==> k in txQueue && k !in left
        invariant forall i, j :: 0 <= i < j < |order| ==> order[i] != order[j]
        decreases |left|
      {
        var pid :| pid in left;
        left := left - {pid};
        order := order + [pid];
      }
    }

    method Resend(pid: u32, now: int)
      requires pid in txQueue
      modifies this`pendingAcks, this`pendingAckSet, this`ackSince, this`outbound, this`txQueue
      ensures Abs() == old(Reliable.Resend(Abs(), pid, now))
      ensures txQueue.Keys == old(txQueue.Keys)
    {
      var pkt := txQueue[pid];
      Emit(pkt.opcode, pkt.msgPid, pkt.body, now);
      txQueue := txQueue[pid := pkt.(attempts := pkt.attempts + 1, sentAt := now, higherAcks := 0)];
    }

    /** Visits the queue in the given order until a packet has used up its
        attempts. */
    method RetransmitDue(now: int, order: seq<u32>) returns (err: Option<Error>)
      requires forall k :: k in order ==> k in txQueue
      modifies this`pendingAcks, this`pendingAckSet, this`ackSince, this`outbound, this`txQueue
      ensures TickResult(Abs(), err) == old(TickLoop(Abs(), now, order))
    {
      ghost var s := Abs();
      for i := 0 to |order|
        invariant forall k :: k in order[i..] ==> k in txQueue
        invariant TickLoop(Abs(), now, order[i..]) == TickLoop(s, now, order)
      {
        assert order[i..][0] == order[i] && order[i..][1..] == order[i + 1..];
        var pkt := txQueue[order[i]];
        var fast := pkt.higherAcks >= FAST_RETRANSMIT_THRESHOLD;
        if !fast && now - pkt.sentAt < Backoff(pkt.attempts) {
          continue;
        }
        if pkt.attempts >= MAX_RETRANSMITS {
          return Some(TooManyRetransmits);
        }
        Resend(order[i], now);
      }
      return None;
    }

    method Tick(now: int) returns (err: Option<Error>, order: seq<u32>)
      modifies this
      ensures IsOrder(old(txQueue), order)
      ensures TickResult(Abs(), err) == old(Reliable.Tick(Abs(), now, order))
      ensures err == None ==> !old(closed) && ReliableContract.Retransmitted(old(txQueue), txQueue, now)
    {
      order := VisitOrder();
      ghost var result := Reliable.Tick(Abs(), now, order);
      if result.error == None {
        ReliableContract.TickResends(Abs(), now, order);
      }
      if closed {
        return Some(Closed), order;
      }
      err := RetransmitDue(now, order);
      if err != None {
        return;
      }
      if |pendingAcks| > 0 {
        if |pendingAcks| >= MAX_ACKS_PER_PACKET || (ackSince.Some? && now - ackSince.value >= ACK_FLUSH_DELAY) {
          EmitStandaloneAck(now);
        }
      }
    }

    /** The pump receives from the outbound channel. */
    method Receive() returns (p: Option<Packet>)
      modifies this`outbound, this`taken
      ensures Abs() == old(Pump(Abs()))
      ensures p == if old(outbound) == [] then None else Some(old(outbound)[0])
    {
      if |outbound| == 0 {
        return None;
      }
      p := Some(outbound[0]);
      taken := taken + [outbound[0]];
      outbound := outbound[1..];
    }
  }
}
