# A verified model of go-openvpn

A Dafny model of the stateful core of a user-space OpenVPN client, with proofs of
what its parts guarantee over every input, every run and every interleaving.
`dafny verify dfyconfig.toml` checks everything.

## What is modelled

- **Control-channel reliability layer** (`Reliable*`). `Reliable` gives one
  function per section of code under the layer's mutex; `ReliableClass.Layer` is
  the object with its loops, proved to make exactly those transitions.
  `ReliableInvariants` and `ReliableNode` hold what every event keeps, with any
  number of concurrent `Write` calls cut at their wait points; `ReliableNetwork`
  joins two layers by a network that loses, duplicates, reorders and delays at
  will and carries packets through the real marshal/parse pair; `ReliableTiming`
  and `ReliableProgress` bound retransmission and say what each step must do;
  `ReliableAcks` follows every ack from the message it is owed for to the packet it
  leaves in; `ReliableContract` states the operations as callers see them.
- **Replay windows and the data slot** (`WordBits`, `Replay`, `DataSlot`). The
  multi-word bitmap shifted in place and the one-word windows of tls-crypt and
  tls-auth all refine the plain set of accepted packet-ids. `Slot` seals and opens
  in place over an AEAD given as a pair of functions with a round-trip law and a
  length law.
- **Rekey, tables and shutdown** (`SessionTables`, `RekeyShutdown`,
  `RekeyRetirement`). Every interleaving of rekeys (successful, failed, rejected),
  `Close`, worker panics and arbitrarily late retirement timers, one atomic section
  per action.
- **DNS in the SOCKS resolver** (`DnsNames`, `DnsAnswers`, `DnsMessage`): query
  building, name decompression, the response byte by byte, and the CNAME closure
  that decides which addresses are trusted.
- **Connect rate limiter** (`ConnRate`): token buckets over real time, with
  garbage collection.
- **Client session swap** (`ClientSwap`): counters across reconnects and hook
  dispatch, with counters loaded one by one while they move.
- **Wire formats** (`Bytes`, `Proto`, `KeyMethod2`).

## Where the code and its description part

- `Adapter.Close` closes the layer under a TLS connection, so closing the previous
  connection after a rekey closes the old layer at once, not after the transition
  window the comments speak of. `NothingLeftOpen` rests on this: a retirement timer
  stopped between taking a layer off the table and closing it does no harm, because
  that layer's connection has been or will be closed by someone else.
- `ReplayWindow` compares offsets with `uint32(size)`. `TruncationIsExact` says for
  which sizes that changes an answer: those of more than 32 bits, except the ones
  congruent to 2^32 - 1.
- `Slot.Seal` counts on after exhaustion. Nonces repeat from call 2^32 + 1 on and not
  before (`NoncesDistinctUntilWrap`).
- A slot with a key-id above 7 can seal but never open what its mirror sealed, since
  the wire carries three bits (`OpenUndoesSeal`).
- `allow` reads the clock before it takes the lock, so a call can be served after one
  with a later stamp. If no call lags more than D seconds behind the latest stamp
  served before it, the rate bound holds on all schedules if and only if D <= 1/2
  (`RateBoundExactly`), and garbage collection is invisible on all schedules if and
  only if D <= 148 (`CollectionIsInvisibleExactly`). Up to there a lag adds at most
  2 D - 1 connects (`LaggingRateBound`).
- `ParseAckPayload` ignores bytes after the payload, so marshalling what it parsed
  gives the buffer back exactly when there are none.
- The streaming KEY_METHOD 2 reader takes an absent options string, which the buffer
  parser refuses; the buffer parser takes strings of 16384 bytes and more, which the
  reader refuses. These are the only differences (`DecodersAgree`), and both occur
  (`LongStringsOnlyInBuffer`, `NoOptionsOnlyInStream`).
- `skipName` steps over length bytes whose top bits are 01 or 10; `decodeName` refuses
  them (`SkipAcceptsMore`), overlong names and bad pointers. `DecodesExactly` says
  which names decode.
- The 20 ms an ack may wait can start anew: when a packet takes all pending acks and
  finds the channel full, pushing them back sets their timestamp to that moment
  (`AckClock`).
- `SendHardReset` takes `P_ACK_V1`, because `IsControl` includes it. Such a packet can
  never be marshalled, so it never arrives; all guarantees of the layer still hold.

## Model

| member | source | states |
|---|---|---|
| ReliableNetwork.ExactlyOnceInOrder | internal/reliable/reliable.go:375-451 | at every moment of every run of two layers over the adversarial network, the bytes handed to each reader are a prefix of the bytes the peer enqueued, in packet-id order |
| ReliableNetwork.NothingIsLost | internal/reliable/reliable.go:293-371 | every ack pending, on a channel or in flight is for a message its sender has received, and every message issued is still queued or received by the peer |
| ReliableNetwork.QuietMeansDelivered | internal/reliable/reliable.go:392-405 | a sender whose queue is empty has had every byte delivered |
| ReliableNetwork.WindowsAreBounded | internal/reliable/reliable.go:26-41 | a sender is at most 75 messages ahead of its peer; the reorder buffer holds at most 63 bodies and never the next one due |
| ReliableNetwork.AckBookkeeping | internal/reliable/reliable.go:134-140 | ack list without duplicates and equal to its mirror set, timestamp set exactly when acks wait, every emitted packet with at most 8 acks addressed to the known peer |
| ReliableNetwork.WritesAreFaithful | internal/reliable/reliable.go:509-559 | the packets of every Write are, in ascending order, the 1200-byte pieces of its input, none sent before the peer is known; the count reported is that of their bytes; no queue-full error; a short count only with an error or after close |
| ReliableNetwork.WireFaithful | internal/session/session.go:1286-1300 | packing, marshalling and parsing keep a packet's opcode, acks, packet-id and body |
| ReliableNetwork.StepKeepsInv | internal/reliable/reliable.go:375-451 | every step of either side keeps the whole-system invariant |
| ReliableNetwork.ReceiverStep | internal/reliable/reliable.go:410-450 | a step of the receiver keeps delivered and buffered bytes equal to what the sender issued |
| ReliableNetwork.SenderStep | internal/reliable/reliable.go:392-408 | a step of the sender drops a message from its queue only after the receiver has it |
| ReliableNetwork.FlightBound | internal/reliable/reliable.go:267-283 | the 12-entry queue and the 64-wide window bound how far a sender can be ahead |
| ReliableNode.NodeStepInv | internal/reliable/reliable.go:117-158 | every event keeps the layer's invariants and those of every Write in progress |
| ReliableNetwork.SilentAfterClose | internal/reliable/reliable.go:581-607 | in every run, from Close on the side stays closed and what it has sent on its channel and enqueued stays as it is |
| ReliableNode.LayerStepInv | internal/reliable/reliable.go:117-158 | every event, whatever packet arrives, keeps the ack, send-queue, reorder-buffer and channel invariants, and forgets nothing issued or received |
| ReliableNode.WriterStepInv | internal/reliable/reliable.go:531-558 | one step of Write keeps its chunks equal to the reported part of its input |
| ReliableNode.QuietStep | internal/reliable/reliable.go:234-283 | an event that brings no packet leaves the receive side alone and takes nothing off the send queue |
| ReliableNode.InboundFrame | internal/reliable/reliable.go:392-408 | an inbound packet sends nothing and removes only acked messages from the queue |
| ReliableNode.PumpInv | internal/reliable/reliable.go:196-198 | taking a packet off the channel loses and reorders nothing |
| ReliableTiming.AtMostEightTransmissions | internal/reliable/reliable.go:602-633 | in every run each message enters the outbound channel at most 8 times |
| ReliableTiming.NoEarlySurrender | internal/reliable/reliable.go:616-626 | Tick gives up only over a message that reached the fast-retransmit threshold at some time or was first sent at least 79 s ago |
| ReliableTiming.TickLoopCulprit | internal/reliable/reliable.go:624-626 | a Tick that fails has a packet with all attempts used that is due again |
| ReliableTiming.StepOnSchedule | internal/reliable/reliable.go:616-632 | without fast retransmit no event makes a resend earlier than backoff allows |
| ReliableTiming.StepRationed | internal/reliable/reliable.go:275-282 | no event lets a message be transmitted more often than its attempt count |
| ReliableProgress.MessageTakenIn | internal/reliable/reliable.go:401-450 | a message of the peer's session less than 64 beyond the next one due is received and acknowledged, duplicates included; one beyond that changes the send queue only; its acks settle and credit as they name |
| ReliableProgress.DueMessageIsDelivered | internal/reliable/reliable.go:424-436 | the message that is due goes to the reader at once |
| ReliableProgress.AckAllCounts | internal/reliable/reliable.go:453-464 | acks remove exactly the packets they name and credit each older one once per higher ack |
| ReliableContract.SessionIdLock | internal/reliable/reliable.go:378-390 | a closed layer and a packet of a foreign session change nothing, each with its own error; any other packet is taken and from then on its session is the peer's |
| ReliableContract.OneSession | internal/reliable/reliable.go:383-390 | in every run all inbound packets that change anything carry one and the same session-id, the peer's from the first on |
| ReliableContract.TickFails | internal/reliable/reliable.go:602-626 | Tick fails exactly on a closed layer, or when some packet has been sent eight times and has had three higher acks or waited 16 s more |
| ReliableContract.TickResends | internal/reliable/reliable.go:610-633 | a Tick that does not fail resends exactly the packets with three higher acks or 1, 2, 4, 8, 16, 16, 16, 16 s since their first, second, ... transmission |
| ReliableContract.TickTransmits | internal/reliable/reliable.go:627-632 | with room on the channel each of these enters it exactly once and no other message does |
| ReliableContract.TransmissionsAreSpaced | internal/reliable/reliable.go:42-60 | in every run consecutive transmissions of a message without three higher acks are at least 1, 2, 4, 8, 16, 16, 16 s apart, and there are eight at most |
| ReliableContract.HardResetOutcome | internal/reliable/reliable.go:234-283 | the refusals in order, each changing nothing; otherwise the message is queued under the next packet-id and leaves at once if the channel has room, with the oldest acks |
| ReliableContract.SoftResetOutcome | internal/reliable/reliable.go:249-283 | the same for the soft reset, under the new key-id |
| ReliableContract.SettingsStep | internal/reliable/reliable.go:201-230 | the key-id in force is the one last set; nothing but inbound packets and pre-seeding tells the layer its peer |
| ReliableContract.WriteBeforePeer | internal/reliable/reliable.go:519-534 | before the peer is known Write enqueues nothing: it waits, or returns the reason the read side was closed for, or Closed |
| ReliableContract.WriteOutcome | internal/reliable/reliable.go:531-559 | once it is, Write enqueues 1200-byte pieces up to twelve unacknowledged messages and returns exactly when all its input is enqueued |
| ReliableContract.ReadEndsWithCause | internal/reliable/reliable.go:486-597 | in every run Read waits exactly while nothing is buffered and neither CloseRead nor Close was called, and ends with the last cause given to CloseRead or else the end of the stream |
| ReliableAcks.AcksAreConserved | internal/reliable/reliable.go:293-475 | in every run the acks sent so far followed by those pending are exactly, in order, the packet-ids the layer came to owe acks for |
| ReliableAcks.PacketsAreSigned | internal/reliable/reliable.go:293-371 | in every run each event's packets carry the session-id, the key-id in force, the peer's session-id and the oldest pending acks, eight to a packet where there are so many |
| ReliableAcks.AckClock | internal/reliable/reliable.go:308-370 | the timestamp of pending acks is that of the event that made the first of them owed, and changes only when a full channel sends them back |
| ReliableProgress.AckTakenIn | internal/reliable/reliable.go:392-399 | a standalone ack from the peer settles exactly the messages it names, credits the older ones, and touches nothing else |
| ReliableProgress.TickFlushesAcks | internal/reliable/reliable.go:635-645 | with nothing due, a standalone ack with the oldest acks goes out exactly when acks waited 20 ms or are eight and the channel has room |
| ReliableProgress.SoftResetUsesNewKeyId | internal/reliable/reliable.go:249-263 | the soft reset leaves under the new key-id while the layer keeps its own |
| ReliableInvariants.EmitFrame | internal/reliable/reliable.go:293-321 | a full channel leaves the ack list unchanged; otherwise one packet carrying the drained acks is appended |
| ReliableInvariants.StandaloneAckFrame | internal/reliable/reliable.go:328-352 | the same for standalone acks |
| ReliableInvariants.RestoreUndoesDrain | internal/reliable/reliable.go:308-319 | pushing drained acks back restores list, set and the presence of the timestamp |
| ReliableInvariants.HandleInboundInv | internal/reliable/reliable.go:375-451 | any inbound packet keeps the layer's invariants |
| ReliableInvariants.TickInv | internal/reliable/reliable.go:602-646 | Tick keeps them and touches nothing but acks, channel and attempt counters |
| ReliableInvariants.EnqueueInv | internal/reliable/reliable.go:267-283 | enqueueing keeps them and adds exactly one message |
| ReliableInvariants.DeliverChainInv | internal/reliable/reliable.go:428-436 | draining the reorder buffer forgets nothing and leaves it strictly above the next packet-id |
| ReliableInvariants.RxBufferBound | internal/reliable/reliable.go:438-447 | at most 63 buffered bodies, never the next one due |
| ReliableClass.Layer.constructor | internal/reliable/reliable.go:175-194 | a new, open layer without a peer, with nothing queued, buffered or owed and a channel of 64 when no size is given |
| ReliableClass.Layer.DrainAcks | internal/reliable/reliable.go:356-371 | the ack-draining loop makes the transition of the model |
| ReliableClass.Layer.RestoreAcks | internal/reliable/reliable.go:309-319 | so does the push-back loop |
| ReliableClass.Layer.Emit | internal/reliable/reliable.go:293-321 | so does the non-blocking send |
| ReliableClass.Layer.EmitStandaloneAck | internal/reliable/reliable.go:328-352 | so does the standalone ack |
| ReliableClass.Layer.EnqueueAndEmit | internal/reliable/reliable.go:267-283 | so does enqueueing, failing only on a full queue |
| ReliableClass.Layer.SendHardReset | internal/reliable/reliable.go:234-244 | transition and error cases of the hard reset |
| ReliableClass.Layer.SendSoftReset | internal/reliable/reliable.go:249-263 | transition and error cases of the soft reset |
| ReliableClass.Layer.AckOne | internal/reliable/reliable.go:458-464 | removal and the crediting loop over the queue equal the map of the model |
| ReliableClass.Layer.AckAll | internal/reliable/reliable.go:392-405 | the loop over a packet's acks equals their fold |
| ReliableClass.Layer.AddPendingAck | internal/reliable/reliable.go:466-475 | transition of recording an ack once |
| ReliableClass.Layer.DeliverBuffered | internal/reliable/reliable.go:428-436 | the drain loop equals the recursive chain |
| ReliableClass.Layer.ReceiveMessage | internal/reliable/reliable.go:410-450 | dedupe, deliver, buffer or drop as in the model |
| ReliableClass.Layer.HandleInbound | internal/reliable/reliable.go:375-451 | whole transition; Closed on a closed layer, SessionIdMismatch for a known peer's rival, no error otherwise |
| ReliableClass.Layer.Read | internal/reliable/reliable.go:486-501 | returns a prefix of the read buffer and keeps the rest, or the recorded error |
| ReliableClass.Layer.Write | internal/reliable/reliable.go:509-559 | from one wait to the next: the chunk loop makes the steps of the model and stops only when it must wait or has returned |
| ReliableClass.Layer.CloseRead | internal/reliable/reliable.go:563-577 | transition of closing the read side |
| ReliableClass.Layer.Close | internal/reliable/reliable.go:581-597 | idempotent close that keeps an earlier error |
| ReliableClass.Layer.RetransmitDue | internal/reliable/reliable.go:610-633 | the retransmit loop in any visiting order equals the model |
| ReliableClass.Layer.Tick | internal/reliable/reliable.go:602-646 | whole transition for some order of the map iteration; without an error exactly the packets with three higher acks or 1, 2, 4, 8, 16, ... s since their last transmission are resent |
| Replay.ReplayWindow.Accept | internal/data/replay.go:53-78 | succeeds exactly on a packet-id that is non-zero and above the highest or inside the window and not yet accepted, and records it; for every size |
| Replay.ReplayWindow.Test | internal/data/replay.go:84-99 | predicts Accept without changing anything |
| Replay.ReplayWindow.ShiftLeft | internal/data/replay.go:116-138 | the in-place word loop moves the whole bit string up by the shift, for sizes that are no multiple of 64 too |
| Replay.ReplayWindow.constructor | internal/data/replay.go:42-48 | an empty window, of 1024 packets when no size is given |
| Replay.PidWindow.Accept | internal/tlscrypt/v1.go:203-230 | the one-word window accepts exactly the fresh packet-ids of a 64-packet window |
| Replay.PidWindow.Test | internal/tlsauth/tlsauth.go:270-281 | predicts Accept; the tls-auth and tls-crypt windows have the same code |
| Replay.RunSideBySide | internal/tlsauth/tlsauth.go:239-281 | on every call sequence a 64-packet bitmap, the one-word window and Test give the same answers |
| Replay.AcceptedExactly | internal/data/replay.go:53-78 | in every call sequence a packet-id is accepted exactly if it is not zero, differs from each one accepted before and lies less than the size behind each |
| Replay.NeverAcceptedTwice | internal/data/replay.go:50-52 | in every call sequence, at every size, no packet-id is accepted twice |
| Replay.TruncationIsExact | internal/data/replay.go:66-67 | comparing with 32 bits leaves all answers to all call sequences on a new window alone if and only if the size is below 2^32 or congruent to 2^32 - 1 |
| Replay.TruncationRefuses | internal/data/replay.go:66-67 | for every other size, the second call of two that is refused for it |
| WordBits.ShiftedWordBits | internal/data/replay.go:125-137 | combining two shifted neighbours shifts the bit string across word borders |
| WordBits.MaskTestsBit | internal/data/replay.go:70-75 | the mask test reads exactly one bit |
| WordBits.WithBitBits | internal/data/replay.go:63-75 | or-ing the mask sets exactly one bit |
| DataSlot.Slot.Seal | internal/data/slot.go:169-209 | draws the next packet-id and refuses from 2^31 on; otherwise a packet of 72 + key-id, peer-id, packet-id, tag, ciphertext, sealed under packet-id and implicit IV with the first eight bytes authenticated |
| DataSlot.Slot.Open | internal/data/slot.go:220-270 | result for every packet and window; success records the packet-id, any failure leaves the window as it was |
| DataSlot.Slot.OpenInto | internal/data/slot.go:281-317 | the same result appended to the destination, so with an empty one it agrees with Open |
| DataSlot.MoveTagToBack | internal/data/slot.go:251-254 | the three overlapping copies turn tag and ciphertext into ciphertext and tag |
| DataSlot.OpenUndoesSeal | internal/data/slot.go:220-270 | opening what the mirrored slot sealed returns the plaintext exactly when the key-id fits three bits and the packet-id is fresh, and otherwise names that reason |
| DataSlot.SealOpenOpen | internal/data/slot.go:215-219 | seal, open, open again: plaintext if fresh, then always refused as a replay |
| DataSlot.SealMany | internal/data/slot.go:169-173 | a fresh slot draws 1, 2, 3, ... modulo 2^32 and refuses from 2^31 on |
| DataSlot.SealsIncrease | internal/data/slot.go:102-105 | within fewer than 2^32 calls successful packet-ids strictly increase in 1..2^31-1, and a refusal is followed only by refusals |
| DataSlot.NoncesDistinctUntilWrap | internal/data/slot.go:97-105 | successful seals of a run use pairwise different nonces if and only if it has at most 2^32 calls |
| DataSlot.NonceLayout | internal/data/aead.go:77-85 | the nonce is the packet-id, most significant byte first, then the implicit IV, and nothing else reads like that |
| DataSlot.OpenDecides | internal/data/slot.go:220-270 | which error each packet gets, by its bytes and in order, and what nonce, ciphertext, tag and additional data the AEAD is asked about |
| DataSlot.WhichCallsSeal | internal/data/slot.go:169-173 | the k-th call on a new slot seals if and only if k + 1 modulo 2^32 is below 2^31 |
| DataSlot.NewSlot | internal/data/slot.go:136-157 | refuses a peer-id of more than 24 bits, otherwise a fresh slot with the given keys, IVs and window size and an empty window |
| RekeyShutdown.NothingLeftOpen | internal/session/session.go:1010-1030 | once Close has returned and no rekey runs, every layer ever installed and every connection handed over is closed, in every interleaving |
| RekeyShutdown.ActiveIsSafe | internal/session/tables.go:28-47 | at all times the active slot is in its table and no pending retirement aims at it; while the session is open its layer is registered, open and not aimed at |
| RekeyShutdown.ActiveSlotStands | internal/session/tables.go:37-47 | in every run the slot in use is the one installed last under the active key-id and has not been retired, whatever older slots of that key-id were retired late |
| RekeyShutdown.TablesAreHistories | internal/session/rekey.go:196-353 | in every run both tables are what their operations so far, in order, make of them |
| RekeyShutdown.OnlySwitchChangesActive | internal/session/rekey.go:303-308 | failed and rejected rekeys and timers leave the active slot and its layer alone |
| RekeyShutdown.StepInv | internal/session/rekey.go:172-353 | every action of rekey, Close, timers and panics keeps the session invariant |
| RekeyShutdown.RekeyInstallLayerInv | internal/session/rekey.go:200-216 | installing the new layer keeps every layer accounted for, the displaced one included |
| RekeyShutdown.RekeyRetireRejectedInv | internal/session/rekey.go:217-224 | a rejected pump retires the layer the retire-all loop may have missed |
| RekeyShutdown.RekeyRetireFailedInv | internal/session/rekey.go:229-301 | every failure path retires only the new key-id's layer |
| RekeyShutdown.RekeyInstallConnInv | internal/session/session.go:774-790 | handing over a connection keeps every connection closed, current or about to be closed, whether or not Close has begun |
| RekeyRetirement.TimerHoldsTheOld | internal/session/rekey.go:303-324 | in every run a rekey that has switched ends by arming one timer for the very slot that was in use at the switch and the very layer, unless Close took the layer off meanwhile |
| RekeyRetirement.TimersDo | internal/session/rekey.go:328-353 | in every run a timer that is done has its slot and layer out of the tables and the layer closed or the session closed, unless the workers were shut down first |
| RekeyRetirement.OldSlotIsGone | internal/session/rekey.go:336 | once a timer's slot action has run, its slot is in the table at no later moment |
| RekeyRetirement.OldLayerIsGone | internal/session/rekey.go:337-353 | once a timer's layer action has run, its layer is in the table at no later moment, and closed or the session is |
| RekeyRetirement.TimerClosesItsLayer | internal/session/rekey.go:349-353 | a layer a timer took off the table is closed by it |
| RekeyRetirement.FailedRekeyLeavesNothing | internal/session/rekey.go:217-301 | in every run a rekey that ends without switching leaves its layer out of the table and closed, or just being closed by Close, and the slot in use as it was |
| RekeyRetirement.DisplacedIsClosed | internal/session/rekey.go:211-216 | the layer a new one displaces from its key-id is closed before the rekey goes on |
| RekeyRetirement.SwitchTakesTheNew | internal/session/rekey.go:196-308 | a rekey switches to the next key-id, to the slot it installed there and, while the session is open, to the layer it installed there |
| RekeyRetirement.ActiveCountsSwitches | internal/session/tables.go:124-133 | in every run the k-th successful rekey puts key-id (k - 1) mod 7 + 1 in use |
| RekeyShutdown.CloseRetireInv | internal/session/session.go:1012-1018 | behind the retire-all loop only a layer still waiting for its pumps can be in the table |
| RekeyShutdown.CloseTakeConnInv | internal/session/session.go:1024-1030 | taking the current connection leaves none unaccounted for |
| RekeyShutdown.TimerSlotInv | internal/session/tables.go:41-47 | identity-checked retirement never removes the active slot |
| RekeyShutdown.TimerLayerInv | internal/session/rekey.go:328-353 | identity-checked retirement never removes the active layer or one in the making |
| SessionTables.KeyIdsRecycle | internal/session/tables.go:124-133 | key-ids run 0, 1, ..., 7 and then repeat 1 to 7 |
| SessionTables.NextKeyIdMoves | internal/session/tables.go:127-133 | the next key-id differs from the current one and is never 0 |
| SessionTables.LookupFindsWhatStands | internal/session/tables.go:28-47 | a table built by any operations holds an object if and only if it was registered and neither displaced nor retired by name since |
| SessionTables.SlotTable.Install | internal/session/tables.go:28-35 | registers a slot and optionally makes it active |
| SessionTables.SlotTable.RetireIf | internal/session/tables.go:41-47 | removes an entry only if it is the expected object |
| SessionTables.SlotTable.Get | internal/session/tables.go:50-54 | after any sequence of calls, finds exactly the slot installed last under the key-id unless that very slot was retired since |
| SessionTables.LayerTable.Install | internal/session/tables.go:86-94 | registers a layer and returns a different one it displaced |
| SessionTables.LayerTable.RetireIf | internal/session/tables.go:98-106 | removes and returns a layer only if it is the expected object |
| SessionTables.LayerTable.Get | internal/session/tables.go:109-113 | after any sequence of calls, finds exactly the layer installed last under the key-id unless it was taken off since; retirements of other layers do not count |
| SessionTables.LayerTable.Retire | internal/session/tables.go:116-122 | removes and returns whatever layer is there |
| SessionTables.Manager.Go | internal/workers/workers.go:110-149 | counts a worker in exactly when shutdown has not begun |
| SessionTables.Manager.WorkerReturns | internal/workers/workers.go:127-147 | counts a worker out; a panic begins shutdown |
| SessionTables.Manager.Shutdown | internal/workers/workers.go:158-165 | from then on no worker is accepted |
| DnsNames.BuildDnsQuery | cmd/openvpn2socks/resolver.go:658-682 | accepts exactly names of 1..253 bytes with labels of 1..63 bytes and lays out header, labels and question |
| DnsNames.SplitLabels | cmd/openvpn2socks/resolver.go:685-700 | the label iterator yields the dot-separated labels, a trailing dot adding none |
| DnsNames.SkipName | cmd/openvpn2socks/resolver.go:855-873 | the position after a name, or why there is none |
| DnsNames.DecodeName | cmd/openvpn2socks/resolver.go:880-933 | terminates on every buffer by remaining jumps and bytes, and returns the walk's name and end |
| DnsNames.DecodeAgreesWithSkip | cmd/openvpn2socks/resolver.go:875-879 | whenever a name decodes, skipping it ends at the same position |
| DnsNames.DecodesExactly | cmd/openvpn2socks/resolver.go:880-933 | a name decodes to exactly what its bytes spell: labels of 1 to 63 bytes and at most 32 pointers (192 or more, then 14 bits of position) to earlier positions, up to a zero byte, 253 bytes joined |
| DnsNames.JoinedName | cmd/openvpn2socks/resolver.go:918-929 | labels are joined with a dot between each two, A to Z lowered |
| DnsNames.CanonicalNameIs | cmd/openvpn2socks/resolver.go:935-951 | a canonical name has one trailing dot less and A to Z lowered, every other byte as it was |
| DnsNames.SkipExactly | cmd/openvpn2socks/resolver.go:855-873 | where skipping a name ends: behind its zero byte or behind the two bytes of its first pointer |
| DnsNames.QueryOnWire | cmd/openvpn2socks/resolver.go:662-682 | id, recursion desired, one question, then the name, a zero byte, the type, class IN |
| DnsNames.PlainNameDecodes | cmd/openvpn2socks/resolver.go:855-933 | a name without pointer that can be skipped decodes if and only if no length is above 63 and it joins to at most 253 bytes |
| DnsNames.WalkJumps | cmd/openvpn2socks/resolver.go:895-912 | a pointer is followed if and only if it leads backwards and jumps are left; what follows is decided at its target with one jump fewer |
| DnsNames.SkipAcceptsMore | cmd/openvpn2socks/resolver.go:913-915 | every length byte with top bits 01 or 10 is stepped over by skipping and refused by decoding |
| DnsNames.PointersCanCycle | cmd/openvpn2socks/resolver.go:904-910 | backward pointers alone do not end the walk; the jump limit does |
| DnsNames.DecodeUndoesBuild | cmd/openvpn2socks/resolver.go:935-944 | decoding the question of any query that can be built returns the canonical name and the position four bytes before the end |
| DnsNames.JoinOfLabels | cmd/openvpn2socks/resolver.go:937-944 | joining the lower-cased labels of a name gives its canonical form |
| DnsAnswers.AcceptedNames | cmd/openvpn2socks/resolver.go:793-808 | the fixpoint holds exactly the names reachable along CNAME records, within one round more than there are records |
| DnsAnswers.ReachableIsLeast | cmd/openvpn2socks/resolver.go:793-808 | the reachable names are the least set with the query's name that no CNAME record with a target leads out of |
| DnsAnswers.OrderDoesNotMatter | cmd/openvpn2socks/resolver.go:793-851 | permuting the records keeps the reachable names, permutes the addresses found, and keeps the error when there are none |
| DnsAnswers.SelectAddresses | cmd/openvpn2socks/resolver.go:810-834 | exactly the well-sized records of the wanted type under a reachable owner, in order, and whether any had another owner |
| DnsAnswers.AddressesMembership | cmd/openvpn2socks/resolver.go:812-834 | an address is selected if and only if such a record carries it |
| DnsMessage.HeaderDecides | cmd/openvpn2socks/resolver.go:707-739 | each header error is returned exactly when its own bytes are wrong and the earlier ones right; past them come other errors only |
| DnsMessage.ReadsWhatItHolds | cmd/openvpn2socks/resolver.go:740-791 | a response is read as a list of records if and only if its header passes and it holds exactly these behind as many questions, as many as bytes 4 to 7 say |
| DnsMessage.TrustedAddresses | cmd/openvpn2socks/resolver.go:707-851 | a verdict means the header passed, and the addresses are exactly those that well-sized records of the wanted type tie to the name by CNAME records, or it says why there are none |
| DnsMessage.ReadRecords | cmd/openvpn2socks/resolver.go:707-791 | the records the response holds, if its header passes, and otherwise the first error |
| DnsAnswers.ReadAnswerSection | cmd/openvpn2socks/resolver.go:765-791 | owner, type, data and CNAME target of every record |
| DnsMessage.ParseDnsAnswers | cmd/openvpn2socks/resolver.go:707-851 | the trusted addresses, or owner mismatch, or authoritative absence, none of them for another query's or an erroneous response, or the parse error |
| ConnRate.RateBound | cmd/openvpn2socks/connrate.go:77-112 | on every non-decreasing clock at most 8 + 2 (t - s) connects to one address stamped in [s, t] are granted between resets, from every well-formed state |
| ConnRate.RateBoundExactly | cmd/openvpn2socks/connrate.go:79-112 | that bound holds on all schedules with lag D if and only if D <= 1/2 |
| ConnRate.LaggingRateBound | cmd/openvpn2socks/connrate.go:79-112 | for every lag D up to 148 s at most max(0, 2 D - 1) more are granted |
| ConnRate.LagBreaksRateBound | cmd/openvpn2socks/connrate.go:79-112 | for every lag above 1/2, a schedule with nine grants where the bound is below nine |
| ConnRate.CollectionIsInvisible | cmd/openvpn2socks/connrate.go:84-87 | with a non-decreasing clock the limiter answers every schedule as one that never collects |
| ConnRate.CollectionIsInvisibleExactly | cmd/openvpn2socks/connrate.go:79-122 | so it does on all schedules with lag D if and only if D <= 148 |
| ConnRate.LagRevealsCollection | cmd/openvpn2socks/connrate.go:79-122 | for every lag above 148 s, a schedule from a new limiter on which collection shows |
| ConnRate.BucketsAreRecent | cmd/openvpn2socks/connrate.go:84-122 | on a non-decreasing clock no bucket is kept that was last touched more than 330 s ago |
| ConnRate.CollectsWhen | cmd/openvpn2socks/connrate.go:84-122 | collection happens exactly in calls more than 30 s after the last one, and drops exactly the buckets not touched for more than 300 s |
| ConnRate.ReachableIsWellFormed | cmd/openvpn2socks/connrate.go:79-136 | every schedule, resets included, leads to a well-formed state |
| ConnRate.GrantedByLevel | cmd/openvpn2socks/connrate.go:107-111 | a connect is granted exactly when its address has a whole token, whatever is collected on the way |
| ConnRate.DrawCostsOneToken | cmd/openvpn2socks/connrate.go:95-110 | a granted connect costs one token of its own address, which refills at two a second up to eight |
| ConnRate.BurstOfEight | cmd/openvpn2socks/connrate.go:31-34 | a new address is granted eight connects at one instant and no ninth |
| ConnRate.IdleIsFull | cmd/openvpn2socks/connrate.go:46-49 | a bucket last refilled four seconds ago or more equals a fresh one |
| ConnRate.ConnRateLimiter.Allow | cmd/openvpn2socks/connrate.go:79-112 | collect when due, refill, spend: the transition and answer of the model |
| ConnRate.ConnRateLimiter.Gc | cmd/openvpn2socks/connrate.go:116-122 | the deletion loop keeps exactly the buckets touched in the last five minutes |
| ConnRate.ConnRateLimiter.Reset | cmd/openvpn2socks/connrate.go:131-136 | drops every bucket |
| ClientSwap.ReportsAreTotals | openvpn.go:560-578 | every counter a report loads is the sum over all sessions installed so far, the current one live and each replaced one once with a value it had during its own swap |
| ClientSwap.AbsorbedCountersAreReal | openvpn.go:580-602 | each absorbed counter of each replaced session was read from that session between its swap's lock and commit, so it lies between the counter's values at these two moments |
| ClientSwap.ReportsNeverDecrease | openvpn.go:1014-1036 | reported counters never decrease, in any interleaving with swaps and counting |
| ClientSwap.HooksAreOrdered | openvpn.go:640-647 | hook dispatches never overlap and see sessions in strictly increasing order of installation |
| ClientSwap.NewestHooksAreKept | openvpn.go:857-867 | the newest session's hooks are dispatched, waiting, or their reconnect still holds its lock |
| ClientSwap.QuietAfterClose | openvpn.go:640-647 | after Close no dispatch of hooks begins, and no reconnect that was not under way |
| ClientSwap.OnlyOneReplaces | openvpn.go:874-887 | a reconnect begins only for the session in use and only on an open client; other callers change nothing |
| ClientSwap.StepInv | openvpn.go:874-1058 | every atomic section keeps the client invariant: accumulated counters are those of the replaced sessions, what is absorbed lies between the counters at the lock and the counters now, no report exceeds the next, hooks in order |
| ClientSwap.SwapCommitInv | openvpn.go:1021-1036 | the totals after the swap are those before plus the new session's counts, less only what the old one counted after its counter was read, and never below what it had at the lock |
| ClientSwap.Client.FoldStats | openvpn.go:595-602 | adds every counter |
| ClientSwap.Client.Stats | openvpn.go:560-578 | accumulated plus live counters |
| ClientSwap.Client.Swap | openvpn.go:1021-1036 | totals after a swap are the totals before plus what the new session has counted |
| Proto.OpcodeRoundTrip | internal/proto/opcodes.go:65-75 | opcode and key-id survive packing exactly when they fit five and three bits |
| Proto.HeaderByte | internal/proto/opcodes.go:71-75 | the opcode is the upper five bits, the key-id the lower three |
| Proto.ControlPayloadLayout | internal/proto/header.go:66-87 | number of acks, acks, session-id if there are any, packet-id, body, at their positions and most significant byte first |
| Proto.AckPayloadLayout | internal/proto/header.go:132-146 | number of acks, acks, session-id, at their positions |
| Proto.DataHeaderLayout | internal/proto/header.go:185-189 | 72 + key-id, three bytes of peer-id, four of packet-id |
| Proto.DataHeaderRead | internal/proto/header.go:192-205 | what is read off each position of a data header, or the error |
| Proto.MarshalControlPayload | internal/proto/header.go:66-87 | the encoding of a control payload, refused above 255 acks |
| Proto.ParseControlPayload | internal/proto/header.go:90-122 | accepts every buffer long enough for its ack count and returns the one canonical payload that encodes to it |
| Proto.ControlBytesInjective | internal/proto/header.go:51-54 | encodings are equal exactly when the payloads mean the same on the wire |
| Proto.ControlRoundTrip | internal/proto/header.go:66-122 | parse undoes marshal, minus a remote session-id without acks |
| Proto.MarshalAckPayload | internal/proto/header.go:132-146 | the encoding of an ack payload, refused for 0 and for more than 255 acks |
| Proto.ParseAckPayload | internal/proto/header.go:149-170 | reads an ack payload off the front; marshalling it gives the buffer back exactly when nothing follows |
| Proto.AckRoundTrip | internal/proto/header.go:132-170 | parse undoes marshal, whatever follows |
| Proto.HeaderRoundTrip | internal/proto/header.go:185-205 | the data header comes back with key-id modulo 8 and peer-id modulo 2^24 |
| Proto.HeaderRoundTripBack | internal/proto/header.go:192-205 | an accepted header encodes to the bytes it was read from |
| KeyMethod2.MarshalKeyMethod2 | internal/proto/keymethod2.go:56-104 | succeeds exactly on strings without NUL that fit their length field, and lays the message out |
| KeyMethod2.MessageLayout | internal/proto/keymethod2.go:56-104 | where everything stands in a marshalled message: zeros, 2, pre-master from a client, both randoms, and the four strings with length and NUL |
| KeyMethod2.FixedErrors | internal/proto/keymethod2.go:113-137 | exactly which inputs have a readable fixed part, a wrong prefix, a wrong method |
| KeyMethod2.TakenWhereItStands | internal/proto/keymethod2.go:165-217 | a string is taken exactly where it stands, or where its absence is allowed |
| KeyMethod2.ValidateString | internal/proto/keymethod2.go:219-229 | exactly the strings of at most 65534 bytes without NUL |
| KeyMethod2.ParseKeyMethod2 | internal/proto/keymethod2.go:113-163 | what the buffer parser reads off any buffer, error cases included |
| KeyMethod2.ReadLengthPrefixed | internal/proto/keymethod2.go:167-217 | one length-prefixed string, absent ones allowed or not |
| KeyMethod2.ReadKeyMethod2 | internal/control/messages.go:27-71 | what the stream reader reads and where it leaves the stream |
| KeyMethod2.ReadLengthString | internal/control/messages.go:79-99 | one string off the stream, at most 16384 bytes with its NUL |
| KeyMethod2.DecodeEncode | internal/proto/keymethod2.go:56-163 | decoding undoes encoding under any policy whose limits the strings fit: no pre-master from a server, blank credentials without authentication |
| KeyMethod2.DecodersAgree | internal/control/messages.go:23-99 | for every input: what the buffer parser accepts the reader accepts if and only if all four length fields are at most 16384; what the reader accepts the parser accepts if and only if the options length is not zero; where both accept, same message, same end |
| KeyMethod2.LongStringsOnlyInBuffer | internal/control/messages.go:79-99 | every marshalled message with a string of 16384 bytes or more is accepted by the parser and refused by the reader |
| KeyMethod2.NoOptionsOnlyInStream | internal/proto/keymethod2.go:199-217 | a message without options is accepted by the reader and refused by the parser |
| KeyMethod2.KeyMethod2RoundTrip | internal/control/messages.go:27-99 | marshal, then parse and stream-read: both recover any message with strings under 16384 bytes |

## Left out

- Cryptography: AES, ChaCha20, HMAC, TLS and key derivation; the AEAD is any pair of functions with the round-trip and the length law.
- Liveness: no guarantee that a packet is eventually delivered or a waiting call wakes up; condition variables appear only as guards.
- Wrap-around of message counters: the reliability runs issue fewer than 2^32 messages per side; the step functions themselves wrap.
- Clock: read once per section under the lock; the code reads it again when it pushes acks back, which moves only their timestamp.
- Pool buffers: sealing starts from a buffer of arbitrary content; returning buffers to the pool is not modelled.
- Dialling: the rekey model starts from an established session; a failed dial's own cleanup is not modelled.
- Reconnect policy: backoff, attempt limits and the stall counter are reduced to a reconnect that may give up at any time before its swap.
- Timestamps in Stats: only the six counters and the reconnect count are modelled.
- Floating point: tokens and times are real numbers.
- Transports, SOCKS server, profile and push-reply parsing, keepalive watchdogs, tracing: plumbing or shallow branching, not part of this model.
