/** Rekeying, delayed retirement and Close on one session, interleaved at will.
    Every action below is one atomic section of the code: a table operation under
    its lock, an atomic load or store, the closing of one object. */
module RekeyShutdown {
  import opened Bytes
  import opened SessionTables

  /** Layers and slots are told apart by number, in order of creation.  The TLS
      connection running over a layer carries that layer's number; closing the
      connection closes the layer, whose adapter it owns. */
  type Id = nat

  /** Where a running PerformSoftReset stands. */
  datatype RekeyPc =
    | Idle
    | Began(prev: Kid, next: Kid)
    | LayerIn(prev: Kid, next: Kid, layer: Id, displaced: Option<Id>)
    | Pumping(prev: Kid, next: Kid, layer: Id)
    | HalfPumped(prev: Kid, next: Kid, layer: Id, okWrite: bool)
    | Rejected(next: Kid, layer: Id)
    | Handshaking(prev: Kid, next: Kid, layer: Id)
    | Failing(next: Kid)
    | Retired(gone: Option<Id>)
    | SlotIn(prev: Kid, next: Kid, layer: Id)
    | Switched(prev: Kid, layer: Id)
    | ConnIn(prev: Kid, toClose: Option<Id>)
    | Scheduling(prev: Kid)
    | GotSlot(prev: Kid, slot: Option<Id>)

  /** Where Close stands. */
  datatype ClosePc =
    | NotCalled
    | Flagged
    | Retiring(kid: nat)
    | RetireClosing(kid: nat, layer: Id)
    | ConnClosing(conn: Id)
    | Finished

  /** A retirement timer with the exact objects it was armed for. */
  datatype TimerPc = Armed | SlotDone | Holding | Done

  datatype Timer = Timer(kid: Kid, slot: Option<Id>, layer: Option<Id>, pc: TimerPc)

  datatype State = State(
    closed: bool,
    shutdown: bool,
    layers: map<Kid, Id>,
    slots: map<Kid, Id>,
    active: Kid,
    tls: Option<Id>,
    handed: set<Id>,
    closedLayers: set<Id>,
    closedConns: set<Id>,
    nextLayer: nat,
    nextSlot: nat,
    rekey: RekeyPc,
    closer: ClosePc,
    timers: seq<Timer>)

  /** A session whose dial has completed: key-id 0 in use. */
  const INITIAL := State(false, false, map[0 := 0], map[0 := 0], 0, Some(0), {0}, {}, {}, 1, 1,
                         Idle, NotCalled, [])

  datatype Action =
    | RekeyBegin
    | RekeyInstallLayer
    | RekeyCloseDisplaced
    | RekeyStartWritePump
    | RekeyStartTickPump
    | RekeyRetireRejected
    | RekeyFail(closesConn: bool)
    | RekeyRetireFailed
    | RekeyCloseRetired
    | RekeyInstallSlot
    | RekeySwitch
    | RekeyInstallConn
    | RekeyCloseConn
    | RekeyGetOldSlot
    | RekeyArmTimer
    | CloseFlag
    | CloseShutdown
    | CloseRetire
    | CloseLayer
    | CloseTakeConn
    | CloseConn
    | WorkerPanic
    | TimerSlot(i: nat)
    | TimerLayer(i: nat)
    | TimerClose(i: nat)
    | TimerDrop(i: nat)

  predicate TimerAt(st: State, i: nat, pc: TimerPc) {
    i < |st.timers| && st.timers[i].pc == pc
  }

  predicate Enabled(st: State, a: Action) {
    match a
    case RekeyBegin => st.rekey.Idle?
    case RekeyInstallLayer => st.rekey.Began?
    case RekeyCloseDisplaced => st.rekey.LayerIn?
    case RekeyStartWritePump => st.rekey.Pumping?
    case RekeyStartTickPump => st.rekey.HalfPumped?
    case RekeyRetireRejected => st.rekey.Rejected?
    case RekeyFail(_) => st.rekey.Handshaking?
    case RekeyRetireFailed => st.rekey.Failing?
    case RekeyCloseRetired => st.rekey.Retired?
    case RekeyInstallSlot => st.rekey.Handshaking?
    case RekeySwitch => st.rekey.SlotIn?
    case RekeyInstallConn => st.rekey.Switched?
    case RekeyCloseConn => st.rekey.ConnIn?
    case RekeyGetOldSlot => st.rekey.Scheduling?
    case RekeyArmTimer => st.rekey.GotSlot?
    case CloseFlag => st.closer.NotCalled?
    case CloseShutdown => st.closer.Flagged?
    case CloseRetire => st.closer.Retiring? && st.closer.kid < KEY_IDS
    case CloseLayer => st.closer.RetireClosing?
    case CloseTakeConn => st.closer.Retiring? && st.closer.kid >= KEY_IDS
    case CloseConn => st.closer.ConnClosing?
    case WorkerPanic => true
    case TimerSlot(i) => TimerAt(st, i, Armed)
    case TimerLayer(i) => TimerAt(st, i, SlotDone)
    case TimerClose(i) => TimerAt(st, i, Holding)
    case TimerDrop(i) => TimerAt(st, i, Armed) && st.shutdown
  }

  function CloseIds(s: set<Id>, gone: Option<Id>): set<Id> {
    if gone.Some? then s + {gone.value} else s
  }

  function WithTimer(st: State, i: nat, t: Timer): State
    requires i < |st.timers|
  {
    st.(timers := st.timers[i := t])
  }

  function RekeyNext(st: State, a: Action): State
    requires Enabled(st, a)
  {
    var pc := st.rekey;
    match a
    case RekeyBegin => st.(rekey := Began(st.active, NextKeyId(st.active)))
    case RekeyInstallLayer =>
      st.(layers := st.layers[pc.next := st.nextLayer], nextLayer := st.nextLayer + 1,
          rekey := LayerIn(pc.prev, pc.next, st.nextLayer, Lookup(st.layers, pc.next)))
    case RekeyCloseDisplaced =>
      st.(closedLayers := CloseIds(st.closedLayers, pc.displaced), rekey := Pumping(pc.prev, pc.next, pc.layer))
    case RekeyStartWritePump =>
      st.(rekey := HalfPumped(pc.prev, pc.next, pc.layer, !st.shutdown))
    case RekeyStartTickPump =>
      st.(rekey := if pc.okWrite && !st.shutdown
                   then Handshaking(pc.prev, pc.next, pc.layer) else Rejected(pc.next, pc.layer))
    case RekeyRetireRejected =>
      st.(layers := RemoveIf(st.layers, pc.next, Some(pc.layer)),
          rekey := Retired(if Lookup(st.layers, pc.next) == Some(pc.layer) then Some(pc.layer) else None))
    case RekeyFail(closesConn) =>
      st.(closedLayers := if closesConn then st.closedLayers + {pc.layer} else st.closedLayers,
          rekey := Failing(pc.next))
    case RekeyRetireFailed =>
      st.(layers := st.layers - {pc.next}, rekey := Retired(Lookup(st.layers, pc.next)))
    case RekeyCloseRetired =>
      st.(closedLayers := CloseIds(st.closedLayers, pc.gone), rekey := Idle)
    case RekeyInstallSlot =>
      st.(slots := st.slots[pc.next := st.nextSlot], nextSlot := st.nextSlot + 1,
          rekey := SlotIn(pc.prev, pc.next, pc.layer))
    case RekeySwitch => st.(active := pc.next, rekey := Switched(pc.prev, pc.layer))
    case RekeyInstallConn =>
      if st.closed
      then st.(handed := st.handed + {pc.layer}, rekey := ConnIn(pc.prev, Some(pc.layer)))
      else st.(handed := st.handed + {pc.layer}, tls := Some(pc.layer), rekey := ConnIn(pc.prev, st.tls))
    case RekeyCloseConn =>
      st.(closedConns := CloseIds(st.closedConns, pc.toClose),
          closedLayers := CloseIds(st.closedLayers, pc.toClose), rekey := Scheduling(pc.prev))
    case RekeyGetOldSlot => st.(rekey := GotSlot(pc.prev, Lookup(st.slots, pc.prev)))
    case RekeyArmTimer =>
      st.(timers := st.timers + [Timer(pc.prev, pc.slot, Lookup(st.layers, pc.prev), Armed)], rekey := Idle)
    case _ => st
  }

  function CloseNext(st: State, a: Action): State
    requires Enabled(st, a)
  {
    var pc := st.closer;
    match a
    case CloseFlag => st.(closed := true, closer := Flagged)
    case CloseShutdown => st.(shutdown := true, closer := Retiring(0))
    case CloseRetire =>
      if pc.kid in st.layers
      then st.(layers := st.layers - {pc.kid}, closer := RetireClosing(pc.kid, st.layers[pc.kid]))
      else st.(closer := Retiring(pc.kid + 1))
    case CloseLayer =>
      st.(closedLayers := st.closedLayers + {pc.layer}, closer := Retiring(pc.kid + 1))
    case CloseTakeConn =>
      st.(tls := None, closer := if st.tls.Some? then ConnClosing(st.tls.value) else Finished)
    case CloseConn =>
      st.(closedConns := st.closedConns + {pc.conn}, closedLayers := st.closedLayers + {pc.conn},
          closer := Finished)
    case WorkerPanic => st.(shutdown := true)
    case _ => st
  }

  function TimerNext(st: State, a: Action): State
    requires Enabled(st, a)
  {
    match a
    case TimerSlot(i) =>
      var t := st.timers[i];
      WithTimer(st.(slots := RemoveIf(st.slots, t.kid, t.slot)), i, t.(pc := SlotDone))
    case TimerLayer(i) =>
      var t := st.timers[i];
      if t.layer.Some? && Lookup(st.layers, t.kid) == t.layer
      then WithTimer(st.(layers := st.layers - {t.kid}), i, t.(pc := Holding))
      else WithTimer(st, i, t.(pc := Done))
    case TimerClose(i) =>
      var t := st.timers[i];
      WithTimer(st.(closedLayers := CloseIds(st.closedLayers, t.layer)), i, t.(pc := Done))
    case TimerDrop(i) => WithTimer(st, i, st.timers[i].(pc := Done))
    case _ => st
  }

  predicate IsTimerAction(a: Action) {
    a.TimerSlot? || a.TimerLayer? || a.TimerClose? || a.TimerDrop?
  }

  predicate IsCloseAction(a: Action) {
    a.CloseFlag? || a.CloseShutdown? || a.CloseRetire? || a.CloseLayer? || a.CloseTakeConn? || a.CloseConn?
    || a.WorkerPanic?
  }

  function Next(st: State, a: Action): State
    requires Enabled(st, a)
  {
    if IsTimerAction(a) then TimerNext(st, a)
    else if IsCloseAction(a) then CloseNext(st, a)
    else RekeyNext(st, a)
  }

  // --- invariants ------------------------------------------------------------------

  ghost predicate Injective(m: map<Kid, Id>) {
    forall j, k :: j in m && k in m && m[j] == m[k] ==> j == k
  }

  ghost predicate TableInv(st: State) {
    && Injective(st.layers) && Injective(st.slots)
    && (forall k :: k in st.layers ==> st.layers[k] < st.nextLayer)
    && (forall k :: k in st.slots ==> st.slots[k] < st.nextSlot)
    && (forall l :: l in st.handed ==> l < st.nextLayer)
    && (forall l :: l in st.closedLayers ==> l < st.nextLayer)
    && st.closedConns <= st.closedLayers
    && (st.tls.Some? ==> st.tls.value in st.handed)
  }

  /** Close's progress: the closed flag comes first, the worker flag second. */
  ghost predicate CloseInv(st: State) {
    && (st.closed <==> !st.closer.NotCalled?)
    && (st.closer.Retiring? || st.closer.RetireClosing? || st.closer.ConnClosing? || st.closer.Finished?
        ==> st.shutdown)
    && (st.closer.ConnClosing? || st.closer.Finished? ==> st.tls == None)
    && (st.closer.RetireClosing? ==> st.closer.kid < KEY_IDS && st.closer.layer < st.nextLayer)
    && (st.closer.ConnClosing? ==> st.closer.conn in st.handed)
  }

  /** Key-ids the retire-all loop is done with. */
  predicate Passed(pc: ClosePc, k: Kid) {
    match pc
    case Retiring(j) => k < j
    case RetireClosing(j, _) => k <= j
    case ConnClosing(_) => true
    case Finished => true
    case _ => false
  }

  /** Stages in which a new layer is in the table but its pumps are not. */
  predicate Unpumped(pc: RekeyPc) {
    pc.LayerIn? || pc.Pumping? || pc.HalfPumped? || pc.Rejected?
  }

  /** Behind the retire-all loop only a layer still waiting for its pumps can be
      in the table. */
  ghost predicate PassedInv(st: State) {
    forall k :: k in st.layers && Passed(st.closer, k) ==> Unpumped(st.rekey) && st.rekey.next == k
  }

  predicate RekeyHoldsLayer(pc: RekeyPc, l: Id) {
    || (pc.LayerIn? && pc.displaced == Some(l))
    || (pc.Retired? && pc.gone == Some(l))
  }

  ghost predicate InTable(m: map<Kid, Id>, l: Id) {
    exists k :: k in m && m[k] == l
  }

  /** Every layer is closed, in the table, about to be closed by someone, or has
      a connection that will be. */
  ghost predicate LayersAccounted(st: State) {
    forall l: Id :: l < st.nextLayer ==>
      || l in st.closedLayers || InTable(st.layers, l) || l in st.handed
      || RekeyHoldsLayer(st.rekey, l)
      || (st.closer.RetireClosing? && st.closer.layer == l)
  }

  /** Every connection handed over is closed, current, or about to be closed. */
  ghost predicate ConnsAccounted(st: State) {
    forall c :: c in st.handed ==>
      || c in st.closedConns || st.tls == Some(c)
      || (st.rekey.ConnIn? && st.rekey.toClose == Some(c))
      || (st.closer.ConnClosing? && st.closer.conn == c)
  }

  /** The layer registered for a key-id has handed its connection over. */
  ghost predicate HandedAt(st: State, k: Kid) {
    k in st.layers ==> st.layers[k] in st.handed
  }

  /** A rekey between the installation of its layer and that of its connection. */
  predicate HasNewLayer(pc: RekeyPc) {
    pc.LayerIn? || pc.Pumping? || pc.HalfPumped? || pc.Rejected? || pc.Handshaking? || pc.SlotIn?
  }

  predicate BeforeSwitch(pc: RekeyPc) {
    pc.Began? || pc.LayerIn? || pc.Pumping? || pc.HalfPumped? || pc.Handshaking? || pc.SlotIn?
  }

  predicate AfterSwitch(pc: RekeyPc) {
    pc.Switched? || pc.ConnIn? || pc.Scheduling? || pc.GotSlot?
  }

  /** What a rekey in progress knows about the tables. */
  ghost predicate RekeyInv(st: State) {
    var pc := st.rekey;
    && (BeforeSwitch(pc) ==> pc.prev == st.active && pc.next == NextKeyId(st.active))
    && (pc.Rejected? || pc.Failing? ==> pc.next != st.active)
    && (AfterSwitch(pc) ==> pc.prev != st.active && HandedAt(st, pc.prev))
    && (!pc.Switched? ==> HandedAt(st, st.active))
    && (HasNewLayer(pc) || pc.Switched? ==> pc.layer < st.nextLayer && pc.layer !in st.handed)
    && (HasNewLayer(pc) ==> Lookup(st.layers, pc.next) in {None, Some(pc.layer)})
    && (pc.Switched? ==> Lookup(st.layers, st.active) in {None, Some(pc.layer)})
    && (pc.LayerIn? && pc.displaced.Some? ==>
          pc.displaced.value < st.nextLayer && !InTable(st.layers, pc.displaced.value))
    && (pc.Retired? && pc.gone.Some? ==>
          pc.gone.value < st.nextLayer && !InTable(st.layers, pc.gone.value))
    && (pc.SlotIn? ==> pc.next in st.slots)
    && (pc.ConnIn? && pc.toClose.Some? ==> pc.toClose.value in st.handed)
    && (pc.ConnIn? && pc.toClose.Some? && !st.closed ==> Lookup(st.layers, st.active) != pc.toClose)
    && (pc.GotSlot? && pc.slot.Some? ==> pc.slot.value < st.nextSlot && Lookup(st.slots, st.active) != pc.slot)
  }

  /** The layer a rekey has in the making is there and open as long as the
      session is. */
  ghost predicate FreshLayerInv(st: State) {
    var pc := st.rekey;
    !st.closed && HasNewLayer(pc) ==>
      pc.next in st.layers && st.layers[pc.next] == pc.layer && pc.layer !in st.closedLayers
  }

  /** Timers aim at retired objects only: layers whose connection was handed over
      and never the active slot or layer. */
  ghost predicate TimerInv(st: State) {
    forall i :: 0 <= i < |st.timers| ==>
      var t := st.timers[i];
      && (t.slot.Some? ==> t.slot.value < st.nextSlot)
      && (t.slot.Some? ==> Lookup(st.slots, st.active) != t.slot)
      && (st.rekey.SlotIn? && t.slot.Some? ==> Lookup(st.slots, st.rekey.next) != t.slot)
      && (t.layer.Some? ==> t.layer.value in st.handed && Lookup(st.layers, st.active) != t.layer)
  }

  /** The active slot is always there; the active layer as long as the session is
      open. */
  ghost predicate ActiveInv(st: State) {
    && st.active in st.slots
    && (!st.closed ==> st.active in st.layers && st.layers[st.active] !in st.closedLayers)
  }

  ghost predicate Inv(st: State) {
    && TableInv(st) && CloseInv(st) && PassedInv(st) && LayersAccounted(st) && ConnsAccounted(st)
    && RekeyInv(st) && FreshLayerInv(st) && TimerInv(st) && ActiveInv(st)
  }

  lemma InitialInv()
    ensures Inv(INITIAL)
  {
    assert INITIAL.layers[0] == 0;
    assert InTable(INITIAL.layers, 0);
  }

  lemma InTableAfterRemove(m: map<Kid, Id>, k: Kid)
    ensures forall l :: InTable(m, l) ==> InTable(m - {k}, l) || (k in m && m[k] == l)
    ensures forall l :: InTable(m - {k}, l) ==> InTable(m, l)
  {
    forall l | InTable(m - {k}, l)
      ensures InTable(m, l)
    {
      var j :| j in m - {k} && (m - {k})[j] == l;
      assert j in m && m[j] == l;
    }
    forall l | InTable(m, l)
      ensures InTable(m - {k}, l) || (k in m && m[k] == l)
    {
      var j :| j in m && m[j] == l;
      assert j == k || (j in m - {k} && (m - {k})[j] == l);
    }
  }

  lemma InTableAfterInsert(m: map<Kid, Id>, k: Kid, v: Id)
    ensures InTable(m[k := v], v)
    ensures forall l :: InTable(m, l) ==> InTable(m[k := v], l) || (k in m && m[k] == l)
  {
    assert m[k := v][k] == v;
    forall l | InTable(m, l)
      ensures InTable(m[k := v], l) || (k in m && m[k] == l)
    {
      var j :| j in m && m[j] == l;
      assert j == k || m[k := v][j] == l;
    }
  }

  lemma StepInv(st: State, a: Action)
    requires Inv(st) && Enabled(st, a)
    ensures Inv(Next(st, a))
  {
    if IsTimerAction(a) {
      TimerStepInv(st, a);
    } else if IsCloseAction(a) {
      CloseStepInv(st, a);
    } else {
      RekeyStepInv(st, a);
    }
  }

  lemma RekeyStepInv(st: State, a: Action)
    requires Inv(st) && Enabled(st, a) && !IsTimerAction(a) && !IsCloseAction(a)
    ensures Inv(Next(st, a))
  {
    match a
    case RekeyBegin => RekeyBeginInv(st, a);
    case RekeyInstallLayer => RekeyInstallLayerInv(st, a);
    case RekeyCloseDisplaced => RekeyCloseDisplacedInv(st, a);
    case RekeyStartWritePump => RekeyStartWritePumpInv(st, a);
    case RekeyStartTickPump => RekeyStartTickPumpInv(st, a);
    case RekeyRetireRejected => RekeyRetireRejectedInv(st, a);
    case RekeyFail(_) => RekeyFailInv(st, a);
    case RekeyRetireFailed => RekeyRetireFailedInv(st, a);
    case RekeyCloseRetired => RekeyCloseRetiredInv(st, a);
    case RekeyInstallSlot => RekeyInstallSlotInv(st, a);
    case RekeySwitch => RekeySwitchInv(st, a);
    case RekeyInstallConn => RekeyInstallConnInv(st, a);
    case RekeyCloseConn => RekeyCloseConnInv(st, a);
    case RekeyGetOldSlot => RekeyGetOldSlotInv(st, a);
    case RekeyArmTimer => RekeyArmTimerInv(st, a);
  }

  lemma CloseStepInv(st: State, a: Action)
    requires Inv(st) && Enabled(st, a) && IsCloseAction(a)
    ensures Inv(Next(st, a))
  {
    match a
    case CloseFlag => CloseFlagInv(st, a);
    case CloseShutdown => CloseShutdownInv(st, a);
    case CloseRetire => CloseRetireInv(st, a);
    case CloseLayer => CloseLayerInv(st, a);
    case CloseTakeConn => CloseTakeConnInv(st, a);
    case CloseConn => CloseConnInv(st, a);
    case WorkerPanic => WorkerPanicInv(st, a);
  }

  lemma CloseFlagInv(st: State, a: Action)
    requires Inv(st) && Enabled(st, a) && a.CloseFlag?
    ensures Inv(Next(st, a))
  {
  }

  lemma CloseShutdownInv(st: State, a: Action)
    requires Inv(st) && Enabled(st, a) && a.CloseShutdown?
    ensures Inv(Next(st, a))
  {
  }

  lemma CloseLayerInv(st: State, a: Action)
    requires Inv(st) && Enabled(st, a) && a.CloseLayer?
    ensures Inv(Next(st, a))
  {
  }

  lemma CloseTakeConnInv(st: State, a: Action)
    requires Inv(st) && Enabled(st, a) && a.CloseTakeConn?
    ensures Inv(Next(st, a))
  {
  }

  lemma CloseConnInv(st: State, a: Action)
    requires Inv(st) && Enabled(st, a) && a.CloseConn?
    ensures Inv(Next(st, a))
  {
  }

  lemma WorkerPanicInv(st: State, a: Action)
    requires Inv(st) && Enabled(st, a) && a.WorkerPanic?
    ensures Inv(Next(st, a))
  {
  }

  lemma TimerStepInv(st: State, a: Action)
    requires Inv(st) && Enabled(st, a) && IsTimerAction(a)
    ensures Inv(Next(st, a))
  {
    match a
    case TimerSlot(_) => TimerSlotInv(st, a);
    case TimerLayer(_) => TimerLayerInv(st, a);
    case TimerClose(_) => TimerCloseInv(st, a);
    case TimerDrop(_) =>
  }

  lemma RekeyBeginInv(st: State, a: Action)
    requires Inv(st) && Enabled(st, a) && a.RekeyBegin?
    ensures Inv(Next(st, a))
  {
    NextKeyIdMoves(st.active);
  }

  lemma RekeyInstallLayerInv(st: State, a: Action)
    requires Inv(st) && Enabled(st, a) && a.RekeyInstallLayer?
    ensures Inv(Next(st, a))
  {
    InstallLayerTables(st, a);
    InstallLayerAccounted(st, a);
    InstallLayerRekey(st, a);
    InstallLayerRest(st, a);
  }

  lemma InstallLayerTables(st: State, a: Action)
    requires TableInv(st) && CloseInv(st) && PassedInv(st) && Enabled(st, a) && a.RekeyInstallLayer?
    ensures TableInv(Next(st, a)) && CloseInv(Next(st, a)) && PassedInv(Next(st, a))
  {
    var st' := Next(st, a);
    assert forall k :: k in st'.layers ==> k == st.rekey.next || (k in st.layers && st'.layers[k] == st.layers[k]);
  }

  lemma InstallLayerAccounted(st: State, a: Action)
    requires LayersAccounted(st) && ConnsAccounted(st) && Enabled(st, a) && a.RekeyInstallLayer?
    ensures LayersAccounted(Next(st, a)) && ConnsAccounted(Next(st, a))
  {
    InTableAfterInsert(st.layers, st.rekey.next, st.nextLayer);
  }

  lemma InstallLayerRekey(st: State, a: Action)
    requires TableInv(st) && RekeyInv(st) && Enabled(st, a) && a.RekeyInstallLayer?
    ensures RekeyInv(Next(st, a))
  {
    NextKeyIdMoves(st.active);
    if st.rekey.next in st.layers {
      DisplacedIsGone(st.layers, st.rekey.next, st.nextLayer);
    }
  }

  lemma DisplacedIsGone(m: map<Kid, Id>, k: Kid, v: Id)
    requires Injective(m) && k in m && m[k] != v
    ensures !InTable(m[k := v], m[k])
  {
  }

  lemma InstallLayerRest(st: State, a: Action)
    requires TableInv(st) && RekeyInv(st) && FreshLayerInv(st) && TimerInv(st) && ActiveInv(st)
    requires Enabled(st, a) && a.RekeyInstallLayer?
    ensures FreshLayerInv(Next(st, a)) && TimerInv(Next(st, a)) && ActiveInv(Next(st, a))
  {
    NextKeyIdMoves(st.active);
  }

  lemma RekeyCloseDisplacedInv(st: State, a: Action)
    requires Inv(st) && Enabled(st, a) && a.RekeyCloseDisplaced?
    ensures Inv(Next(st, a))
  {
    NextKeyIdMoves(st.active);
  }

  lemma RekeyStartWritePumpInv(st: State, a: Action)
    requires Inv(st) && Enabled(st, a) && a.RekeyStartWritePump?
    ensures Inv(Next(st, a))
  {
    NextKeyIdMoves(st.active);
  }

  lemma RekeyStartTickPumpInv(st: State, a: Action)
    requires Inv(st) && Enabled(st, a) && a.RekeyStartTickPump?
    ensures Inv(Next(st, a))
  {
    NextKeyIdMoves(st.active);
  }

  lemma RekeyRetireRejectedInv(st: State, a: Action)
    requires Inv(st) && Enabled(st, a) && a.RekeyRetireRejected?
    ensures Inv(Next(st, a))
  {
    InTableAfterRemove(st.layers, st.rekey.next);
  }

  lemma RekeyFailInv(st: State, a: Action)
    requires Inv(st) && Enabled(st, a) && a.RekeyFail?
    ensures Inv(Next(st, a))
  {
    NextKeyIdMoves(st.active);
  }

  lemma RekeyRetireFailedInv(st: State, a: Action)
    requires Inv(st) && Enabled(st, a) && a.RekeyRetireFailed?
    ensures Inv(Next(st, a))
  {
    InTableAfterRemove(st.layers, st.rekey.next);
  }

  lemma RekeyCloseRetiredInv(st: State, a: Action)
    requires Inv(st) && Enabled(st, a) && a.RekeyCloseRetired?
    ensures Inv(Next(st, a))
  {
  }

  lemma RekeyInstallSlotInv(st: State, a: Action)
    requires Inv(st) && Enabled(st, a) && a.RekeyInstallSlot?
    ensures Inv(Next(st, a))
  {
    NextKeyIdMoves(st.active);
  }

  lemma RekeySwitchInv(st: State, a: Action)
    requires Inv(st) && Enabled(st, a) && a.RekeySwitch?
    ensures Inv(Next(st, a))
  {
    NextKeyIdMoves(st.active);
  }

  lemma RekeyInstallConnInv(st: State, a: Action)
    requires Inv(st) && Enabled(st, a) && a.RekeyInstallConn?
    ensures Inv(Next(st, a))
  {
    InstallConnTables(st, a);
    InstallConnAccounted(st, a);
    InstallConnRekey(st, a);
    InstallConnRest(st, a);
  }

  lemma InstallConnTables(st: State, a: Action)
    requires TableInv(st) && CloseInv(st) && PassedInv(st) && RekeyInv(st) && Enabled(st, a) && a.RekeyInstallConn?
    ensures TableInv(Next(st, a)) && CloseInv(Next(st, a)) && PassedInv(Next(st, a))
  {
  }

  /** The connection handed over is current, or about to be closed together with
      none or with the one it replaces. */
  lemma InstallConnAccounted(st: State, a: Action)
    requires CloseInv(st) && LayersAccounted(st) && ConnsAccounted(st) && Enabled(st, a) && a.RekeyInstallConn?
    ensures LayersAccounted(Next(st, a)) && ConnsAccounted(Next(st, a))
  {
  }

  lemma InstallConnRekey(st: State, a: Action)
    requires TableInv(st) && RekeyInv(st) && Enabled(st, a) && a.RekeyInstallConn?
    ensures RekeyInv(Next(st, a))
  {
  }

  lemma InstallConnRest(st: State, a: Action)
    requires FreshLayerInv(st) && TimerInv(st) && ActiveInv(st) && Enabled(st, a) && a.RekeyInstallConn?
    ensures FreshLayerInv(Next(st, a)) && TimerInv(Next(st, a)) && ActiveInv(Next(st, a))
  {
  }

  lemma RekeyCloseConnInv(st: State, a: Action)
    requires Inv(st) && Enabled(st, a) && a.RekeyCloseConn?
    ensures Inv(Next(st, a))
  {
  }

  lemma RekeyGetOldSlotInv(st: State, a: Action)
    requires Inv(st) && Enabled(st, a) && a.RekeyGetOldSlot?
    ensures Inv(Next(st, a))
  {
  }

  lemma RekeyArmTimerInv(st: State, a: Action)
    requires Inv(st) && Enabled(st, a) && a.RekeyArmTimer?
    ensures Inv(Next(st, a))
  {
  }

  lemma CloseRetireInv(st: State, a: Action)
    requires Inv(st) && Enabled(st, a) && a.CloseRetire?
    ensures Inv(Next(st, a))
  {
    CloseRetireTables(st, a);
    CloseRetirePassed(st, a);
    CloseRetireAccounted(st, a);
    CloseRetireRekey(st, a);
    CloseRetireRest(st, a);
  }

  lemma CloseRetireTables(st: State, a: Action)
    requires TableInv(st) && CloseInv(st) && Enabled(st, a) && a.CloseRetire?
    ensures TableInv(Next(st, a)) && CloseInv(Next(st, a))
  {
    var k := st.closer.kid;
    if k in st.layers {
      assert Next(st, a).layers == st.layers - {k};
      assert st.layers[k] < st.nextLayer;
    }
  }

  lemma CloseRetirePassed(st: State, a: Action)
    requires PassedInv(st) && Enabled(st, a) && a.CloseRetire?
    ensures PassedInv(Next(st, a))
  {
    var st' := Next(st, a);
    forall k | k in st'.layers && Passed(st'.closer, k)
      ensures Unpumped(st'.rekey) && st'.rekey.next == k
    {
      assert k in st.layers && k != st.closer.kid && Passed(st.closer, k);
    }
  }

  lemma CloseRetireAccounted(st: State, a: Action)
    requires LayersAccounted(st) && ConnsAccounted(st) && Enabled(st, a) && a.CloseRetire?
    ensures LayersAccounted(Next(st, a)) && ConnsAccounted(Next(st, a))
  {
    InTableAfterRemove(st.layers, st.closer.kid);
  }

  lemma CloseRetireRekey(st: State, a: Action)
    requires CloseInv(st) && RekeyInv(st) && Enabled(st, a) && a.CloseRetire?
    ensures RekeyInv(Next(st, a))
  {
    InTableAfterRemove(st.layers, st.closer.kid);
  }

  lemma CloseRetireRest(st: State, a: Action)
    requires CloseInv(st) && FreshLayerInv(st) && TimerInv(st) && ActiveInv(st) && Enabled(st, a) && a.CloseRetire?
    ensures FreshLayerInv(Next(st, a)) && TimerInv(Next(st, a)) && ActiveInv(Next(st, a))
  {
    assert st.closed;
  }

  lemma TimerSlotInv(st: State, a: Action)
    requires Inv(st) && Enabled(st, a) && a.TimerSlot?
    ensures Inv(Next(st, a))
  {
    TimerSlotSlots(st, a);
    TimerSlotRekey(st, a);
    TimerSlotLayers(st, a);
  }

  /** Identity-checked removal takes neither the active slot nor one about to
      become active. */
  lemma TimerSlotSlots(st: State, a: Action)
    requires TableInv(st) && TimerInv(st) && ActiveInv(st) && Enabled(st, a) && a.TimerSlot?
    ensures TableInv(Next(st, a)) && TimerInv(Next(st, a)) && ActiveInv(Next(st, a))
  {
    var t, st' := st.timers[a.i], Next(st, a);
    assert st'.slots == RemoveIf(st.slots, t.kid, t.slot);
    assert Lookup(st.slots, st.active) != t.slot;
    assert st'.timers == st.timers[a.i := t.(pc := SlotDone)];
  }

  lemma TimerSlotRekey(st: State, a: Action)
    requires RekeyInv(st) && TimerInv(st) && ActiveInv(st) && Enabled(st, a) && a.TimerSlot?
    ensures RekeyInv(Next(st, a))
  {
    var t, st' := st.timers[a.i], Next(st, a);
    assert st'.slots == RemoveIf(st.slots, t.kid, t.slot);
    assert Lookup(st.slots, st.active) != t.slot;
  }

  lemma TimerSlotLayers(st: State, a: Action)
    requires CloseInv(st) && PassedInv(st) && LayersAccounted(st) && ConnsAccounted(st) && FreshLayerInv(st)
    requires Enabled(st, a) && a.TimerSlot?
    ensures var st' := Next(st, a);
      CloseInv(st') && PassedInv(st') && LayersAccounted(st') && ConnsAccounted(st') && FreshLayerInv(st')
  {
    var st' := Next(st, a);
    assert st' == st.(slots := st'.slots, timers := st'.timers);
  }

  /** A timer that takes a layer off its table takes neither the active one nor
      one a rekey has in the making. */
  lemma TimerLayerTarget(st: State, i: nat)
    requires TableInv(st) && RekeyInv(st) && TimerInv(st)
    requires i < |st.timers| && st.timers[i].layer.Some?
    requires Lookup(st.layers, st.timers[i].kid) == st.timers[i].layer
    ensures st.timers[i].kid != st.active
    ensures HasNewLayer(st.rekey) ==> st.timers[i].kid != st.rekey.next
    ensures st.layers[st.timers[i].kid] in st.handed
  {
  }

  lemma RekeyInvAfterRemoval(st: State, k: Kid)
    requires RekeyInv(st) && k != st.active
    ensures RekeyInv(st.(layers := st.layers - {k}))
  {
    InTableAfterRemove(st.layers, k);
  }

  lemma RekeyInvIgnoresTimers(st: State, timers: seq<Timer>)
    requires RekeyInv(st)
    ensures RekeyInv(st.(timers := timers))
  {
  }

  lemma TimerLayerRekey(st: State, a: Action)
    requires TableInv(st) && RekeyInv(st) && TimerInv(st)
    requires Enabled(st, a) && a.TimerLayer?
    ensures RekeyInv(Next(st, a))
  {
    var t := st.timers[a.i];
    var mid := st;
    if t.layer.Some? && Lookup(st.layers, t.kid) == t.layer {
      TimerLayerTarget(st, a.i);
      RekeyInvAfterRemoval(st, t.kid);
      mid := st.(layers := st.layers - {t.kid});
    }
    RekeyInvIgnoresTimers(mid, Next(st, a).timers);
    assert Next(st, a) == mid.(timers := Next(st, a).timers);
  }

  lemma TimerLayerActive(st: State, a: Action)
    requires TableInv(st) && RekeyInv(st) && TimerInv(st) && FreshLayerInv(st) && ActiveInv(st)
    requires Enabled(st, a) && a.TimerLayer?
    ensures FreshLayerInv(Next(st, a)) && ActiveInv(Next(st, a))
  {
    var t := st.timers[a.i];
    if t.layer.Some? && Lookup(st.layers, t.kid) == t.layer {
      TimerLayerTarget(st, a.i);
    }
  }

  lemma TimerLayerAccounted(st: State, a: Action)
    requires TableInv(st) && RekeyInv(st) && TimerInv(st) && LayersAccounted(st)
    requires Enabled(st, a) && a.TimerLayer?
    ensures LayersAccounted(Next(st, a))
  {
    var t := st.timers[a.i];
    if t.layer.Some? && Lookup(st.layers, t.kid) == t.layer {
      TimerLayerTarget(st, a.i);
      InTableAfterRemove(st.layers, t.kid);
    }
  }

  /** A timer leaves the layers alone or takes off one. */
  lemma TimerLayerFrame(st: State, a: Action)
    requires Enabled(st, a) && a.TimerLayer?
    ensures var t, st' := st.timers[a.i], Next(st, a);
      && st' == st.(layers := st'.layers, timers := st'.timers)
      && (st'.layers == st.layers || st'.layers == st.layers - {t.kid})
      && |st'.timers| == |st.timers|
      && forall i :: 0 <= i < |st.timers| ==> st'.timers[i] == st.timers[i].(pc := st'.timers[i].pc)
  {
  }

  lemma TimerLayerTables(st: State, a: Action)
    requires TableInv(st) && PassedInv(st) && CloseInv(st) && ConnsAccounted(st)
    requires Enabled(st, a) && a.TimerLayer?
    ensures var st' := Next(st, a);
      TableInv(st') && PassedInv(st') && CloseInv(st') && ConnsAccounted(st')
  {
    TimerLayerFrame(st, a);
  }

  lemma TimerLayerTimers(st: State, a: Action)
    requires TimerInv(st) && Enabled(st, a) && a.TimerLayer?
    ensures TimerInv(Next(st, a))
  {
    TimerLayerFrame(st, a);
  }

  lemma TimerLayerInv(st: State, a: Action)
    requires Inv(st) && Enabled(st, a) && a.TimerLayer?
    ensures Inv(Next(st, a))
  {
    TimerLayerTables(st, a);
    TimerLayerTimers(st, a);
    TimerLayerAccounted(st, a);
    TimerLayerRekey(st, a);
    TimerLayerActive(st, a);
  }

  lemma TimerCloseInv(st: State, a: Action)
    requires Inv(st) && Enabled(st, a) && a.TimerClose?
    ensures Inv(Next(st, a))
  {
  }

  // --- runs ------------------------------------------------------------------------

  ghost predicate StepAt(states: seq<State>, actions: seq<Action>, i: nat)
    requires i < |actions| && |states| == |actions| + 1
  {
    Enabled(states[i], actions[i]) && states[i + 1] == Next(states[i], actions[i])
  }

  /** Any interleaving of rekeys, Close, worker panics and retirement timers. */
  ghost predicate IsRun(states: seq<State>, actions: seq<Action>) {
    && |states| == |actions| + 1
    && states[0] == INITIAL
    && forall i :: 0 <= i < |actions| ==> StepAt(states, actions, i)
  }

  lemma {:induction false} RunInv(states: seq<State>, actions: seq<Action>, i: nat)
    requires IsRun(states, actions) && i < |states|
    ensures Inv(states[i])
  {
    if i == 0 {
      InitialInv();
    } else {
      RunInv(states, actions, i - 1);
      assert StepAt(states, actions, i - 1);
      StepInv(states[i - 1], actions[i - 1]);
    }
  }

  /** Once Close has returned and no rekey is running, every layer ever installed
      and every connection ever handed over has been closed, even if a
      retirement timer stopped halfway. */
  lemma NothingLeftOpen(states: seq<State>, actions: seq<Action>, i: nat)
    requires IsRun(states, actions) && i < |states|
    requires states[i].closer.Finished? && states[i].rekey.Idle?
    ensures forall l: Id :: l < states[i].nextLayer ==> l in states[i].closedLayers
    ensures forall c :: c in states[i].handed ==> c in states[i].closedConns
    ensures states[i].layers == map[] && states[i].tls == None
  {
    RunInv(states, actions, i);
    var st := states[i];
    forall k: Kid
      ensures k !in st.layers
    {
      assert Passed(st.closer, k);
    }
    assert forall l :: !InTable(st.layers, l);
  }

  /** At every moment the active slot is in its table and no pending retirement
      aims at it; as long as the session is open, its layer is registered, open
      and not aimed at either. */
  lemma ActiveIsSafe(states: seq<State>, actions: seq<Action>, i: nat)
    requires IsRun(states, actions) && i < |states|
    ensures var st := states[i];
      && st.active in st.slots
      && (forall j :: 0 <= j < |st.timers| && st.timers[j].slot.Some? ==>
            st.timers[j].slot != Some(st.slots[st.active]))
      && (!st.closed ==>
            && st.active in st.layers && st.layers[st.active] !in st.closedLayers
            && forall j :: 0 <= j < |st.timers| && st.timers[j].layer.Some? ==>
                 st.timers[j].layer != Some(st.layers[st.active]))
  {
    RunInv(states, actions, i);
  }

  lemma RekeyFrame(st: State, a: Action)
    requires TableInv(st) && RekeyInv(st) && ActiveInv(st)
    requires Enabled(st, a) && !IsTimerAction(a) && !IsCloseAction(a) && !a.RekeySwitch?
    ensures var st' := Next(st, a);
      && st'.active == st.active && Lookup(st'.slots, st.active) == Lookup(st.slots, st.active)
      && Lookup(st'.layers, st.active) == Lookup(st.layers, st.active)
  {
    NextKeyIdMoves(st.active);
  }

  lemma TimerFrame(st: State, a: Action)
    requires TableInv(st) && RekeyInv(st) && TimerInv(st) && ActiveInv(st)
    requires Enabled(st, a) && IsTimerAction(a)
    ensures var st' := Next(st, a);
      && st'.active == st.active && Lookup(st'.slots, st.active) == Lookup(st.slots, st.active)
      && Lookup(st'.layers, st.active) == Lookup(st.layers, st.active)
  {
    if a.TimerLayer? && st.timers[a.i].layer.Some?
       && Lookup(st.layers, st.timers[a.i].kid) == st.timers[a.i].layer {
      TimerLayerTarget(st, a.i);
    }
  }

  /** Only the switch of a successful rekey changes which slot and layer are in
      use: failed and rejected rekeys and timers leave both alone, and so does
      Close until it begins. */
  lemma OnlySwitchChangesActive(st: State, a: Action)
    requires Inv(st) && Enabled(st, a) && !a.RekeySwitch?
    ensures var st' := Next(st, a);
      && st'.active == st.active
      && Lookup(st'.slots, st.active) == Lookup(st.slots, st.active)
      && (!st'.closed ==> Lookup(st'.layers, st.active) == Lookup(st.layers, st.active))
  {
    if IsTimerAction(a) {
      TimerFrame(st, a);
    } else if !IsCloseAction(a) {
      RekeyFrame(st, a);
    }
  }

  // --- the tables as histories -----------------------------------------------------

  /** What an action does to the layer table. */
  function LayerOps(st: State, a: Action): seq<TableOp<Id>>
    requires Enabled(st, a)
  {
    match a
    case RekeyInstallLayer => [Put(st.rekey.next, st.nextLayer)]
    case RekeyRetireRejected => [TakeIf(st.rekey.next, Some(st.rekey.layer))]
    case RekeyRetireFailed => [Take(st.rekey.next)]
    case CloseRetire => [Take(st.closer.kid)]
    case TimerLayer(i) => if st.timers[i].layer.Some? then [TakeIf(st.timers[i].kid, st.timers[i].layer)] else []
    case _ => []
  }

  /** What an action does to the slot table. */
  function SlotOps(st: State, a: Action): seq<TableOp<Id>>
    requires Enabled(st, a)
  {
    match a
    case RekeyInstallSlot => [Put(st.rekey.next, st.nextSlot)]
    case TimerSlot(i) => [TakeIf(st.timers[i].kid, st.timers[i].slot)]
    case _ => []
  }

  lemma StepsAreTableOps(st: State, a: Action, layerLog: seq<TableOp<Id>>, slotLog: seq<TableOp<Id>>)
    requires Enabled(st, a)
    requires st.layers == TableOf(layerLog) && st.slots == TableOf(slotLog)
    ensures Next(st, a).layers == TableOf(layerLog + LayerOps(st, a))
    ensures Next(st, a).slots == TableOf(slotLog + SlotOps(st, a))
  {
    TableOfMore(layerLog, LayerOps(st, a));
    TableOfMore(slotLog, SlotOps(st, a));
    LayersAfter(st, a);
    SlotsAfter(st, a);
  }

  function ApplyOps(m: map<Kid, Id>, ops: seq<TableOp<Id>>): map<Kid, Id> {
    if ops == [] then m else ApplyOp(m, ops[0])
  }

  lemma LayersAfter(st: State, a: Action)
    requires Enabled(st, a)
    ensures Next(st, a).layers == ApplyOps(st.layers, LayerOps(st, a))
  {
    if IsTimerAction(a) {
      assert Next(st, a) == TimerNext(st, a);
    } else if IsCloseAction(a) {
      assert Next(st, a) == CloseNext(st, a);
      if a.CloseRetire? && st.closer.kid !in st.layers {
        assert st.layers - {st.closer.kid} == st.layers;
      }
    } else {
      assert Next(st, a) == RekeyNext(st, a);
    }
  }

  lemma SlotsAfter(st: State, a: Action)
    requires Enabled(st, a)
    ensures Next(st, a).slots == ApplyOps(st.slots, SlotOps(st, a))
  {
    if IsTimerAction(a) {
      assert Next(st, a) == TimerNext(st, a);
    } else if IsCloseAction(a) {
      assert Next(st, a) == CloseNext(st, a);
    } else {
      assert Next(st, a) == RekeyNext(st, a);
    }
  }

  lemma TableOfMore(log: seq<TableOp<Id>>, ops: seq<TableOp<Id>>)
    requires |ops| <= 1
    ensures TableOf(log + ops) == ApplyOps(TableOf(log), ops)
  {
    if ops == [] {
      assert log + ops == log;
    } else {
      assert (log + ops)[..|log|] == log;
    }
  }

  /** All the operations a run has made on a table, the dial's first. */
  ghost function TableLog(states: seq<State>, actions: seq<Action>, n: nat, layers: bool): seq<TableOp<Id>>
    requires IsRun(states, actions) && n < |states|
  {
    if n == 0 then [Put(0, 0)]
    else
      assert StepAt(states, actions, n - 1);
      TableLog(states, actions, n - 1, layers)
      + if layers then LayerOps(states[n - 1], actions[n - 1]) else SlotOps(states[n - 1], actions[n - 1])
  }

  lemma {:induction false} TablesAreHistories(states: seq<State>, actions: seq<Action>, n: nat)
    requires IsRun(states, actions) && n < |states|
    ensures states[n].layers == TableOf(TableLog(states, actions, n, true))
    ensures states[n].slots == TableOf(TableLog(states, actions, n, false))
  {
    if n > 0 {
      TablesAreHistories(states, actions, n - 1);
      assert StepAt(states, actions, n - 1);
      StepsAreTableOps(states[n - 1], actions[n - 1],
                       TableLog(states, actions, n - 1, true), TableLog(states, actions, n - 1, false));
    } else {
      assert TableOf([Put(0, 0)]) == map[0 := 0] by {
        assert [Put(0, 0)][..0] == [];
      }
    }
  }

  /** At every moment of every run the slot in use is the one installed last under
      the active key-id, and no retirement of that very slot has run, however many
      older slots of the same key-id were retired late. */
  lemma ActiveSlotStands(states: seq<State>, actions: seq<Action>, n: nat)
    requires IsRun(states, actions) && n < |states|
    ensures var st := states[n];
      st.active in st.slots && Stands(TableLog(states, actions, n, false), st.active, st.slots[st.active])
  {
    RunInv(states, actions, n);
    TablesAreHistories(states, actions, n);
    var st := states[n];
    LookupFindsWhatStands(TableLog(states, actions, n, false), st.active, st.slots[st.active]);
  }
}
