/** What becomes of old and new objects in every run of rekeys, timers and Close:
    the slot and layer that were in use before a rekey go for good, and a rekey
    that does not come through leaves nothing behind. */
module RekeyRetirement {
  import opened Bytes
  import opened SessionTables
  import opened RekeyShutdown

  // --- the key-id in use ---------------------------------------------------------------

  /** How many rekeys have switched in the first n steps. */
  function Switches(actions: seq<Action>, n: nat): nat
    requires n <= |actions|
  {
    if n == 0 then 0 else Switches(actions, n - 1) + if actions[n - 1].RekeySwitch? then 1 else 0
  }

  /** In every run the k-th successful rekey puts key-id (k - 1) mod 7 + 1 in use. */
  lemma {:induction false} ActiveCountsSwitches(states: seq<State>, actions: seq<Action>, n: nat)
    requires IsRun(states, actions) && n < |states|
    ensures var c := Switches(actions, n);
      states[n].active == if c == 0 then 0 else (c - 1) % 7 + 1
    ensures states[n].active == KeyIdAfter(0, Switches(actions, n))
  {
    SwitchesFollowKeyIds(states, actions, n);
    KeyIdsRecycle(Switches(actions, n));
  }

  lemma {:induction false} SwitchesFollowKeyIds(states: seq<State>, actions: seq<Action>, n: nat)
    requires IsRun(states, actions) && n < |states|
    ensures states[n].active == KeyIdAfter(0, Switches(actions, n))
  {
    if n > 0 {
      SwitchesFollowKeyIds(states, actions, n - 1);
      RunInv(states, actions, n - 1);
      assert StepAt(states, actions, n - 1);
      ActiveStep(states[n - 1], actions[n - 1]);
    }
  }

  lemma ActiveStep(st: State, a: Action)
    requires Inv(st) && Enabled(st, a)
    ensures Next(st, a).active == if a.RekeySwitch? then NextKeyId(st.active) else st.active
  {
    if !a.RekeySwitch? {
      OnlySwitchChangesActive(st, a);
    }
  }

  // --- once out of a table, out for good -----------------------------------------------

  lemma SlotOutStep(st: State, a: Action, x: Id)
    requires Enabled(st, a) && x < st.nextSlot && !InTable(st.slots, x)
    ensures x < Next(st, a).nextSlot && !InTable(Next(st, a).slots, x)
  {
    SlotsAfter(st, a);
    CountersAfter(st, a);
    OutAfterOps(st.slots, SlotOps(st, a), x);
  }

  lemma LayerOutStep(st: State, a: Action, x: Id)
    requires Enabled(st, a) && x < st.nextLayer && !InTable(st.layers, x)
    ensures x < Next(st, a).nextLayer && !InTable(Next(st, a).layers, x)
  {
    LayersAfter(st, a);
    CountersAfter(st, a);
    OutAfterOps(st.layers, LayerOps(st, a), x);
  }

  lemma CountersAfter(st: State, a: Action)
    requires Enabled(st, a)
    ensures st.nextSlot <= Next(st, a).nextSlot && st.nextLayer <= Next(st, a).nextLayer
  {
    if IsTimerAction(a) {
      assert Next(st, a) == TimerNext(st, a);
    } else if IsCloseAction(a) {
      assert Next(st, a) == CloseNext(st, a);
    } else {
      assert Next(st, a) == RekeyNext(st, a);
    }
  }

  lemma OutAfterOps(m: map<Kid, Id>, ops: seq<TableOp<Id>>, x: Id)
    requires !InTable(m, x) && |ops| <= 1 && (ops != [] && ops[0].Put? ==> ops[0].obj != x)
    ensures !InTable(ApplyOps(m, ops), x)
  {
    var r := ApplyOps(m, ops);
    forall k | k in r
      ensures r[k] != x
    {
      assert (k in m && r[k] == m[k]) || (ops != [] && ops[0].Put? && r[k] == ops[0].obj);
    }
  }

  lemma {:induction false} SlotStaysOut(states: seq<State>, actions: seq<Action>, i: nat, j: nat, x: Id)
    requires IsRun(states, actions) && i <= j < |states| && x < states[i].nextSlot && !InTable(states[i].slots, x)
    ensures x < states[j].nextSlot && !InTable(states[j].slots, x)
    decreases j
  {
    if i < j {
      SlotStaysOut(states, actions, i, j - 1, x);
      assert StepAt(states, actions, j - 1);
      SlotOutStep(states[j - 1], actions[j - 1], x);
    }
  }

  lemma {:induction false} LayerStaysOut(states: seq<State>, actions: seq<Action>, i: nat, j: nat, x: Id)
    requires IsRun(states, actions) && i <= j < |states| && x < states[i].nextLayer && !InTable(states[i].layers, x)
    ensures x < states[j].nextLayer && !InTable(states[j].layers, x)
    decreases j
  {
    if i < j {
      LayerStaysOut(states, actions, i, j - 1, x);
      assert StepAt(states, actions, j - 1);
      LayerOutStep(states[j - 1], actions[j - 1], x);
    }
  }

  lemma ClosedStep(st: State, a: Action)
    requires Enabled(st, a)
    ensures st.closedLayers <= Next(st, a).closedLayers && (st.closed ==> Next(st, a).closed)
  {
    if IsTimerAction(a) {
      assert Next(st, a) == TimerNext(st, a);
    } else if IsCloseAction(a) {
      assert Next(st, a) == CloseNext(st, a);
    } else {
      assert Next(st, a) == RekeyNext(st, a);
    }
  }

  lemma {:induction false} StaysClosed(states: seq<State>, actions: seq<Action>, i: nat, j: nat)
    requires IsRun(states, actions) && i <= j < |states|
    ensures states[i].closedLayers <= states[j].closedLayers && (states[i].closed ==> states[j].closed)
    decreases j
  {
    if i < j {
      StaysClosed(states, actions, i, j - 1);
      assert StepAt(states, actions, j - 1);
      ClosedStep(states[j - 1], actions[j - 1]);
    }
  }

  // --- where a timer's objects are ---------------------------------------------------------

  /** What a timer aims at is registered under the timer's key-id or nowhere, and
      so is the slot a rekey is about to arm one for. */
  ghost predicate HomeInv(st: State) {
    && (forall i, k :: 0 <= i < |st.timers| && k in st.slots && st.timers[i].slot == Some(st.slots[k]) ==>
          k == st.timers[i].kid)
    && (forall i, k :: 0 <= i < |st.timers| && k in st.layers && st.timers[i].layer == Some(st.layers[k]) ==>
          k == st.timers[i].kid)
    && (st.rekey.GotSlot? ==>
          forall k :: k in st.slots && st.rekey.slot == Some(st.slots[k]) ==> k == st.rekey.prev)
  }

  /** As long as the session is open, the connection in use belongs to the layer in
      use, but for the time between a switch and the hand-over; the connection of
      the layer before is closed on the way, and so before a timer is armed. */
  ghost predicate ConnInv(st: State) {
    !st.closed ==>
      && (!st.rekey.Switched? && st.active in st.layers ==> st.tls == Some(st.layers[st.active]))
      && (st.rekey.Switched? && st.rekey.prev in st.layers ==> st.tls == Some(st.layers[st.rekey.prev]))
      && (st.rekey.ConnIn? && st.rekey.prev in st.layers ==> st.rekey.toClose == Some(st.layers[st.rekey.prev]))
      && ((st.rekey.Scheduling? || st.rekey.GotSlot?) && st.rekey.prev in st.layers ==>
            st.layers[st.rekey.prev] in st.closedConns)
      && (forall i :: 0 <= i < |st.timers| && st.timers[i].layer.Some? ==>
            st.timers[i].layer.value in st.closedConns)
  }

  /** A timer or Close takes entries off tables and changes nothing of any other. */
  ghost predicate Shrinks(m: map<Kid, Id>, m': map<Kid, Id>) {
    forall k :: k in m' ==> k in m && m'[k] == m[k]
  }

  ghost predicate SameTimers(st: State, st': State) {
    && |st'.timers| == |st.timers|
    && forall i :: 0 <= i < |st.timers| ==> st'.timers[i] == st.timers[i].(pc := st'.timers[i].pc)
  }

  lemma TimerShrinks(st: State, a: Action)
    requires Enabled(st, a) && IsTimerAction(a)
    ensures var st' := Next(st, a);
      && Shrinks(st.slots, st'.slots) && Shrinks(st.layers, st'.layers) && SameTimers(st, st')
      && st' == st.(slots := st'.slots, layers := st'.layers, timers := st'.timers, closedLayers := st'.closedLayers)
      && (st'.layers == st.layers || (st'.layers == st.layers - {st.timers[a.i].kid}
                                      && Lookup(st.layers, st.timers[a.i].kid) == st.timers[a.i].layer
                                      && st.timers[a.i].layer.Some?))
      && (st'.slots == st.slots || (st'.slots == st.slots - {st.timers[a.i].kid}
                                    && Lookup(st.slots, st.timers[a.i].kid) == st.timers[a.i].slot))
  {
    assert Next(st, a) == TimerNext(st, a);
  }

  lemma CloseShrinks(st: State, a: Action)
    requires Enabled(st, a) && IsCloseAction(a)
    ensures var st' := Next(st, a);
      && Shrinks(st.layers, st'.layers)
      && st'.slots == st.slots && st'.timers == st.timers && st'.rekey == st.rekey && st'.active == st.active
      && st'.handed == st.handed && st'.nextLayer == st.nextLayer && st'.nextSlot == st.nextSlot
      && (st'.layers == st.layers
          || (a.CloseRetire? && st'.closer == RetireClosing(st.closer.kid, st.layers[st.closer.kid])
              && st'.layers == st.layers - {st.closer.kid}))
  {
    assert Next(st, a) == CloseNext(st, a);
  }

  lemma HomeShrinks(st: State, st': State)
    requires HomeInv(st) && Shrinks(st.slots, st'.slots) && Shrinks(st.layers, st'.layers) && SameTimers(st, st')
    requires st'.rekey == st.rekey
    ensures HomeInv(st')
  {
  }

  lemma HomeTimerStep(st: State, a: Action)
    requires HomeInv(st) && Enabled(st, a) && IsTimerAction(a)
    ensures HomeInv(Next(st, a))
  {
    TimerShrinks(st, a);
    HomeShrinks(st, Next(st, a));
  }

  lemma HomeCloseStep(st: State, a: Action)
    requires HomeInv(st) && Enabled(st, a) && IsCloseAction(a)
    ensures HomeInv(Next(st, a))
  {
    CloseShrinks(st, a);
    HomeShrinks(st, Next(st, a));
  }

  lemma HomeRekeyStep(st: State, a: Action)
    requires Inv(st) && HomeInv(st) && Enabled(st, a) && !IsTimerAction(a) && !IsCloseAction(a)
    ensures HomeInv(Next(st, a))
  {
    if a.RekeyInstallLayer? || a.RekeyInstallSlot? {
      HomeInstallStep(st, a);
    } else if a.RekeyArmTimer? {
      HomeArmStep(st, a);
    } else {
      var st' := Next(st, a);
      assert forall k :: k in st'.layers ==> k in st.layers && st'.layers[k] == st.layers[k];
    }
  }

  lemma HomeInstallStep(st: State, a: Action)
    requires TableInv(st) && TimerInv(st) && HomeInv(st) && Enabled(st, a)
    requires a.RekeyInstallLayer? || a.RekeyInstallSlot?
    ensures HomeInv(Next(st, a))
  {
  }

  lemma HomeArmStep(st: State, a: Action)
    requires TableInv(st) && HomeInv(st) && Enabled(st, a) && a.RekeyArmTimer?
    ensures HomeInv(Next(st, a))
  {
  }

  lemma ConnTimerStep(st: State, a: Action)
    requires Inv(st) && ConnInv(st) && Enabled(st, a) && IsTimerAction(a)
    ensures ConnInv(Next(st, a))
  {
    TimerShrinks(st, a);
  }

  lemma ConnCloseStep(st: State, a: Action)
    requires Inv(st) && ConnInv(st) && Enabled(st, a) && IsCloseAction(a)
    ensures ConnInv(Next(st, a))
  {
  }

  lemma ConnRekeyStep(st: State, a: Action)
    requires Inv(st) && ConnInv(st) && Enabled(st, a) && !IsTimerAction(a) && !IsCloseAction(a)
    ensures ConnInv(Next(st, a))
  {
    NextKeyIdMoves(st.active);
    if a.RekeySwitch? || a.RekeyInstallConn? || a.RekeyCloseConn? {
      ConnSwitchStep(st, a);
    } else if a.RekeyArmTimer? || a.RekeyGetOldSlot? {
      ConnArmStep(st, a);
    }
  }

  lemma ConnSwitchStep(st: State, a: Action)
    requires Inv(st) && ConnInv(st) && Enabled(st, a)
    requires a.RekeySwitch? || a.RekeyInstallConn? || a.RekeyCloseConn?
    ensures ConnInv(Next(st, a))
  {
  }

  lemma ConnArmStep(st: State, a: Action)
    requires Inv(st) && ConnInv(st) && Enabled(st, a) && (a.RekeyArmTimer? || a.RekeyGetOldSlot?)
    ensures ConnInv(Next(st, a))
  {
  }

  lemma {:induction false} RunHome(states: seq<State>, actions: seq<Action>, n: nat)
    requires IsRun(states, actions) && n < |states|
    ensures Inv(states[n]) && HomeInv(states[n]) && ConnInv(states[n])
  {
    RunInv(states, actions, n);
    if n > 0 {
      RunHome(states, actions, n - 1);
      assert StepAt(states, actions, n - 1);
      var st, a := states[n - 1], actions[n - 1];
      if IsTimerAction(a) {
        HomeTimerStep(st, a);
        ConnTimerStep(st, a);
      } else if IsCloseAction(a) {
        HomeCloseStep(st, a);
        ConnCloseStep(st, a);
      } else {
        HomeRekeyStep(st, a);
        ConnRekeyStep(st, a);
      }
    }
  }

  // --- what a timer is armed for ---------------------------------------------------------------

  /** A rekey switches at step m and has not come to its end by state n. */
  ghost predicate SwitchSpan(states: seq<State>, actions: seq<Action>, m: nat, n: nat) {
    && |states| == |actions| + 1 && m < n < |states|
    && actions[m].RekeySwitch?
    && forall j :: m < j <= n ==> AfterSwitch(states[j].rekey)
  }

  /** Close's retire-all loop has come to a key-id between two steps. */
  ghost predicate RetiredBetween(states: seq<State>, actions: seq<Action>, m: nat, n: nat, kid: Kid) {
    exists j :: m < j < n && RetiresAt(states, actions, j, kid)
  }

  ghost predicate RetiresAt(states: seq<State>, actions: seq<Action>, j: nat, kid: Kid) {
    j < |actions| && j < |states| && actions[j].CloseRetire? && states[j].closer.Retiring? && states[j].closer.kid == kid
  }

  lemma {:induction false} SwitchOf(states: seq<State>, actions: seq<Action>, n: nat) returns (m: nat)
    requires IsRun(states, actions) && n < |states| && AfterSwitch(states[n].rekey)
    ensures SwitchSpan(states, actions, m, n)
    ensures states[n].rekey.prev == states[m].active
  {
    assert n > 0;
    assert StepAt(states, actions, n - 1);
    RunInv(states, actions, n - 1);
    SwitchBack(states[n - 1], actions[n - 1]);
    if AfterSwitch(states[n - 1].rekey) {
      m := SwitchOf(states, actions, n - 1);
    } else {
      m := n - 1;
    }
  }

  lemma SwitchBack(st: State, a: Action)
    requires RekeyInv(st) && Enabled(st, a) && AfterSwitch(Next(st, a).rekey)
    ensures if AfterSwitch(st.rekey) then Next(st, a).rekey.prev == st.rekey.prev
            else a.RekeySwitch? && Next(st, a).rekey.prev == st.active
  {
    OthersLeaveRekey(st, a);
  }

  /** What of the slot and the layer in use before a switch is still as it was. */
  ghost predicate OldKept(was: State, st: State, taken: bool) {
    && was.active in was.slots
    && AfterSwitch(st.rekey) && st.rekey.prev == was.active
    && Lookup(st.slots, was.active) == Some(was.slots[was.active])
    && (Lookup(st.layers, was.active) == Lookup(was.layers, was.active)
        || (taken && Lookup(st.layers, was.active) == None))
    && (st.rekey.GotSlot? ==> st.rekey.slot == Some(was.slots[was.active]))
    && (forall i :: 0 <= i < |st.timers| ==>
          && st.timers[i].slot != Some(was.slots[was.active])
          && (st.timers[i].layer.Some? ==> st.timers[i].layer != Lookup(was.layers, was.active)))
  }

  lemma OldKeptStart(st: State, a: Action)
    requires Inv(st) && Enabled(st, a) && a.RekeySwitch?
    ensures OldKept(st, Next(st, a), false)
  {
  }

  lemma OldKeptStep(was: State, st: State, a: Action, taken: bool)
    requires OldKept(was, st, taken) && Enabled(st, a) && AfterSwitch(Next(st, a).rekey)
    ensures OldKept(was, Next(st, a), taken || (a.CloseRetire? && st.closer.kid == was.active))
  {
    var st' := Next(st, a);
    if IsTimerAction(a) {
      OldKeptTimer(was, st, a, taken);
    } else if IsCloseAction(a) {
      CloseShrinks(st, a);
    } else {
      assert st'.slots == st.slots && st'.timers == st.timers && st'.layers == st.layers;
    }
  }

  lemma OldKeptTimer(was: State, st: State, a: Action, taken: bool)
    requires OldKept(was, st, taken) && Enabled(st, a) && IsTimerAction(a)
    ensures OldKept(was, Next(st, a), taken)
  {
    TimerShrinks(st, a);
    var t := st.timers[a.i];
    assert t.slot != Some(was.slots[was.active]);
    assert t.layer.Some? ==> t.layer != Lookup(was.layers, was.active);
  }

  lemma {:induction false} SpanKeepsOld(states: seq<State>, actions: seq<Action>, m: nat, n: nat)
    requires IsRun(states, actions) && SwitchSpan(states, actions, m, n)
    ensures OldKept(states[m], states[n], RetiredBetween(states, actions, m, n, states[m].active))
    decreases n
  {
    assert StepAt(states, actions, n - 1);
    RunInv(states, actions, n - 1);
    if m + 1 == n {
      OldKeptStart(states[m], actions[m]);
    } else {
      var kid := states[m].active;
      assert SwitchSpan(states, actions, m, n - 1);
      SpanKeepsOld(states, actions, m, n - 1);
      var before := RetiredBetween(states, actions, m, n - 1, kid);
      assert AfterSwitch(Next(states[n - 1], actions[n - 1]).rekey);
      OldKeptStep(states[m], states[n - 1], actions[n - 1], before);
      if before || (actions[n - 1].CloseRetire? && states[n - 1].closer.kid == kid) {
        RetiredGrows(states, actions, m, n, kid);
      }
    }
  }

  lemma RetiredGrows(states: seq<State>, actions: seq<Action>, m: nat, n: nat, kid: Kid)
    requires |states| == |actions| + 1 && m + 1 < n < |states| && Enabled(states[n - 1], actions[n - 1])
    requires RetiredBetween(states, actions, m, n - 1, kid)
             || (actions[n - 1].CloseRetire? && states[n - 1].closer.kid == kid)
    ensures RetiredBetween(states, actions, m, n, kid)
  {
    if RetiredBetween(states, actions, m, n - 1, kid) {
      var j :| m < j < n - 1 && RetiresAt(states, actions, j, kid);
    } else {
      assert RetiresAt(states, actions, n - 1, kid);
    }
  }

  /** The last timer holds what was in use before the switch at step m. */
  ghost predicate HoldsOld(states: seq<State>, actions: seq<Action>, m: nat, n: nat) {
    && SwitchSpan(states, actions, m, n) && n + 1 < |states| && |states[n + 1].timers| > 0
    && var was, kid := states[m], states[m].active;
       var t := states[n + 1].timers[|states[n + 1].timers| - 1];
       && t.pc.Armed? && t.kid == kid
       && kid in was.slots && t.slot == Some(was.slots[kid])
       && (t.layer == Lookup(was.layers, kid) || (t.layer == None && RetiredBetween(states, actions, m, n, kid)))
  }

  /** In every run a rekey that has switched comes to its end by arming one timer,
      for the very slot that was in use when it switched and the very layer, unless
      Close has taken the layer off meanwhile. */
  lemma TimerHoldsTheOld(states: seq<State>, actions: seq<Action>, n: nat)
    requires IsRun(states, actions) && n < |actions|
    requires AfterSwitch(states[n].rekey) && !AfterSwitch(states[n + 1].rekey)
    ensures states[n + 1].rekey.Idle? && |states[n + 1].timers| == |states[n].timers| + 1
    ensures states[n].timers <= states[n + 1].timers
    ensures exists m :: 0 <= m < n && HoldsOld(states, actions, m, n)
  {
    assert StepAt(states, actions, n);
    assert actions[n].RekeyArmTimer?;
    var m := SwitchOf(states, actions, n);
    SpanKeepsOld(states, actions, m, n);
    assert HoldsOld(states, actions, m, n);
  }

  // --- what a timer does ---------------------------------------------------------------------------

  /** Once a timer's slot action has run, the slot it was armed for is in the table
      at no later moment. */
  lemma OldSlotIsGone(states: seq<State>, actions: seq<Action>, n: nat, i: nat, j: nat)
    requires IsRun(states, actions) && n < |actions| && actions[n] == TimerSlot(i) && n < j < |states|
    requires i < |states[n].timers| && states[n].timers[i].slot.Some?
    ensures !InTable(states[j].slots, states[n].timers[i].slot.value)
  {
    assert StepAt(states, actions, n);
    RunHome(states, actions, n);
    var t, x := states[n].timers[i], states[n].timers[i].slot.value;
    assert states[n + 1].slots == RemoveIf(states[n].slots, t.kid, t.slot);
    OutAtHome(states[n].slots, t.kid, x);
    assert x < states[n].nextSlot <= states[n + 1].nextSlot;
    SlotStaysOut(states, actions, n + 1, j, x);
  }

  lemma OutAtHome(m: map<Kid, Id>, kid: Kid, x: Id)
    requires forall k :: k in m && m[k] == x ==> k == kid
    ensures !InTable(RemoveIf(m, kid, Some(x)), x)
  {
  }

  /** Once a timer's layer action has run, the layer it was armed for is in the table
      at no later moment, and it is closed or the session is. */
  lemma OldLayerIsGone(states: seq<State>, actions: seq<Action>, n: nat, i: nat, j: nat)
    requires IsRun(states, actions) && n < |actions| && actions[n] == TimerLayer(i) && n < j < |states|
    requires i < |states[n].timers| && states[n].timers[i].layer.Some?
    ensures var l := states[n].timers[i].layer.value;
      !InTable(states[j].layers, l) && (l in states[j].closedLayers || states[n].closed)
  {
    assert StepAt(states, actions, n);
    RunHome(states, actions, n);
    var t, l := states[n].timers[i], states[n].timers[i].layer.value;
    assert states[n + 1].layers == RemoveIf(states[n].layers, t.kid, t.layer);
    OutAtHome(states[n].layers, t.kid, l);
    assert l < states[n].nextLayer <= states[n + 1].nextLayer;
    LayerStaysOut(states, actions, n + 1, j, l);
    StaysClosed(states, actions, n, j);
  }

  /** A layer a timer took off the table is closed by the timer's last action, and
      remains so, whether or not the session is open. */
  lemma TimerClosesItsLayer(states: seq<State>, actions: seq<Action>, n: nat, i: nat, j: nat)
    requires IsRun(states, actions) && n < |actions| && actions[n] == TimerClose(i) && n < j < |states|
    requires i < |states[n].timers| && states[n].timers[i].layer.Some?
    ensures states[n].timers[i].layer.value in states[j].closedLayers
  {
    assert StepAt(states, actions, n);
    StaysClosed(states, actions, n + 1, j);
  }

  /** What a timer has done so far, unless it was dropped because the workers were shut
      down: past its slot action the slot is out of the table; at its end the layer is
      out of the table, too, and closed or the session is. */
  ghost predicate TimerDid(st: State, t: Timer) {
    && (!t.pc.Armed? && !(t.pc.Done? && st.shutdown) && t.slot.Some? ==> !InTable(st.slots, t.slot.value))
    && ((t.pc.Holding? || (t.pc.Done? && !st.shutdown)) && t.layer.Some? ==> !InTable(st.layers, t.layer.value))
    && (t.pc.Done? && !st.shutdown && t.layer.Some? ==> t.layer.value in st.closedLayers || st.closed)
  }

  lemma ShutdownStays(st: State, a: Action)
    requires Enabled(st, a) && st.shutdown
    ensures Next(st, a).shutdown
  {
    if IsTimerAction(a) {
      assert Next(st, a) == TimerNext(st, a);
    } else if IsCloseAction(a) {
      assert Next(st, a) == CloseNext(st, a);
    } else {
      assert Next(st, a) == RekeyNext(st, a);
    }
  }

  /** A timer that takes no action itself. */
  lemma TimerRests(st: State, a: Action, t: Timer)
    requires TimerDid(st, t) && Enabled(st, a)
    requires (t.slot.Some? ==> t.slot.value < st.nextSlot) && (t.layer.Some? ==> t.layer.value < st.nextLayer)
    ensures TimerDid(Next(st, a), t)
  {
    ClosedStep(st, a);
    if st.shutdown {
      ShutdownStays(st, a);
    }
    if t.slot.Some? && !InTable(st.slots, t.slot.value) {
      SlotOutStep(st, a, t.slot.value);
    }
    if t.layer.Some? && !InTable(st.layers, t.layer.value) {
      LayerOutStep(st, a, t.layer.value);
    }
  }

  /** A timer that takes its own next action. */
  lemma TimerActs(st: State, a: Action)
    requires Inv(st) && HomeInv(st) && ConnInv(st) && Enabled(st, a) && IsTimerAction(a)
    requires TimerDid(st, st.timers[a.i])
    ensures TimerDid(Next(st, a), Next(st, a).timers[a.i])
  {
    var t, st' := st.timers[a.i], Next(st, a);
    TimerShrinks(st, a);
    if a.TimerSlot? && t.slot.Some? {
      assert st'.slots == RemoveIf(st.slots, t.kid, t.slot);
      OutAtHome(st.slots, t.kid, t.slot.value);
    }
    if a.TimerLayer? && t.layer.Some? {
      assert st'.layers == RemoveIf(st.layers, t.kid, t.layer);
      OutAtHome(st.layers, t.kid, t.layer.value);
    }
    if t.slot.Some? && !InTable(st.slots, t.slot.value) {
      SlotOutStep(st, a, t.slot.value);
    }
    if t.layer.Some? && !InTable(st.layers, t.layer.value) {
      LayerOutStep(st, a, t.layer.value);
    }
  }

  /** In every run every timer has done what its progress says: one that is done has
      retired its slot and its layer for good, unless shutdown came first. */
  lemma {:induction false} TimersDo(states: seq<State>, actions: seq<Action>, n: nat, i: nat)
    requires IsRun(states, actions) && n < |states| && i < |states[n].timers|
    ensures TimerDid(states[n], states[n].timers[i])
  {
    if n > 0 {
      assert StepAt(states, actions, n - 1);
      RunHome(states, actions, n - 1);
      var st, a := states[n - 1], actions[n - 1];
      TimersAfter(st, a, i);
      if i < |st.timers| {
        TimersDo(states, actions, n - 1, i);
        if IsTimerAction(a) && a.i == i {
          TimerActs(st, a);
        } else {
          TimerRests(st, a, st.timers[i]);
        }
      }
    }
  }

  lemma TimersAfter(st: State, a: Action, i: nat)
    requires Inv(st) && Enabled(st, a) && i < |Next(st, a).timers|
    ensures i < |st.timers| && !(IsTimerAction(a) && a.i == i) ==> Next(st, a).timers[i] == st.timers[i]
    ensures i >= |st.timers| ==> Next(st, a).timers[i].pc.Armed?
    ensures i < |st.timers| ==>
      && (st.timers[i].slot.Some? ==> st.timers[i].slot.value < st.nextSlot)
      && (st.timers[i].layer.Some? ==> st.timers[i].layer.value < st.nextLayer)
  {
    if IsTimerAction(a) {
      assert Next(st, a) == TimerNext(st, a);
    } else if IsCloseAction(a) {
      assert Next(st, a) == CloseNext(st, a);
    } else {
      assert Next(st, a) == RekeyNext(st, a);
    }
  }

  // --- a rekey that does not come through --------------------------------------------------------------

  /** Close has closed a layer or is about to. */
  ghost predicate WithClose(st: State, l: Id) {
    l in st.closedLayers || (st.closer.RetireClosing? && st.closer.layer == l)
  }

  /** The layer of the rekey in progress is in its place in the table, or out of it
      and taken care of. */
  ghost predicate NewLayerKept(st: State, l: Id) {
    && l < st.nextLayer && l !in st.handed
    && (HasNewLayer(st.rekey) ==>
          st.rekey.layer == l && (Lookup(st.layers, st.rekey.next) == Some(l) || WithClose(st, l)))
    && (st.rekey.Failing? ==> Lookup(st.layers, st.rekey.next) == Some(l) || WithClose(st, l))
    && (HasNewLayer(st.rekey) || st.rekey.Failing? ==> forall k :: k in st.layers && st.layers[k] == l ==> k == st.rekey.next)
    && (st.rekey.Retired? ==> !InTable(st.layers, l) && (st.rekey.gone == Some(l) || WithClose(st, l)))
  }

  predicate Making(pc: RekeyPc) {
    HasNewLayer(pc) || pc.Failing? || pc.Retired?
  }

  /** A rekey installs its layer at step m and is at work on it up to state n. */
  ghost predicate MakingSpan(states: seq<State>, actions: seq<Action>, m: nat, n: nat) {
    && |states| == |actions| + 1 && m < n < |states|
    && actions[m].RekeyInstallLayer?
    && (forall j :: m < j <= n ==> Making(states[j].rekey))
    && (forall j :: m <= j < n ==> !actions[j].RekeySwitch?)
  }

  lemma MakingStart(st: State, a: Action)
    requires Inv(st) && Enabled(st, a) && a.RekeyInstallLayer?
    ensures NewLayerKept(Next(st, a), st.nextLayer)
  {
  }

  lemma MakingTimerStep(st: State, a: Action, l: Id)
    requires TimerInv(st) && NewLayerKept(st, l) && Enabled(st, a) && IsTimerAction(a)
    ensures NewLayerKept(Next(st, a), l)
  {
    TimerShrinks(st, a);
    assert st.timers[a.i].layer != Some(l);
  }

  lemma MakingCloseStep(st: State, a: Action, l: Id)
    requires NewLayerKept(st, l) && Enabled(st, a) && IsCloseAction(a)
    ensures NewLayerKept(Next(st, a), l)
  {
    CloseShrinks(st, a);
    if WithClose(st, l) {
      CloseKeepsWith(st, a, l);
    }
  }

  lemma CloseKeepsWith(st: State, a: Action, l: Id)
    requires Enabled(st, a) && IsCloseAction(a) && WithClose(st, l)
    ensures WithClose(Next(st, a), l)
  {
    assert Next(st, a) == CloseNext(st, a);
  }

  lemma MakingRekeyStep(st: State, a: Action, l: Id)
    requires Inv(st) && NewLayerKept(st, l) && Making(st.rekey)
    requires Enabled(st, a) && !IsTimerAction(a) && !IsCloseAction(a) && Making(Next(st, a).rekey)
    ensures NewLayerKept(Next(st, a), l)
  {
    OthersLeaveRekey(st, a);
    if a.RekeyRetireRejected? || a.RekeyRetireFailed? {
      MakingRetires(st, a, l);
    } else {
      MakingGoesOn(st, a, l);
    }
  }

  lemma MakingRetires(st: State, a: Action, l: Id)
    requires NewLayerKept(st, l) && Enabled(st, a) && (a.RekeyRetireRejected? || a.RekeyRetireFailed?)
    ensures NewLayerKept(Next(st, a), l)
  {
    var st' := Next(st, a);
    assert Shrinks(st.layers, st'.layers) && st'.handed == st.handed && st'.nextLayer == st.nextLayer;
    assert st'.closer == st.closer && st'.closedLayers == st.closedLayers;
  }

  lemma MakingGoesOn(st: State, a: Action, l: Id)
    requires NewLayerKept(st, l) && Making(st.rekey) && Enabled(st, a)
    requires !IsTimerAction(a) && !IsCloseAction(a) && !a.RekeyRetireRejected? && !a.RekeyRetireFailed?
    requires Making(RekeyNext(st, a).rekey)
    ensures NewLayerKept(RekeyNext(st, a), l)
  {
    var st' := RekeyNext(st, a);
    assert st'.layers == st.layers && st'.handed == st.handed && st'.nextLayer == st.nextLayer;
    assert st'.closer == st.closer && st.closedLayers <= st'.closedLayers;
  }

  lemma MakingStep(st: State, a: Action, l: Id)
    requires Inv(st) && NewLayerKept(st, l) && Making(st.rekey) && Enabled(st, a) && Making(Next(st, a).rekey)
    ensures NewLayerKept(Next(st, a), l)
  {
    if IsTimerAction(a) {
      MakingTimerStep(st, a, l);
    } else if IsCloseAction(a) {
      MakingCloseStep(st, a, l);
    } else {
      MakingRekeyStep(st, a, l);
    }
  }

  lemma MakingBack(st: State, a: Action)
    requires Enabled(st, a) && Making(Next(st, a).rekey)
    ensures !a.RekeySwitch? && (Making(st.rekey) || a.RekeyInstallLayer?)
  {
    OthersLeaveRekey(st, a);
  }

  lemma {:induction false} MakingOf(states: seq<State>, actions: seq<Action>, n: nat) returns (m: nat)
    requires IsRun(states, actions) && n < |states| && Making(states[n].rekey)
    ensures MakingSpan(states, actions, m, n)
    ensures NewLayerKept(states[n], states[m].nextLayer) && states[n].active == states[m].active
  {
    assert n > 0;
    MakingAt(states, actions, n);
    if Making(states[n - 1].rekey) {
      m := MakingOf(states, actions, n - 1);
      MakingOn(states, actions, n, states[m].nextLayer);
    } else {
      m := n - 1;
    }
    assert MakingSpan(states, actions, m, n);
  }

  lemma MakingAt(states: seq<State>, actions: seq<Action>, n: nat)
    requires IsRun(states, actions) && 0 < n < |states| && Making(states[n].rekey)
    ensures !actions[n - 1].RekeySwitch? && states[n].active == states[n - 1].active
    ensures !Making(states[n - 1].rekey) ==>
      actions[n - 1].RekeyInstallLayer? && NewLayerKept(states[n], states[n - 1].nextLayer)
  {
    assert StepAt(states, actions, n - 1);
    RunInv(states, actions, n - 1);
    MakingBack(states[n - 1], actions[n - 1]);
    ActiveStep(states[n - 1], actions[n - 1]);
    if !Making(states[n - 1].rekey) {
      MakingStart(states[n - 1], actions[n - 1]);
    }
  }

  lemma MakingOn(states: seq<State>, actions: seq<Action>, n: nat, l: Id)
    requires IsRun(states, actions) && 0 < n < |states|
    requires Making(states[n - 1].rekey) && Making(states[n].rekey) && NewLayerKept(states[n - 1], l)
    ensures NewLayerKept(states[n], l)
  {
    assert StepAt(states, actions, n - 1);
    RunInv(states, actions, n - 1);
    MakingStep(states[n - 1], actions[n - 1], l);
  }

  /** The layer a rekey installed at step m is out of the table after step n, and
      closed or just being closed by Close. */
  ghost predicate LeftNothing(states: seq<State>, actions: seq<Action>, m: nat, n: nat) {
    && MakingSpan(states, actions, m, n) && n + 1 < |states|
    && var l, st := states[m].nextLayer, states[n + 1];
       !InTable(st.layers, l) && WithClose(st, l) && st.active == states[m].active
  }

  /** In every run a rekey that ends without switching, failed or rejected, leaves
      its layer neither in the table nor open, and the slot in use as it was. */
  lemma FailedRekeyLeavesNothing(states: seq<State>, actions: seq<Action>, n: nat)
    requires IsRun(states, actions) && n < |actions|
    requires Making(states[n].rekey) && states[n + 1].rekey.Idle?
    ensures exists m :: 0 <= m < n && LeftNothing(states, actions, m, n)
  {
    assert StepAt(states, actions, n);
    RunInv(states, actions, n);
    var m := MakingOf(states, actions, n);
    ActiveStep(states[n], actions[n]);
    LastStep(states[n], actions[n], states[m].nextLayer);
    assert LeftNothing(states, actions, m, n);
  }

  lemma LastStep(st: State, a: Action, l: Id)
    requires NewLayerKept(st, l) && Making(st.rekey) && Enabled(st, a) && Next(st, a).rekey.Idle?
    ensures !InTable(Next(st, a).layers, l) && WithClose(Next(st, a), l)
    ensures !a.RekeySwitch?
  {
    OthersLeaveRekey(st, a);
    assert a.RekeyCloseRetired?;
  }

  /** In every run the layer a new one displaces from its key-id is closed before the
      rekey goes on. */
  lemma DisplacedIsClosed(states: seq<State>, actions: seq<Action>, m: nat, n: nat)
    requires IsRun(states, actions) && m < n < |actions| && actions[m].RekeyInstallLayer?
    requires (forall j :: m < j <= n ==> states[j].rekey.LayerIn?) && !states[n + 1].rekey.LayerIn?
    ensures states[m].rekey.Began?
    ensures states[m].rekey.next in states[m].layers ==>
      states[m].layers[states[m].rekey.next] in states[n + 1].closedLayers
  {
    assert StepAt(states, actions, m);
    assert StepAt(states, actions, n);
    LayerInStays(states, actions, m + 1, n);
  }

  lemma {:induction false} LayerInStays(states: seq<State>, actions: seq<Action>, m: nat, n: nat)
    requires IsRun(states, actions) && m <= n < |states|
    requires forall j :: m <= j <= n ==> states[j].rekey.LayerIn?
    ensures states[n].rekey == states[m].rekey
    decreases n
  {
    if m < n {
      LayerInStays(states, actions, m, n - 1);
      assert StepAt(states, actions, n - 1);
    }
  }

  // --- a rekey that does -------------------------------------------------------------------------------

  /** The slot a rekey is about to switch to is the one it has just installed. */
  lemma {:induction false} NewSlotOf(states: seq<State>, actions: seq<Action>, n: nat) returns (m: nat)
    requires IsRun(states, actions) && n < |states| && states[n].rekey.SlotIn?
    ensures m < n && actions[m].RekeyInstallSlot? && (forall j :: m < j <= n ==> states[j].rekey.SlotIn?)
    ensures Lookup(states[n].slots, states[n].rekey.next) == Some(states[m].nextSlot)
    ensures states[m].nextSlot < states[n].nextSlot
    ensures forall i :: 0 <= i < |states[n].timers| ==> states[n].timers[i].slot != Some(states[m].nextSlot)
  {
    assert n > 0;
    assert StepAt(states, actions, n - 1);
    if states[n - 1].rekey.SlotIn? {
      m := NewSlotOf(states, actions, n - 1);
      SlotInStep(states[n - 1], actions[n - 1], states[m].nextSlot);
    } else {
      m := n - 1;
      RunTimerInv(states, actions, m);
      SlotInBack(states[m], actions[m]);
    }
  }

  lemma RunTimerInv(states: seq<State>, actions: seq<Action>, n: nat)
    requires IsRun(states, actions) && n < |states|
    ensures TimerInv(states[n])
  {
    RunInv(states, actions, n);
  }

  lemma SlotInBack(st: State, a: Action)
    requires TimerInv(st) && Enabled(st, a) && Next(st, a).rekey.SlotIn? && !st.rekey.SlotIn?
    ensures a.RekeyInstallSlot?
    ensures var st' := Next(st, a);
      && Lookup(st'.slots, st'.rekey.next) == Some(st.nextSlot) && st.nextSlot < st'.nextSlot
      && forall i :: 0 <= i < |st'.timers| ==> st'.timers[i].slot != Some(st.nextSlot)
  {
    OthersLeaveRekey(st, a);
  }

  /** Timers and Close leave a rekey where it stands. */
  lemma OthersLeaveRekey(st: State, a: Action)
    requires Enabled(st, a)
    ensures if IsTimerAction(a) || IsCloseAction(a) then Next(st, a).rekey == st.rekey
            else Next(st, a) == RekeyNext(st, a)
  {
  }

  lemma SlotInStep(st: State, a: Action, x: Id)
    requires Enabled(st, a) && st.rekey.SlotIn? && Next(st, a).rekey.SlotIn?
    requires Lookup(st.slots, st.rekey.next) == Some(x) && x < st.nextSlot
    requires forall i :: 0 <= i < |st.timers| ==> st.timers[i].slot != Some(x)
    ensures var st' := Next(st, a);
      && st'.rekey == st.rekey && Lookup(st'.slots, st.rekey.next) == Some(x) && x < st'.nextSlot
      && forall i :: 0 <= i < |st'.timers| ==> st'.timers[i].slot != Some(x)
  {
    OthersLeaveRekey(st, a);
    if IsTimerAction(a) {
      assert st.timers[a.i].slot != Some(x);
      TimerShrinks(st, a);
    } else if IsCloseAction(a) {
      CloseShrinks(st, a);
    }
  }

  /** The rekey that installed its slot at step m switches at step n. */
  ghost predicate SwitchesTo(states: seq<State>, actions: seq<Action>, m: nat, k: nat, n: nat) {
    && |states| == |actions| + 1 && m < k < n < |actions|
    && actions[m].RekeyInstallLayer? && actions[k].RekeyInstallSlot?
    && (forall j :: m < j <= n ==> HasNewLayer(states[j].rekey))
    && (forall j :: k < j <= n ==> states[j].rekey.SlotIn?)
    && var st := states[n + 1];
       && Lookup(st.slots, st.active) == Some(states[k].nextSlot)
       && (!st.closed ==> Lookup(st.layers, st.active) == Some(states[m].nextLayer))
  }

  /** In every run a rekey switches to the key-id after the one in use, to the slot
      it has just installed there, and, while the session is open, to the layer it
      has installed there before. */
  lemma SwitchTakesTheNew(states: seq<State>, actions: seq<Action>, n: nat)
    requires IsRun(states, actions) && n < |actions| && actions[n].RekeySwitch?
    ensures states[n + 1].active == if states[n].active == 7 then 1 else states[n].active + 1
    ensures exists m, k :: 0 <= m < k && SwitchesTo(states, actions, m, k, n)
  {
    assert StepAt(states, actions, n);
    RunInv(states, actions, n);
    var m := MakingOf(states, actions, n);
    var k := NewSlotOf(states, actions, n);
    SpanHasNewLayer(states, actions, m, n);
    assert StepAt(states, actions, m);
    assert states[m].rekey.Began?;
    assert StepAt(states, actions, k);
    assert states[k].rekey.Handshaking?;
    assert m < k;
    assert SwitchesTo(states, actions, m, k, n);
  }

  lemma {:induction false} SpanHasNewLayer(states: seq<State>, actions: seq<Action>, m: nat, n: nat)
    requires IsRun(states, actions) && MakingSpan(states, actions, m, n) && HasNewLayer(states[n].rekey)
    ensures forall j :: m < j <= n ==> HasNewLayer(states[j].rekey)
    decreases n
  {
    if m + 1 < n {
      assert StepAt(states, actions, n - 1);
      assert Making(states[n - 1].rekey) && !actions[n - 1].RekeySwitch?;
      NewLayerBack(states[n - 1], actions[n - 1]);
      assert MakingSpan(states, actions, m, n - 1);
      SpanHasNewLayer(states, actions, m, n - 1);
    }
  }

  lemma NewLayerBack(st: State, a: Action)
    requires Enabled(st, a) && Making(st.rekey) && HasNewLayer(Next(st, a).rekey)
    ensures HasNewLayer(st.rekey)
  {
    OthersLeaveRekey(st, a);
  }
}
