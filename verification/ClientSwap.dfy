/** The client across reconnects: counters that survive the replacement of the
    session, and the dispatch of reconnect hooks.  Sessions are numbered in the
    order of their installation.  Every action is one atomic section: a lock
    taken, one counter loaded, one pointer swapped. */
module ClientSwap {
  import opened Bytes

  /** Forwarded, DroppedFull, PingIn, OpenFailed, StrayHandshake, HardResetIn. */
  const FIELDS := 6

  /** Who holds statsMu, and how far it has come.  `atLock` records what the
      failed session had counted when its reconnect took the lock. */
  datatype StatsLock =
    | Free
    | Reporting(session: nat, out: seq<nat>)
    | Absorbing(caller: nat, failed: nat, atLock: seq<nat>, st: seq<nat>)

  /** Who holds reconnectMu: still dialling, or done with the swap. */
  datatype ReconnectLock =
    | NoOne
    | Dialling(caller: nat, failed: nat)
    | Swapped(caller: nat, installed: nat)

  /** `frozen` records what was absorbed of each replaced session, `reports`
      every answer of Stats, `fired` every session whose hooks were dispatched. */
  datatype State = State(
    live: seq<seq<nat>>,
    current: nat,
    cum: seq<nat>,
    reconnects: nat,
    stats: StatsLock,
    reconnect: ReconnectLock,
    wantFire: set<nat>,
    firing: set<nat>,
    fireLocked: bool,
    closed: bool,
    frozen: seq<seq<nat>>,
    reports: seq<seq<nat>>,
    fired: seq<nat>)

  function Zeros(): seq<nat> {
    [0, 0, 0, 0, 0, 0]
  }

  ghost predicate Init(s: State) {
    && |s.live| == 1 && |s.live[0]| == FIELDS
    && s == State(s.live, 0, Zeros(), 0, Free, NoOne, {}, {}, false, false, [], [], [])
  }

  datatype Action =
    | Count(session: nat, field: nat)
    | StatsEnter
    | StatsLoad
    | StatsReturn
    | ReconnectEnter(caller: nat, failed: nat)
    | ReconnectGiveUp
    | SwapLock
    | SwapLoad
    | SwapCommit(counted: seq<nat>)
    | ReconnectLeave
    | HooksLock(session: nat)
    | HooksDone
    | CloseClient

  predicate Enabled(s: State, a: Action) {
    match a
    case Count(i, f) => i < |s.live| && f < |s.live[i]|
    case StatsEnter => s.stats.Free?
    case StatsLoad => s.stats.Reporting? && |s.stats.out| < FIELDS
    case StatsReturn => s.stats.Reporting? && |s.stats.out| == FIELDS
    case ReconnectEnter(_, failed) => s.reconnect.NoOne?
    case ReconnectGiveUp => s.reconnect.Dialling? && !s.stats.Absorbing?
    case SwapLock => s.reconnect.Dialling? && s.stats.Free?
    case SwapLoad => s.stats.Absorbing? && |s.stats.st| < FIELDS
    case SwapCommit(counted) => s.stats.Absorbing? && |s.stats.st| == FIELDS && |counted| == FIELDS
    case ReconnectLeave => s.reconnect.Swapped?
    case HooksLock(i) => i in s.wantFire && !s.fireLocked
    case HooksDone => s.fireLocked
    case CloseClient => true
  }

  /** A counter's value; 0 for one that does not exist. */
  function At(v: seq<nat>, f: nat): nat {
    if f < |v| then v[f] else 0
  }

  function LiveAt(s: State, i: nat, f: nat): nat {
    if i < |s.live| then At(s.live[i], f) else 0
  }

  /** All the counters of a session. */
  function Counters(s: State, i: nat): seq<nat> {
    if i < |s.live| then s.live[i] else Zeros()
  }

  function Add(a: seq<nat>, b: seq<nat>): (r: seq<nat>)
    requires |a| == |b|
    ensures |r| == |a|
    ensures forall f :: 0 <= f < |a| ==> r[f] == a[f] + b[f]
  {
    if a == [] then [] else [a[0] + b[0]] + Add(a[1..], b[1..])
  }

  function Next(s: State, a: Action): State
    requires Enabled(s, a)
  {
    match a
    case Count(i, f) => s.(live := s.live[i := s.live[i][f := s.live[i][f] + 1]])
    case StatsEnter => s.(stats := Reporting(s.current, []))
    case StatsLoad =>
      var f := |s.stats.out|;
      s.(stats := Reporting(s.stats.session, s.stats.out + [At(s.cum, f) + LiveAt(s, s.stats.session, f)]))
    case StatsReturn => s.(stats := Free, reports := s.reports + [s.stats.out])
    case ReconnectEnter(caller, failed) =>
      if s.closed || s.current != failed then s else s.(reconnect := Dialling(caller, failed))
    case ReconnectGiveUp => s.(reconnect := NoOne)
    case SwapLock => 
      s.(stats := Absorbing(s.reconnect.caller, s.reconnect.failed, Counters(s, s.reconnect.failed), []))
    case SwapLoad =>
      var f := |s.stats.st|;
      s.(stats := s.stats.(st := s.stats.st + [LiveAt(s, s.stats.failed, f)]))
    case SwapCommit(counted) =>
      var id := |s.live|;
      s.(cum := if |s.cum| == FIELDS then Add(s.cum, s.stats.st) else s.cum,
         reconnects := s.reconnects + 1,
         live := s.live + [counted], current := id, frozen := s.frozen + [s.stats.st],
         stats := Free, reconnect := Swapped(s.stats.caller, id))
    case ReconnectLeave =>
      s.(reconnect := NoOne, wantFire := s.wantFire + {s.reconnect.installed})
    case HooksLock(i) =>
      if s.closed || s.current != i then s.(wantFire := s.wantFire - {i})
      else s.(wantFire := s.wantFire - {i}, firing := s.firing + {i}, fireLocked := true, fired := s.fired + [i])
    case HooksDone => s.(firing := {}, fireLocked := false)
    case CloseClient => s.(closed := true)
  }

  // --- counters ---------------------------------------------------------------------

  /** What the replaced sessions counted in one field. */
  function FrozenSum(frozen: seq<seq<nat>>, f: nat): nat {
    if frozen == [] then 0 else FrozenSum(frozen[..|frozen| - 1], f) + At(frozen[|frozen| - 1], f)
  }

  lemma FrozenSumSnoc(frozen: seq<seq<nat>>, v: seq<nat>, f: nat)
    ensures FrozenSum(frozen + [v], f) == FrozenSum(frozen, f) + At(v, f)
  {
    assert (frozen + [v])[..|frozen|] == frozen;
  }

  /** Every session installed so far, counted once. */
  function Total(s: State, f: nat): nat {
    FrozenSum(s.frozen, f) + LiveAt(s, s.current, f)
  }

  ghost predicate ShapeInv(s: State) {
    && |s.cum| == FIELDS
    && (forall i :: 0 <= i < |s.live| ==> |s.live[i]| == FIELDS)
    && s.current == |s.live| - 1 == |s.frozen| == s.reconnects
    && (s.stats.Reporting? ==> s.stats.session == s.current && |s.stats.out| <= FIELDS)
    && (s.stats.Absorbing? ==> |s.stats.st| <= FIELDS && s.stats.failed == s.current
                               && s.reconnect == Dialling(s.stats.caller, s.stats.failed))
    && (s.reconnect.Dialling? ==> s.reconnect.failed == s.current)
    && (forall k :: 0 <= k < |s.reports| ==> |s.reports[k]| == FIELDS)
  }

  /** The accumulated counters are those of the replaced sessions. */
  ghost predicate CumInv(s: State) {
    forall f :: 0 <= f < FIELDS ==> At(s.cum, f) == FrozenSum(s.frozen, f)
  }

  /** What has been absorbed of a session lies between what it had counted when
      its reconnect took the lock and what it has counted by now. */
  ghost predicate AbsorbInv(s: State) {
    && (s.stats.Absorbing? ==>
          && |s.stats.atLock| == FIELDS
          && (forall f :: 0 <= f < FIELDS ==> At(s.stats.atLock, f) <= LiveAt(s, s.stats.failed, f))
          && (forall f :: 0 <= f < |s.stats.st| ==>
                At(s.stats.atLock, f) <= s.stats.st[f] <= LiveAt(s, s.stats.failed, f)))
    && (forall k, f :: 0 <= k < |s.frozen| && 0 <= f < FIELDS ==> At(s.frozen[k], f) <= LiveAt(s, k, f))
  }

  /** The least the next report can show in a field. */
  function Floor(s: State, f: nat): nat {
    if s.stats.Absorbing? && f < |s.stats.st| then FrozenSum(s.frozen, f) + s.stats.st[f]
    else Total(s, f)
  }

  /** No report so far exceeds what the next one will show, and what a report in
      the making has loaded already is still there. */
  ghost predicate FloorInv(s: State) {
    && (forall k, f :: 0 <= k < |s.reports| && 0 <= f < FIELDS ==> At(s.reports[k], f) <= Floor(s, f))
    && (s.stats.Reporting? ==> forall f :: 0 <= f < |s.stats.out| ==> s.stats.out[f] <= Total(s, f))
    && (s.stats.Reporting? ==> forall k, f :: 0 <= k < |s.reports| && 0 <= f < |s.stats.out| ==>
          At(s.reports[k], f) <= s.stats.out[f])
  }

  ghost predicate ReportsIncrease(s: State) {
    forall i, j, f :: 0 <= i < j < |s.reports| && 0 <= f < FIELDS ==> At(s.reports[i], f) <= At(s.reports[j], f)
  }

  // --- hooks --------------------------------------------------------------------------

  ghost predicate HookInv(s: State) {
    && (forall i, j :: 0 <= i < j < |s.fired| ==> s.fired[i] < s.fired[j])
    && (forall i :: 0 <= i < |s.fired| ==> s.fired[i] <= s.current && s.fired[i] !in s.wantFire)
    && (forall i :: i in s.wantFire ==> i <= s.current)
    && (s.reconnect.Swapped? ==> s.reconnect.installed == s.current
                                 && s.current !in s.wantFire && s.current !in s.fired)
    && (s.current > 0 && !s.closed ==>
          s.current in s.fired || s.current in s.wantFire
          || (s.reconnect.Swapped? && s.reconnect.installed == s.current))
    && (s.fireLocked <==> s.firing != {})
    && (s.fireLocked ==> |s.fired| > 0 && s.firing == {s.fired[|s.fired| - 1]})
  }

  ghost predicate Inv(s: State) {
    ShapeInv(s) && CumInv(s) && AbsorbInv(s) && FloorInv(s) && ReportsIncrease(s) && HookInv(s)
  }

  lemma InitInv(s: State)
    requires Init(s)
    ensures Inv(s)
  {
  }

  lemma CountInv(s: State, a: Action)
    requires Inv(s) && Enabled(s, a) && a.Count?
    ensures Inv(Next(s, a))
  {
    var s' := Next(s, a);
    forall f | 0 <= f < FIELDS
      ensures Total(s, f) <= Total(s', f) && Floor(s, f) <= Floor(s', f)
    {
    }
    if s.stats.Reporting? {
      forall f | 0 <= f < |s.stats.out|
        ensures s.stats.out[f] <= Total(s', f)
      {
        assert s.stats.out[f] <= Total(s, f);
      }
    }
  }

  lemma StatsLoadInv(s: State, a: Action)
    requires Inv(s) && Enabled(s, a) && a.StatsLoad?
    ensures Inv(Next(s, a))
  {
    var s' := Next(s, a);
    assert forall f :: 0 <= f < FIELDS ==> Floor(s', f) == Floor(s, f) == Total(s, f);
    var n := |s.stats.out|;
    assert s'.stats.out[n] == Total(s, n);
    forall k, f | 0 <= k < |s.reports| && 0 <= f < |s'.stats.out|
      ensures At(s.reports[k], f) <= s'.stats.out[f]
    {
      assert At(s.reports[k], f) <= Floor(s, f);
      if f < n {
        assert s'.stats.out[f] == s.stats.out[f];
      }
    }
  }

  lemma StatsLockInv(s: State, a: Action)
    requires Inv(s) && Enabled(s, a) && (a.StatsEnter? || a.StatsReturn?)
    ensures Inv(Next(s, a))
  {
    var s' := Next(s, a);
    assert forall f :: 0 <= f < FIELDS ==> Floor(s', f) == Floor(s, f) == Total(s, f);
  }

  /** What the new session starts with is added to the totals, and of the old
      one at least what it had counted when the lock was taken and at most what
      it has counted by now is kept. */
  lemma SwapCommitInv(s: State, a: Action)
    requires Inv(s) && Enabled(s, a) && a.SwapCommit?
    ensures Inv(Next(s, a))
    ensures forall f :: 0 <= f < FIELDS ==>
      FrozenSum(s.frozen, f) + At(s.stats.atLock, f) + At(a.counted, f)
      <= Total(Next(s, a), f) <= Total(s, f) + At(a.counted, f)
  {
    CommitCounters(s, a);
    CommitShape(s, a);
    CommitAbsorbed(s, a);
    CommitReports(s, a);
    SwapHooks(s, a);
  }

  /** The accumulated counters grow by what was absorbed, field by field. */
  lemma CommitCounters(s: State, a: Action)
    requires ShapeInv(s) && CumInv(s) && AbsorbInv(s) && Enabled(s, a) && a.SwapCommit?
    ensures CumInv(Next(s, a))
    ensures forall f :: 0 <= f < FIELDS ==>
      && Total(Next(s, a), f) == FrozenSum(s.frozen, f) + s.stats.st[f] + At(a.counted, f)
      && At(s.stats.atLock, f) <= s.stats.st[f] <= LiveAt(s, s.current, f)
  {
    forall f | 0 <= f < FIELDS
      ensures FrozenSum(Next(s, a).frozen, f) == FrozenSum(s.frozen, f) + s.stats.st[f]
    {
      FrozenSumSnoc(s.frozen, s.stats.st, f);
    }
  }

  lemma CommitShape(s: State, a: Action)
    requires ShapeInv(s) && Enabled(s, a) && a.SwapCommit?
    ensures ShapeInv(Next(s, a))
  {
  }

  lemma CommitAbsorbed(s: State, a: Action)
    requires ShapeInv(s) && AbsorbInv(s) && Enabled(s, a) && a.SwapCommit?
    ensures AbsorbInv(Next(s, a))
  {
    var s' := Next(s, a);
    forall k, f | 0 <= k < |s'.frozen| && 0 <= f < FIELDS
      ensures At(s'.frozen[k], f) <= LiveAt(s', k, f)
    {
      assert s'.live[k] == s.live[k];
      if k < |s.frozen| {
        assert At(s.frozen[k], f) <= LiveAt(s, k, f);
      }
    }
  }

  lemma CommitReports(s: State, a: Action)
    requires ShapeInv(s) && FloorInv(s) && ReportsIncrease(s) && Enabled(s, a) && a.SwapCommit?
    requires forall f :: 0 <= f < FIELDS ==>
      Total(Next(s, a), f) == FrozenSum(s.frozen, f) + s.stats.st[f] + At(a.counted, f)
    ensures FloorInv(Next(s, a)) && ReportsIncrease(Next(s, a))
  {
    var s' := Next(s, a);
    assert forall f :: 0 <= f < FIELDS ==> Floor(s, f) <= Floor(s', f);
  }

  lemma SwapHooks(s: State, a: Action)
    requires ShapeInv(s) && HookInv(s) && Enabled(s, a) && a.SwapCommit?
    ensures HookInv(Next(s, a))
  {
    var s' := Next(s, a);
    assert s'.current == s.current + 1;
    assert s'.fired == s.fired && s'.wantFire == s.wantFire && s'.firing == s.firing;
  }

  lemma SwapLoadInv(s: State, a: Action)
    requires Inv(s) && Enabled(s, a) && (a.SwapLock? || a.SwapLoad?)
    ensures Inv(Next(s, a))
  {
    var s' := Next(s, a);
    assert forall f :: 0 <= f < FIELDS ==> Floor(s', f) == Floor(s, f);
  }

  /** Actions that touch no counter and no report. */
  lemma CountersUntouched(s: State, s': State)
    requires ShapeInv(s) && CumInv(s) && FloorInv(s) && ReportsIncrease(s)
    requires s' == s.(reconnect := s'.reconnect, wantFire := s'.wantFire, firing := s'.firing,
                      fireLocked := s'.fireLocked, closed := s'.closed, fired := s'.fired)
    ensures CumInv(s') && FloorInv(s') && ReportsIncrease(s')
  {
    assert forall f :: 0 <= f < FIELDS ==> Floor(s', f) == Floor(s, f) && Total(s', f) == Total(s, f);
  }

  lemma OtherInv(s: State, a: Action)
    requires Inv(s) && Enabled(s, a)
    requires a.ReconnectEnter? || a.ReconnectGiveUp? || a.ReconnectLeave? || a.HooksLock? || a.HooksDone?
             || a.CloseClient?
    ensures Inv(Next(s, a))
  {
    CountersUntouched(s, Next(s, a));
    HooksKept(s, a);
  }

  lemma HooksKept(s: State, a: Action)
    requires ShapeInv(s) && HookInv(s) && Enabled(s, a)
    requires a.ReconnectEnter? || a.ReconnectGiveUp? || a.ReconnectLeave? || a.HooksLock? || a.HooksDone?
             || a.CloseClient?
    ensures HookInv(Next(s, a))
  {
    if a.HooksLock? {
      DispatchKeepsOrder(s, a);
    } else if a.ReconnectLeave? {
      LeaveKeepsHooks(s, a);
    }
  }

  lemma DispatchKeepsOrder(s: State, a: Action)
    requires ShapeInv(s) && HookInv(s) && Enabled(s, a) && a.HooksLock?
    ensures HookInv(Next(s, a))
  {
    var s' := Next(s, a);
    if !s.closed && s.current == a.session {
      assert s'.fired == s.fired + [a.session];
      assert forall i :: 0 <= i < |s.fired| ==> s.fired[i] != a.session;
    }
  }

  lemma LeaveKeepsHooks(s: State, a: Action)
    requires ShapeInv(s) && HookInv(s) && Enabled(s, a) && a.ReconnectLeave?
    ensures HookInv(Next(s, a))
  {
    assert forall i :: 0 <= i < |s.fired| ==> s.fired[i] in s.fired;
  }

  lemma StepInv(s: State, a: Action)
    requires Inv(s) && Enabled(s, a)
    ensures Inv(Next(s, a))
  {
    match a
    case Count(_, _) => CountInv(s, a);
    case StatsEnter => StatsLockInv(s, a);
    case StatsLoad => StatsLoadInv(s, a);
    case StatsReturn => StatsLockInv(s, a);
    case SwapLock => SwapLoadInv(s, a);
    case SwapLoad => SwapLoadInv(s, a);
    case SwapCommit(_) => SwapCommitInv(s, a);
    case _ => OtherInv(s, a);
  }

  // --- runs -----------------------------------------------------------------------------

  ghost predicate StepAt(states: seq<State>, actions: seq<Action>, i: nat)
    requires i < |actions| && |states| == |actions| + 1
  {
    Enabled(states[i], actions[i]) && states[i + 1] == Next(states[i], actions[i])
  }

  ghost predicate IsRun(states: seq<State>, actions: seq<Action>) {
    && |states| == |actions| + 1
    && Init(states[0])
    && forall i :: 0 <= i < |actions| ==> StepAt(states, actions, i)
  }

  lemma {:induction false} RunInv(states: seq<State>, actions: seq<Action>, i: nat)
    requires IsRun(states, actions) && i < |states|
    ensures Inv(states[i])
  {
    if i == 0 {
      InitInv(states[0]);
    } else {
      RunInv(states, actions, i - 1);
      assert StepAt(states, actions, i - 1);
      StepInv(states[i - 1], actions[i - 1]);
    }
  }

  // --- what is absorbed of a replaced session -------------------------------------------

  /** The swap of session k: its reconnect takes statsMu at step `lock` and holds
      it up to the exchange of the pointer at step `commit`. */
  ghost predicate SwapSpan(states: seq<State>, actions: seq<Action>, lock: nat, commit: nat, k: nat) {
    && |states| == |actions| + 1 && lock < commit < |actions|
    && actions[lock].SwapLock? && actions[commit].SwapCommit?
    && states[lock].current == states[commit].current == k
    && forall j :: lock < j <= commit ==> AbsorbsFrom(states[j], k)
  }

  ghost predicate AbsorbsFrom(s: State, k: nat) {
    s.stats.Absorbing? && s.stats.failed == k
  }

  /** Step i of the run reads counter f of session k off its memory. */
  ghost predicate ReadAt(states: seq<State>, actions: seq<Action>, i: nat, k: nat, f: nat, v: nat) {
    && i < |actions| && i < |states| && actions[i].SwapLoad?
    && AbsorbsFrom(states[i], k) && |states[i].stats.st| == f
    && v == LiveAt(states[i], k, f)
  }

  /** By state n each counter of the replaced session k has been absorbed with
      the value it had at one moment of that session's own swap. */
  ghost predicate AbsorbedInSwap(states: seq<State>, actions: seq<Action>, n: nat, k: nat) {
    n < |states| && k < |states[n].frozen| &&
    exists lock: nat, commit: nat ::
      && commit < n && SwapSpan(states, actions, lock, commit, k)
      && forall f: nat :: f < FIELDS ==>
           ReadInSpan(states, actions, lock, commit, k, f, At(states[n].frozen[k], f))
  }

  /** The value v was read strictly inside the span, and the counter had not yet
      passed it at the beginning nor falls short of it at the end. */
  ghost predicate ReadInSpan(states: seq<State>, actions: seq<Action>, lock: nat, commit: nat, k: nat, f: nat, v: nat) {
    && lock < commit < |states|
    && (exists i: nat :: lock < i < commit && ReadAt(states, actions, i, k, f, v))
    && LiveAt(states[lock], k, f) <= v <= LiveAt(states[commit], k, f)
  }

  /** The step that took the lock under which state n absorbs. */
  lemma {:induction false} LockOf(states: seq<State>, actions: seq<Action>, n: nat) returns (lock: nat)
    requires IsRun(states, actions) && n < |states| && states[n].stats.Absorbing?
    ensures lock < n && actions[lock].SwapLock? && states[lock].stats.Free?
    ensures states[lock].current == states[n].stats.failed
    ensures forall j :: lock < j <= n ==> AbsorbsFrom(states[j], states[n].stats.failed)
  {
    assert n > 0;
    assert StepAt(states, actions, n - 1);
    if actions[n - 1].SwapLock? {
      RunInv(states, actions, n);
      lock := n - 1;
    } else {
      lock := LockOf(states, actions, n - 1);
    }
  }

  /** The step that read a counter absorbed by state n. */
  lemma {:induction false} LoadOf(states: seq<State>, actions: seq<Action>, n: nat, f: nat) returns (i: nat)
    requires IsRun(states, actions) && n < |states| && states[n].stats.Absorbing? && f < |states[n].stats.st|
    ensures i < n && ReadAt(states, actions, i, states[n].stats.failed, f, states[n].stats.st[f])
    ensures forall j :: i <= j <= n ==> AbsorbsFrom(states[j], states[n].stats.failed)
  {
    assert n > 0;
    assert StepAt(states, actions, n - 1);
    if actions[n - 1].SwapLoad? && |states[n - 1].stats.st| == f {
      i := n - 1;
    } else {
      i := LoadOf(states, actions, n - 1, f);
    }
  }

  /** The step that replaced session k. */
  lemma {:induction false} CommitOf(states: seq<State>, actions: seq<Action>, n: nat, k: nat) returns (commit: nat)
    requires IsRun(states, actions) && n < |states| && k < |states[n].frozen|
    ensures commit < n && actions[commit].SwapCommit? && states[commit].current == k
    ensures AbsorbsFrom(states[commit], k) && |states[commit].stats.st| == FIELDS
    ensures states[n].frozen[k] == states[commit].stats.st
  {
    assert n > 0;
    assert StepAt(states, actions, n - 1);
    if k < |states[n - 1].frozen| {
      commit := CommitOf(states, actions, n - 1, k);
    } else {
      RunInv(states, actions, n - 1);
      commit := n - 1;
    }
  }

  lemma CounterStep(s: State, a: Action, k: nat, f: nat)
    requires Enabled(s, a)
    ensures LiveAt(s, k, f) <= LiveAt(Next(s, a), k, f)
  {
  }

  lemma {:induction false} CountersGrow(states: seq<State>, actions: seq<Action>, i: nat, j: nat, k: nat, f: nat)
    requires IsRun(states, actions) && i <= j < |states|
    ensures LiveAt(states[i], k, f) <= LiveAt(states[j], k, f)
    decreases j
  {
    if i < j {
      CountersGrow(states, actions, i, j - 1, k, f);
      assert StepAt(states, actions, j - 1);
      CounterStep(states[j - 1], actions[j - 1], k, f);
    }
  }

  /** Every replaced session's absorbed counters are counters that session really
      had: each was read during that session's swap, so it is at least what the
      session had counted when the lock was taken, and no more than when it was
      replaced. */
  lemma AbsorbedCountersAreReal(states: seq<State>, actions: seq<Action>, n: nat, k: nat)
    requires IsRun(states, actions) && n < |states| && k < |states[n].frozen|
    ensures AbsorbedInSwap(states, actions, n, k)
  {
    var commit := CommitOf(states, actions, n, k);
    var lock := LockOf(states, actions, commit);
    assert SwapSpan(states, actions, lock, commit, k);
    forall f: nat | f < FIELDS
      ensures ReadInSpan(states, actions, lock, commit, k, f, At(states[n].frozen[k], f))
    {
      var i := LoadOf(states, actions, commit, f);
      assert AbsorbsFrom(states[i], k);
      assert lock < i;
      CountersGrow(states, actions, lock, i, k, f);
      CountersGrow(states, actions, i, commit, k, f);
    }
  }

  /** Every counter a report loads is, at that moment, the sum over all sessions
      installed so far: the current one live, and each replaced one once, with a
      value it had during its own swap. */
  lemma ReportsAreTotals(states: seq<State>, actions: seq<Action>, i: nat)
    requires IsRun(states, actions) && i < |actions| && actions[i].StatsLoad? && states[i].stats.Reporting?
    ensures var s, f := states[i], |states[i].stats.out|;
      && states[i + 1].stats == Reporting(s.current, s.stats.out + [FrozenSum(s.frozen, f) + LiveAt(s, s.current, f)])
      && |s.frozen| == s.current == s.reconnects
    ensures forall k: nat :: k < states[i].current ==> AbsorbedInSwap(states, actions, i, k)
  {
    RunInv(states, actions, i);
    assert StepAt(states, actions, i);
    forall k: nat | k < states[i].current
      ensures AbsorbedInSwap(states, actions, i, k)
    {
      AbsorbedCountersAreReal(states, actions, i, k);
    }
  }

  /** Reported counters never decrease, in any interleaving. */
  lemma ReportsNeverDecrease(states: seq<State>, actions: seq<Action>, n: nat, i: nat, j: nat, f: nat)
    requires IsRun(states, actions) && n < |states|
    requires i < j < |states[n].reports| && f < FIELDS
    ensures |states[n].reports[i]| == |states[n].reports[j]| == FIELDS
    ensures states[n].reports[i][f] <= states[n].reports[j][f]
  {
    RunInv(states, actions, n);
    assert At(states[n].reports[i], f) <= At(states[n].reports[j], f);
  }

  /** Hooks are dispatched one session at a time, each session at most once, and
      in the order of installation. */
  lemma HooksAreOrdered(states: seq<State>, actions: seq<Action>, n: nat)
    requires IsRun(states, actions) && n < |states|
    ensures |states[n].firing| <= 1
    ensures forall i, j :: 0 <= i < j < |states[n].fired| ==> states[n].fired[i] < states[n].fired[j]
  {
    RunInv(states, actions, n);
  }

  /** The newest session's hooks are never lost: while the client is open they
      have been dispatched, are waiting to be, or its reconnect has yet to let go
      of its lock. */
  lemma NewestHooksAreKept(states: seq<State>, actions: seq<Action>, n: nat)
    requires IsRun(states, actions) && n < |states|
    requires states[n].current > 0 && !states[n].closed
    ensures var s := states[n];
      s.current in s.fired || s.current in s.wantFire || (s.reconnect.Swapped? && s.reconnect.installed == s.current)
  {
    RunInv(states, actions, n);
  }

  /** Once the client is closed no dispatch of hooks begins, and unless a reconnect
      was already under way none begins and the session stays. */
  lemma {:induction false} QuietAfterClose(states: seq<State>, actions: seq<Action>, i: nat, j: nat)
    requires IsRun(states, actions) && i <= j < |states| && states[i].closed
    ensures states[j].closed && states[j].fired == states[i].fired
    ensures states[i].reconnect.NoOne? ==> states[j].reconnect.NoOne? && states[j].current == states[i].current
    decreases j
  {
    if i < j {
      QuietAfterClose(states, actions, i, j - 1);
      RunInv(states, actions, j - 1);
      assert StepAt(states, actions, j - 1);
      QuietStep(states[j - 1], actions[j - 1]);
    }
  }

  lemma QuietStep(s: State, a: Action)
    requires ShapeInv(s) && Enabled(s, a) && s.closed
    ensures Next(s, a).closed && Next(s, a).fired == s.fired
    ensures s.reconnect.NoOne? ==> Next(s, a).reconnect.NoOne? && Next(s, a).current == s.current
  {
  }

  /** A reconnect begins only for the session in use: any other caller finds its
      failed session replaced already and changes nothing. */
  lemma OnlyOneReplaces(states: seq<State>, actions: seq<Action>, i: nat)
    requires IsRun(states, actions) && i < |actions| && actions[i].ReconnectEnter?
    ensures var s, s', failed := states[i], states[i + 1], actions[i].failed;
      if s.closed || failed != s.current then s' == s
      else s'.reconnect == Dialling(actions[i].caller, failed)
    ensures states[i + 1].current == states[i].current
  {
    assert StepAt(states, actions, i);
  }

  // --- the client object ------------------------------------------------------------------

  class Session {
    var counters: seq<nat>

    constructor (counted: seq<nat>)
      requires |counted| == FIELDS
      ensures counters == counted
    {
      counters := counted;
    }
  }

  class Client {
    var cum: seq<nat>
    var reconnects: nat
    var s: Session

    ghost predicate Valid()
      reads this, s
    {
      |cum| == FIELDS && |s.counters| == FIELDS
    }

    ghost function Totals(): seq<nat>
      requires Valid()
      reads this, s
    {
      Add(cum, s.counters)
    }

    constructor (first: Session)
      requires |first.counters| == FIELDS
      ensures Valid() && s == first && Totals() == first.counters && reconnects == 0
    {
      cum, reconnects, s := Zeros(), 0, first;
    }

    method FoldStats(st: seq<nat>)
      requires |cum| == |st| == FIELDS
      modifies this`cum
      ensures |cum| == FIELDS && cum == Add(old(cum), st)
    {
      var sum: seq<nat> := [];
      for f := 0 to FIELDS
        invariant |sum| == f && forall k :: 0 <= k < f ==> sum[k] == cum[k] + st[k]
      {
        sum := sum + [cum[f] + st[f]];
      }
      assert sum == Add(cum, st);
      cum := sum;
    }

    method Stats() returns (out: seq<nat>)
      requires Valid()
      ensures out == Totals()
      ensures |out| == 6 && forall f :: 0 <= f < 6 ==> out[f] == cum[f] + s.counters[f]
    {
      out := [];
      for f := 0 to FIELDS
        invariant |out| == f && forall k :: 0 <= k < f ==> out[k] == cum[k] + s.counters[k]
      {
        out := out + [cum[f] + s.counters[f]];
      }
      assert out == Add(cum, s.counters);
    }

    /** The swap: nothing counted so far is lost, nothing is counted twice. */
    method Swap(next: Session)
      requires Valid() && |next.counters| == FIELDS
      modifies this
      ensures Valid() && s == next && reconnects == old(reconnects) + 1
      ensures Totals() == Add(old(Totals()), next.counters)
    {
      FoldStats(s.counters);
      reconnects := reconnects + 1;
      s := next;
    }
  }
}
