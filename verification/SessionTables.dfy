/** The session's key-id tables and its worker manager. */
module SessionTables {
  import opened Bytes

  const KEY_IDS := 8

  type Kid = k: int | 0 <= k < KEY_IDS

  /** (cur + 1) & 7, skipping 0. */
  function NextKeyId(cur: Kid): Kid {
    var next := (cur + 1) % 8;
    if next == 0 then 1 else next
  }

  /** The k-th successor of a key-id. */
  function KeyIdAfter(cur: Kid, k: nat): Kid {
    if k == 0 then cur else NextKeyId(KeyIdAfter(cur, k - 1))
  }

  lemma NextKeyIdMoves(k: Kid)
    ensures NextKeyId(k) != k && NextKeyId(k) != 0
  {
  }

  lemma Mod7Step(x: nat)
    ensures (x + 1) % 7 == if x % 7 == 6 then 0 else x % 7 + 1
  {
  }

  /** Key-ids run 0, 1, ..., 7, 1, ...: once past 0 they repeat with period 7. */
  lemma {:induction false} KeyIdsRecycle(k: nat)
    ensures KeyIdAfter(0, k) == if k == 0 then 0 else (k - 1) % 7 + 1
  {
    if k > 1 {
      KeyIdsRecycle(k - 1);
      Mod7Step(k - 2);
    }
  }

  function Lookup<T>(m: map<Kid, T>, k: Kid): Option<T> {
    if k in m then Some(m[k]) else None
  }

  /** Remove the entry only if it is still the expected object. */
  function RemoveIf<T(==)>(m: map<Kid, T>, k: Kid, want: Option<T>): map<Kid, T> {
    if Lookup(m, k) == want then m - {k} else m
  }

  // --- a table as the history of its operations ----------------------------------

  datatype TableOp<T> = Put(kid: Kid, obj: T) | TakeIf(kid: Kid, want: Option<T>) | Take(kid: Kid)

  function ApplyOp<T(==)>(m: map<Kid, T>, op: TableOp<T>): map<Kid, T> {
    match op
    case Put(k, v) => m[k := v]
    case TakeIf(k, want) => RemoveIf(m, k, want)
    case Take(k) => m - {k}
  }

  function TableOf<T(==)>(log: seq<TableOp<T>>): map<Kid, T> {
    if log == [] then map[] else ApplyOp(TableOf(log[..|log| - 1]), log[|log| - 1])
  }

  /** An operation after which v is no longer registered at k, or anew. */
  predicate Ends<T(==)>(op: TableOp<T>, k: Kid, v: T) {
    op.kid == k && (op.TakeIf? ==> op.want == Some(v))
  }

  /** v was registered at k, and since then nothing was registered there, nothing
      taken off unconditionally, and v itself not retired: retirements of other
      objects, however late, do not count. */
  ghost predicate Stands<T(!new)>(log: seq<TableOp<T>>, k: Kid, v: T) {
    exists i :: 0 <= i < |log| && StandsSince(log, k, v, i)
  }

  ghost predicate StandsSince<T(!new)>(log: seq<TableOp<T>>, k: Kid, v: T, i: nat) {
    && i < |log| && log[i] == Put(k, v)
    && forall j :: i < j < |log| ==> !Ends(log[j], k, v)
  }

  /** One more operation. */
  lemma StandsSnoc<T(!new)>(log: seq<TableOp<T>>, op: TableOp<T>, k: Kid, v: T)
    ensures Stands(log + [op], k, v) <==> op == Put(k, v) || (Stands(log, k, v) && !Ends(op, k, v))
  {
    var more := log + [op];
    assert more[|log|] == op;
    if op == Put(k, v) {
      assert StandsSince(more, k, v, |log|);
    }
    if Stands(log, k, v) && !Ends(op, k, v) {
      var i :| 0 <= i < |log| && StandsSince(log, k, v, i);
      assert StandsSince(more, k, v, i);
    }
    if Stands(more, k, v) && op != Put(k, v) {
      var i :| 0 <= i < |more| && StandsSince(more, k, v, i);
      assert i < |log|;
      assert forall j :: i < j < |log| ==> more[j] == log[j];
      assert StandsSince(log, k, v, i);
    }
  }

  /** A lookup finds exactly the object that stands. */
  lemma {:induction false} LookupFindsWhatStands<T(!new)>(log: seq<TableOp<T>>, k: Kid, v: T)
    ensures Lookup(TableOf(log), k) == Some(v) <==> Stands(log, k, v)
  {
    if log != [] {
      var init, op := log[..|log| - 1], log[|log| - 1];
      assert log == init + [op];
      LookupFindsWhatStands(init, k, v);
      StandsSnoc(init, op, k, v);
    }
  }

  /** Data slots by key-id, with the key-id used for sending. */
  class SlotTable<T(==, !new)> {
    var byKid: map<Kid, T>
    var active: Kid
    ghost var log: seq<TableOp<T>>

    ghost predicate Valid()
      reads this
    {
      byKid == TableOf(log)
    }

    constructor ()
      ensures Valid() && log == [] && byKid == map[] && active == 0
    {
      byKid, active, log := map[], 0, [];
    }

    method Install(kid: Kid, s: T, makeActive: bool)
      requires Valid()
      modifies this
      ensures Valid() && log == old(log) + [Put(kid, s)]
      ensures byKid == old(byKid)[kid := s]
      ensures active == if makeActive then kid else old(active)
    {
      byKid := byKid[kid := s];
      if makeActive {
        active := kid;
      }
      log := log + [Put(kid, s)];
    }

    method RetireIf(kid: Kid, want: Option<T>)
      requires Valid()
      modifies this`byKid, this`log
      ensures Valid() && log == old(log) + [TakeIf(kid, want)]
      ensures byKid == RemoveIf(old(byKid), kid, want)
    {
      var cur := if kid in byKid then Some(byKid[kid]) else None;
      if cur == want {
        byKid := byKid - {kid};
      }
      log := log + [TakeIf(kid, want)];
    }

    /** Finds the slot installed last under the key-id, unless that very slot was
        retired. */
    method Get(kid: Kid) returns (s: Option<T>)
      requires Valid()
      ensures forall v :: s == Some(v) <==> Stands(log, kid, v)
    {
      s := if kid in byKid then Some(byKid[kid]) else None;
      forall v
        ensures s == Some(v) <==> Stands(log, kid, v)
      {
        LookupFindsWhatStands(log, kid, v);
      }
    }
  }

  /** Reliability layers by key-id. */
  class LayerTable<T(==, !new)> {
    var byKid: map<Kid, T>
    ghost var log: seq<TableOp<T>>

    ghost predicate Valid()
      reads this
    {
      byKid == TableOf(log)
    }

    constructor ()
      ensures Valid() && log == [] && byKid == map[]
    {
      byKid, log := map[], [];
    }

    /** Returns the different layer that had the key-id before, if any. */
    method Install(kid: Kid, l: T) returns (displaced: Option<T>)
      requires Valid()
      modifies this
      ensures Valid() && log == old(log) + [Put(kid, l)]
      ensures byKid == old(byKid)[kid := l]
      ensures displaced == if Lookup(old(byKid), kid) == Some(l) then None else Lookup(old(byKid), kid)
    {
      displaced := None;
      if kid in byKid && byKid[kid] != l {
        displaced := Some(byKid[kid]);
      }
      byKid := byKid[kid := l];
      log := log + [Put(kid, l)];
    }

    method RetireIf(kid: Kid, want: Option<T>) returns (l: Option<T>)
      requires Valid()
      modifies this
      ensures Valid() && log == old(log) + [TakeIf(kid, want)]
      ensures l == if want.Some? && Lookup(old(byKid), kid) == want then want else None
      ensures byKid == if want.Some? then RemoveIf(old(byKid), kid, want) else old(byKid)
    {
      if want.Some? && kid in byKid && byKid[kid] == want.value {
        l := Some(byKid[kid]);
        byKid := byKid - {kid};
      } else {
        l := None;
      }
      log := log + [TakeIf(kid, want)];
      assert want == None ==> RemoveIf(byKid, kid, want) == byKid;
    }

    /** Finds the layer installed last under the key-id, unless it was taken off
        since. */
    method Get(kid: Kid) returns (l: Option<T>)
      requires Valid()
      ensures forall v :: l == Some(v) <==> Stands(log, kid, v)
    {
      l := if kid in byKid then Some(byKid[kid]) else None;
      forall v
        ensures l == Some(v) <==> Stands(log, kid, v)
      {
        LookupFindsWhatStands(log, kid, v);
      }
    }

    method Retire(kid: Kid) returns (l: Option<T>)
      requires Valid()
      modifies this
      ensures Valid() && log == old(log) + [Take(kid)]
      ensures l == Lookup(old(byKid), kid)
      ensures byKid == old(byKid) - {kid}
    {
      l := if kid in byKid then Some(byKid[kid]) else None;
      byKid := byKid - {kid};
      log := log + [Take(kid)];
    }
  }

  /** The worker manager: once shut down it never counts another worker in, so
      waiting for the counter to reach zero cannot race with an increment. */
  class Manager {
    var shutdown: bool
    var running: nat

    constructor ()
      ensures !shutdown && running == 0
    {
      shutdown, running := false, 0;
    }

    method Go() returns (ok: bool)
      modifies this`running
      ensures ok == !shutdown
      ensures running == if ok then old(running) + 1 else old(running)
    {
      if shutdown {
        return false;
      }
      running := running + 1;
      return true;
    }

    method WorkerReturns(panicked: bool)
      requires running > 0
      modifies this
      ensures running == old(running) - 1
      ensures shutdown == (old(shutdown) || panicked)
    {
      if panicked {
        Shutdown();
      }
      running := running - 1;
    }

    method Shutdown()
      modifies this`shutdown
      ensures shutdown
    {
      shutdown := true;
    }
  }
}
