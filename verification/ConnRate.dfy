/** The per-destination connect limiter: a token bucket per address, with idle
    buckets collected now and then.  Time is in seconds. */
module ConnRate {

  const BURST := 8.0
  const REFILL_PER_SEC := 2.0
  const GC_EVERY := 30.0
  const MAX_IDLE := 300.0

  datatype Bucket = Bucket(tokens: real, last: real, touched: real)

  datatype State<A> = State(buckets: map<A, Bucket>, lastGc: real)

  function MinReal(a: real, b: real): real {
    if a <= b then a else b
  }

  function Refill(b: Bucket, now: real): Bucket {
    if now - b.last > 0.0
    then b.(tokens := MinReal(b.tokens + (now - b.last) * REFILL_PER_SEC, BURST), last := now)
    else b
  }

  /** The buckets touched within the last five minutes. */
  function Collect<A>(buckets: map<A, Bucket>, now: real): map<A, Bucket> {
    map a | a in buckets && !(now - buckets[a].touched > MAX_IDLE) :: buckets[a]
  }

  function MaybeCollect<A>(s: State<A>, now: real): State<A> {
    if now - s.lastGc > GC_EVERY then State(Collect(s.buckets, now), now) else s
  }

  /** The bucket a connect at `now` draws from. */
  function Current<A>(s: State<A>, target: A, now: real): Bucket {
    (if target in s.buckets then Refill(s.buckets[target], now) else Bucket(BURST, now, now)).(touched := now)
  }

  function Spend(b: Bucket): Bucket {
    if b.tokens >= 1.0 then b.(tokens := b.tokens - 1.0) else b
  }

  /** A connect on a limiter that never collects. */
  function Draw<A>(s: State<A>, target: A, now: real): State<A> {
    s.(buckets := s.buckets[target := Spend(Current(s, target, now))])
  }

  predicate Granted<A>(s: State<A>, target: A, now: real) {
    Current(s, target, now).tokens >= 1.0
  }

  function Fresh<A>(now: real): State<A> {
    State(map[], now)
  }

  // --- schedules -----------------------------------------------------------------

  datatype Event<A> = Connect(target: A, at: real) | Reset(at: real)

  /** The state a connect at `now` finds; only the real limiter collects. */
  function Found<A>(collects: bool, s: State<A>, now: real): State<A> {
    if collects then MaybeCollect(s, now) else s
  }

  function Step<A>(collects: bool, s: State<A>, e: Event<A>): State<A> {
    match e
    case Reset(at) => Fresh(at)
    case Connect(a, at) => Draw(Found(collects, s, at), a, at)
  }

  predicate Allowed<A>(collects: bool, s: State<A>, e: Event<A>) {
    e.Connect? ==> Granted(Found(collects, s, e.at), e.target, e.at)
  }

  /** The answers given to a schedule, resets included as `true`. */
  function Answers<A>(collects: bool, s: State<A>, events: seq<Event<A>>): (r: seq<bool>)
    ensures |r| == |events|
    decreases |events|
  {
    if events == [] then []
    else [Allowed(collects, s, events[0])] + Answers(collects, Step(collects, s, events[0]), events[1..])
  }

  /** The state a schedule leads to. */
  function After<A>(collects: bool, s: State<A>, events: seq<Event<A>>): State<A>
    decreases |events|
  {
    if events == [] then s else After(collects, Step(collects, s, events[0]), events[1..])
  }

  function MaxReal(a: real, b: real): real {
    if a <= b then b else a
  }

  /** The latest stamp served. */
  function Latest<A>(events: seq<Event<A>>, from: real): real
    decreases |events|
  {
    if events == [] then from else Latest(events[1..], MaxReal(from, events[0].at))
  }

  /** Calls read the clock before they take the lock, so one may be served after
      a call with a later stamp.  Here none comes more than `lag` seconds after
      the latest stamp served before it. */
  ghost predicate Lagging<A>(events: seq<Event<A>>, latest: real, lag: real)
    decreases |events|
  {
    events == [] ||
    (latest - lag <= events[0].at && Lagging(events[1..], MaxReal(latest, events[0].at), lag))
  }

  /** A non-decreasing clock from `from` on. */
  ghost predicate Monotone<A>(events: seq<Event<A>>, from: real)
    decreases |events|
  {
    events == [] || (from <= events[0].at && Monotone(events[1..], events[0].at))
  }

  lemma {:induction false} MonotoneHasNoLag<A>(events: seq<Event<A>>, from: real)
    requires Monotone(events, from)
    ensures Lagging(events, from, 0.0)
    decreases |events|
  {
    if events != [] {
      MonotoneHasNoLag(events[1..], events[0].at);
    }
  }

  lemma {:induction false} LagWeakens<A>(events: seq<Event<A>>, latest: real, lag: real, more: real)
    requires Lagging(events, latest, lag) && lag <= more
    ensures Lagging(events, latest, more)
    decreases |events|
  {
    if events != [] {
      LagWeakens(events[1..], MaxReal(latest, events[0].at), lag, more);
    }
  }

  /** Buckets as calls with at most this lag leave them, the latest stamp being
      t: `last` is the latest stamp of the bucket's own calls. */
  ghost predicate WellFormed<A>(s: State<A>, t: real, lag: real) {
    forall a :: a in s.buckets ==>
      && 0.0 <= s.buckets[a].tokens <= BURST
      && s.buckets[a].last - lag <= s.buckets[a].touched <= s.buckets[a].last <= t
  }

  lemma DrawWellFormed<A>(s: State<A>, target: A, t: real, lag: real, now: real)
    requires WellFormed(s, t, lag) && lag >= 0.0 && t - lag <= now
    ensures WellFormed(Draw(s, target, now), MaxReal(t, now), lag)
  {
    var d, u := Draw(s, target, now), MaxReal(t, now);
    forall a | a in d.buckets
      ensures 0.0 <= d.buckets[a].tokens <= BURST
      ensures d.buckets[a].last - lag <= d.buckets[a].touched <= d.buckets[a].last <= u
    {
      if a != target {
        assert a in s.buckets && d.buckets[a] == s.buckets[a];
      }
    }
  }

  lemma CollectWellFormed<A>(s: State<A>, t: real, lag: real, now: real)
    requires WellFormed(s, t, lag)
    ensures WellFormed(MaybeCollect(s, now), t, lag)
  {
  }

  /** Every schedule leads to a well-formed state. */
  lemma {:induction false} ReachableIsWellFormed<A>(s: State<A>, t: real, lag: real, events: seq<Event<A>>)
    requires WellFormed(s, t, lag) && lag >= 0.0 && Lagging(events, t, lag)
    ensures WellFormed(After(true, s, events), Latest(events, t), lag)
    decreases |events|
  {
    if events != [] {
      var now, u := events[0].at, MaxReal(t, events[0].at);
      match events[0]
      case Reset(_) =>
        ReachableIsWellFormed<A>(Fresh(now), u, lag, events[1..]);
      case Connect(a, _) =>
        CollectWellFormed(s, t, lag, now);
        DrawWellFormed(MaybeCollect(s, now), a, t, lag, now);
        ReachableIsWellFormed(Draw(MaybeCollect(s, now), a, now), u, lag, events[1..]);
    }
  }

  // --- when collection is invisible --------------------------------------------------

  /** The lag up to which collection cannot be seen: a collected bucket was
      touched more than 300 s ago, its latest refill is at most one lag later, and
      a call comes at most one lag after the collection; full again after 4 s. */
  const LAG_LIMIT := (MAX_IDLE - BURST / REFILL_PER_SEC) / 2.0

  /** The collecting limiter knows the same buckets, less some that were last
      refilled so long before t that any call still to come finds them full. */
  ghost predicate Simulates<A>(g: State<A>, p: State<A>, t: real, lag: real) {
    && (forall a :: a in g.buckets ==> a in p.buckets && g.buckets[a] == p.buckets[a])
    && (forall a :: a in p.buckets && a !in g.buckets ==> t - p.buckets[a].last > MAX_IDLE - lag)
  }

  lemma CollectSimulates<A>(g: State<A>, p: State<A>, t: real, lag: real, now: real)
    requires Simulates(g, p, t, lag) && WellFormed(p, t, lag)
    ensures Simulates(MaybeCollect(g, now), p, MaxReal(t, now), lag)
  {
    var c, u := MaybeCollect(g, now), MaxReal(t, now);
    forall a | a in p.buckets && a !in c.buckets
      ensures u - p.buckets[a].last > MAX_IDLE - lag
    {
      if a in g.buckets {
        assert now - p.buckets[a].touched > MAX_IDLE;
      }
    }
  }

  /** A bucket refilled long enough ago is full: drawing on it is drawing on a
      fresh one. */
  lemma IdleIsFull<A>(p: State<A>, target: A, t: real, lag: real, now: real)
    requires WellFormed(p, t, lag) && target in p.buckets
    requires now - p.buckets[target].last >= 4.0
    ensures Current(p, target, now) == Bucket(8.0, now, now)
  {
    var b := p.buckets[target];
    assert (now - b.last) * REFILL_PER_SEC >= BURST;
  }

  lemma SameDraw<A>(g: State<A>, p: State<A>, target: A, t: real, u: real, lag: real, now: real)
    requires WellFormed(p, t, lag) && 0.0 <= lag <= LAG_LIMIT && u - lag <= now
    requires Simulates(g, p, u, lag)
    ensures Current(g, target, now) == Current(p, target, now)
    ensures Simulates(Draw(g, target, now), Draw(p, target, now), u, lag)
  {
    if target in p.buckets && target !in g.buckets {
      IdleIsFull(p, target, t, lag, now);
    }
    var g', p' := Draw(g, target, now), Draw(p, target, now);
    forall a | a in p'.buckets && a !in g'.buckets
      ensures u - p'.buckets[a].last > MAX_IDLE - lag
    {
      assert a in p.buckets && a !in g.buckets && p'.buckets[a] == p.buckets[a];
    }
  }

  lemma {:induction false} SimulationAnswers<A>(g: State<A>, p: State<A>, t: real, lag: real, events: seq<Event<A>>)
    requires Simulates(g, p, t, lag) && WellFormed(p, t, lag) && 0.0 <= lag <= LAG_LIMIT
    requires Lagging(events, t, lag)
    ensures Answers(true, g, events) == Answers(false, p, events)
    decreases |events|
  {
    if events != [] {
      var now, u := events[0].at, MaxReal(t, events[0].at);
      match events[0]
      case Reset(_) =>
        SimulationAnswers<A>(Fresh(now), Fresh(now), u, lag, events[1..]);
      case Connect(a, _) =>
        CollectSimulates(g, p, t, lag, now);
        var c := MaybeCollect(g, now);
        SameDraw(c, p, a, t, u, lag, now);
        DrawWellFormed(p, a, t, lag, now);
        SimulationAnswers(Draw(c, a, now), Draw(p, a, now), u, lag, events[1..]);
    }
  }

  /** On every schedule with a non-decreasing clock, the limiter with garbage
      collection answers as one that never collects. */
  lemma CollectionIsInvisible<A>(start: real, events: seq<Event<A>>)
    requires Monotone(events, start)
    ensures Answers(true, Fresh(start), events) == Answers(false, Fresh(start), events)
  {
    MonotoneHasNoLag(events, start);
    SimulationAnswers<A>(Fresh(start), Fresh(start), start, 0.0, events);
  }

  // --- schedules in parts --------------------------------------------------------------

  /** n connects to one address with one stamp. */
  function Burst<A>(a: A, at: real, n: nat): (r: seq<Event<A>>)
    ensures |r| == n
  {
    if n == 0 then [] else [Connect(a, at)] + Burst(a, at, n - 1)
  }

  lemma {:induction false} InParts<A>(collects: bool, s: State<A>, e: seq<Event<A>>, f: seq<Event<A>>)
    ensures After(collects, s, e + f) == After(collects, After(collects, s, e), f)
    ensures Answers(collects, s, e + f) == Answers(collects, s, e) + Answers(collects, After(collects, s, e), f)
    decreases |e|
  {
    if e == [] {
      assert e + f == f;
    } else {
      assert (e + f)[0] == e[0] && (e + f)[1..] == e[1..] + f;
      InParts(collects, Step(collects, s, e[0]), e[1..], f);
    }
  }

  lemma {:induction false} LagInParts<A>(e: seq<Event<A>>, f: seq<Event<A>>, latest: real, lag: real)
    requires Lagging(e, latest, lag) && Lagging(f, Latest(e, latest), lag)
    ensures Lagging(e + f, latest, lag) && Latest(e + f, latest) == Latest(f, Latest(e, latest))
    decreases |e|
  {
    if e == [] {
      assert e + f == f;
    } else {
      assert (e + f)[0] == e[0] && (e + f)[1..] == e[1..] + f;
      LagInParts(e[1..], f, MaxReal(latest, e[0].at), lag);
    }
  }

  lemma {:induction false} BurstLags<A>(a: A, at: real, n: nat, latest: real, lag: real)
    requires lag >= 0.0 && latest - lag <= at
    ensures Lagging(Burst(a, at, n), latest, lag)
    ensures Latest(Burst(a, at, n), latest) == if n == 0 then latest else MaxReal(latest, at)
    decreases n
  {
    if n > 0 {
      assert Burst(a, at, n)[1..] == Burst(a, at, n - 1);
      BurstLags(a, at, n - 1, MaxReal(latest, at), lag);
    }
  }

  /** A burst within the tokens of a bucket is granted and costs as many tokens,
      while no collection is due and the stamp brings no refill. */
  lemma {:induction false} BurstSpends<A>(collects: bool, s: State<A>, a: A, at: real, n: nat)
    requires a in s.buckets && s.buckets[a].tokens >= n as real && at <= s.buckets[a].last
    requires at - s.lastGc <= GC_EVERY
    ensures var r := After(collects, s, Burst(a, at, n));
      && r.lastGc == s.lastGc && a in r.buckets
      && r.buckets[a].tokens == s.buckets[a].tokens - n as real && r.buckets[a].last == s.buckets[a].last
      && (n == 0 || r.buckets[a].touched == at)
    ensures forall i :: 0 <= i < n ==> Answers(collects, s, Burst(a, at, n))[i]
    decreases n
  {
    if n > 0 {
      var d := Draw(s, a, at);
      assert Burst(a, at, n)[1..] == Burst(a, at, n - 1);
      assert d.buckets[a].tokens == s.buckets[a].tokens - 1.0 && d.buckets[a].last == s.buckets[a].last;
      BurstSpends(collects, d, a, at, n - 1);
    }
  }

  /** Eight connects drain a new bucket. */
  lemma DrainNew<A>(collects: bool, start: real, a: A)
    ensures var r := After(collects, Fresh(start), Burst(a, start, 8));
      && r.lastGc == start && a in r.buckets && r.buckets[a] == Bucket(0.0, start, start)
    ensures forall i :: 0 <= i < 8 ==> Answers(collects, Fresh(start), Burst(a, start, 8))[i]
  {
    var s: State<A> := Fresh(start);
    var d := Draw(s, a, start);
    assert Found(collects, s, start) == s;
    assert Burst(a, start, 8)[1..] == Burst(a, start, 7);
    assert d.buckets[a] == Bucket(7.0, start, start);
    BurstSpends(collects, d, a, start, 7);
  }

  // --- where collection shows ------------------------------------------------------------

  /** Drain a at 1000, touch it with a stamp one lag back, let b's call collect it
      at 1152, and come back with stamps one lag before that: too soon for the old
      bucket to be full, but a new one is. */
  function Revealing<A>(a: A, b: A, lag: real): seq<Event<A>> {
    Burst(a, 1000.0, 8) + [Connect(a, 1000.0 - lag), Connect(b, 1152.0)] + Burst(a, 1152.0 - lag, 7)
    + [Connect(a, 1152.0 - lag)]
  }

  lemma RevealingLags<A>(a: A, b: A, lag: real)
    requires LAG_LIMIT < lag
    ensures Lagging(Revealing(a, b, lag), 1000.0, lag)
  {
    var e1, e2 := Burst(a, 1000.0, 8), [Connect(a, 1000.0 - lag), Connect(b, 1152.0)];
    var e3, e4 := Burst(a, 1152.0 - lag, 7), [Connect(a, 1152.0 - lag)];
    BurstLags(a, 1000.0, 8, 1000.0, lag);
    assert Lagging(e2, 1000.0, lag) && Latest(e2, 1000.0) == 1152.0 by {
      assert e2[1..] == [Connect(b, 1152.0)] && e2[1..][1..] == [];
      assert Latest(e2, 1000.0) == Latest(e2[1..], 1000.0) == Latest(e2[1..][1..], 1152.0);
    }
    LagInParts(e1, e2, 1000.0, lag);
    BurstLags(a, 1152.0 - lag, 7, 1152.0, lag);
    LagInParts(e1 + e2, e3, 1000.0, lag);
    assert Lagging(e4, 1152.0, lag) by {
      assert e4[1..] == [];
    }
    LagInParts(e1 + e2 + e3, e4, 1000.0, lag);
  }

  /** Before the seven connects: only the plain limiter still has a's bucket. */
  lemma RevealingMiddle<A>(collects: bool, a: A, b: A, lag: real)
    requires a != b && LAG_LIMIT < lag
    ensures var s := After(collects, Fresh(1000.0), Burst(a, 1000.0, 8) + [Connect(a, 1000.0 - lag), Connect(b, 1152.0)]);
      if collects then a !in s.buckets && s.lastGc == 1152.0
      else a in s.buckets && s.buckets[a] == Bucket(0.0, 1000.0, 1000.0 - lag) && s.lastGc == 1000.0
  {
    var e2 := [Connect(a, 1000.0 - lag), Connect(b, 1152.0)];
    DrainNew(collects, 1000.0, a);
    InParts(collects, Fresh(1000.0), Burst(a, 1000.0, 8), e2);
    var s := After(collects, Fresh(1000.0), Burst(a, 1000.0, 8));
    var t := Draw(s, a, 1000.0 - lag);
    assert Found(collects, s, 1000.0 - lag) == s;
    assert t.buckets[a] == Bucket(0.0, 1000.0, 1000.0 - lag);
    assert e2[1..] == [Connect(b, 1152.0)] && e2[1..][1..] == [];
    var u := Found(collects, t, 1152.0);
    assert After(collects, s, e2) == After(collects, t, e2[1..]) == Draw(u, b, 1152.0);
    if collects {
      assert u.buckets == Collect(t.buckets, 1152.0);
      assert a !in u.buckets;
    }
  }

  lemma RevealingEnd<A>(collects: bool, s: State<A>, a: A, lag: real)
    requires LAG_LIMIT < lag <= LAG_LIMIT + 0.5
    requires if collects then a !in s.buckets && s.lastGc == 1152.0
             else a in s.buckets && s.buckets[a] == Bucket(0.0, 1000.0, 1000.0 - lag) && s.lastGc == 1000.0
    ensures var at := 1152.0 - lag;
      Answers(collects, After(collects, s, Burst(a, at, 7)), [Connect(a, at)]) == [collects]
  {
    var at := 1152.0 - lag;
    var d := Draw(s, a, at);
    assert Found(collects, s, at) == s;
    assert Burst(a, at, 7)[1..] == Burst(a, at, 6);
    assert d.buckets[a].last == at && d.buckets[a].tokens == if collects then 7.0 else 303.0 - 2.0 * lag;
    BurstSpends(collects, d, a, at, 6);
    var r := After(collects, d, Burst(a, at, 6));
    assert r == After(collects, s, Burst(a, at, 7));
    assert Found(collects, r, at) == r;
    assert Granted(r, a, at) == collects;
  }

  /** Beyond the limit there is a schedule on which collection shows. */
  lemma LagRevealsCollection<A>(a: A, b: A, lag: real)
    requires a != b && 148.0 < lag <= 148.5
    ensures var events := Revealing(a, b, lag);
      && Lagging(events, 1000.0, lag)
      && Answers(true, Fresh(1000.0), events) != Answers(false, Fresh(1000.0), events)
  {
    RevealingLags(a, b, lag);
    var head := Burst(a, 1000.0, 8) + [Connect(a, 1000.0 - lag), Connect(b, 1152.0)];
    var seven, last := Burst(a, 1152.0 - lag, 7), [Connect(a, 1152.0 - lag)];
    forall collects: bool
      ensures var all := Answers(collects, Fresh(1000.0), Revealing(a, b, lag));
        all[|all| - 1] == collects
    {
      RevealingMiddle(collects, a, b, lag);
      InParts(collects, Fresh(1000.0), head, seven);
      InParts(collects, Fresh(1000.0), head + seven, last);
      RevealingEnd(collects, After(collects, Fresh(1000.0), head), a, lag);
    }
  }

  /** Collection is invisible on every schedule with a given lag if and only if
      the lag is at most 148 seconds. */
  lemma CollectionIsInvisibleExactly<A(!new)>(a: A, b: A, lag: real)
    requires a != b
    ensures (forall start: real, events: seq<Event<A>> :: Lagging(events, start, lag) ==>
               Answers(true, Fresh(start), events) == Answers(false, Fresh(start), events))
            <==> lag <= 148.0
  {
    if lag <= LAG_LIMIT {
      forall start: real, events: seq<Event<A>> | Lagging(events, start, lag)
        ensures Answers(true, Fresh(start), events) == Answers(false, Fresh(start), events)
      {
        LagWeakens(events, start, lag, MaxReal(lag, 0.0));
        SimulationAnswers<A>(Fresh(start), Fresh(start), start, MaxReal(lag, 0.0), events);
      }
    } else {
      var l := MinReal(lag, LAG_LIMIT + 0.5);
      LagRevealsCollection(a, b, l);
      LagWeakens(Revealing(a, b, l), 1000.0, l, lag);
    }
  }

  // --- what is kept ----------------------------------------------------------------------

  /** No bucket was last touched more than five minutes before the last collection. */
  ghost predicate Swept<A>(s: State<A>) {
    forall a :: a in s.buckets ==> s.buckets[a].touched >= s.lastGc - 300.0
  }

  lemma SweptStep<A>(s: State<A>, t: real, e: Event<A>)
    requires Swept(s) && s.lastGc <= t <= e.at
    ensures var r := Step(true, s, e);
      && Swept(r) && r.lastGc <= e.at <= r.lastGc + 30.0
      && (forall a :: a in r.buckets ==> r.buckets[a].touched >= e.at - 330.0)
  {
  }

  /** A call no more than 30 seconds after the last collection drops no bucket; a later
      one drops exactly those not touched for more than 300 seconds. */
  lemma CollectsWhen<A>(s: State<A>, target: A, now: real, a: A)
    requires a != target
    ensures var r := Step(true, s, Connect(target, now));
      && r.lastGc == (if now > s.lastGc + 30.0 then now else s.lastGc)
      && (a in r.buckets <==> a in s.buckets && (now <= s.lastGc + 30.0 || now - s.buckets[a].touched <= 300.0))
      && (a in r.buckets ==> r.buckets[a] == s.buckets[a])
  {
  }

  /** On every non-decreasing clock, after every call, no bucket is kept that was last
      touched more than 330 seconds ago. */
  lemma {:induction false} BucketsAreRecent<A>(s: State<A>, t: real, events: seq<Event<A>>)
    requires Swept(s) && s.lastGc <= t && Monotone(events, t) && events != []
    ensures var r := After(true, s, events);
      && Swept(r) && r.lastGc <= Latest(events, t)
      && forall a :: a in r.buckets ==> r.buckets[a].touched >= Latest(events, t) - 330.0
    decreases |events|
  {
    var r, now := Step(true, s, events[0]), events[0].at;
    SweptStep(s, t, events[0]);
    if |events| > 1 {
      BucketsAreRecent(r, now, events[1..]);
    } else {
      assert events[1..] == [];
    }
  }

  // --- the rate bound ------------------------------------------------------------------

  /** Tokens address a would have at time t. */
  function Level<A>(s: State<A>, a: A, t: real): real {
    if a in s.buckets
    then MinReal(s.buckets[a].tokens + MaxReal(t - s.buckets[a].last, 0.0) * REFILL_PER_SEC, BURST)
    else BURST
  }

  /** A connect is granted exactly when its address has a whole token, whatever
      is collected on the way. */
  lemma GrantedByLevel<A>(s: State<A>, t: real, lag: real, a: A, now: real)
    requires WellFormed(s, t, lag) && 0.0 <= lag <= 148.0 && t - lag <= now
    ensures Granted(MaybeCollect(s, now), a, now) <==> Level(s, a, now) >= 1.0
  {
    var c := MaybeCollect(s, now);
    if a in s.buckets && a !in c.buckets {
      assert now - s.buckets[a].last > MAX_IDLE - lag;
      IdleIsFull(s, a, t, lag, now);
    }
  }

  /** A granted connect costs its address one token at once; no other level
      changes, and afterwards the level refills at two tokens a second. */
  lemma DrawCostsOneToken<A>(s: State<A>, t: real, lag: real, b: A, now: real, a: A, u: real)
    requires WellFormed(s, t, lag) && t <= now <= u
    ensures a != b ==> Level(Draw(s, b, now), a, u) == Level(s, a, u)
    ensures a == b ==>
      (Level(Draw(s, b, now), a, u) ==
       MinReal(Level(s, a, now) - (if Granted(s, b, now) then 1.0 else 0.0) + 2.0 * (u - now), BURST))
  {
  }

  /** A new address is granted a burst of eight connects at one instant, and no
      ninth. */
  lemma BurstOfEight<A>(collects: bool, start: real, a: A)
    ensures Answers(collects, Fresh(start), Burst(a, start, 8) + [Connect(a, start)])
            == [true, true, true, true, true, true, true, true, false]
  {
    DrainNew(collects, start, a);
    var s := After(collects, Fresh(start), Burst(a, start, 8));
    InParts(collects, Fresh(start), Burst(a, start, 8), [Connect(a, start)]);
    assert Found(collects, s, start) == s && !Granted(s, a, start);
    assert [Connect(a, start)][1..] == [];
  }

  /** How many connects to `a` stamped within [from, to] were granted. */
  function GrantedWithin<A(==)>(calls: seq<Event<A>>, answers: seq<bool>, a: A, from: real, to: real): nat
    requires |answers| == |calls|
    decreases |calls|
  {
    if calls == [] then 0
    else
      (if calls[0].Connect? && calls[0].target == a && from <= calls[0].at <= to && answers[0] then 1 else 0)
      + GrantedWithin(calls[1..], answers[1..], a, from, to)
  }

  ghost predicate NoReset<A(!new)>(events: seq<Event<A>>) {
    forall e :: e in events ==> e.Connect?
  }

  /** What a lag adds to the bound: a call stamped after the interval may refill
      the bucket by two tokens for every second of lag, but takes one itself. */
  function Slack(lag: real): real {
    MaxReal(0.0, 2.0 * lag - 1.0)
  }

  /** How many connects to `a` stamped within [from, to] the plain limiter can
      still grant, the latest stamp served being t. */
  function Room<A>(s: State<A>, a: A, t: real, from: real, to: real, lag: real): real {
    if t > to + lag then 0.0
    else if a !in s.buckets || s.buckets[a].last < from then BURST + 2.0 * (to - from) + Slack(lag)
    else
      var b := s.buckets[a];
      if b.last < to then b.tokens + 2.0 * (to - b.last) + Slack(lag)
      else MaxReal(if b.tokens >= 1.0 then b.tokens else 0.0, b.tokens + 2.0 * (to + lag - b.last) - 1.0)
  }

  lemma RoomBound<A>(s: State<A>, a: A, t: real, from: real, to: real, lag: real)
    requires WellFormed(s, t, lag) && lag >= 0.0 && from <= to
    ensures 0.0 <= Room(s, a, t, from, to, lag) <= BURST + 2.0 * (to - from) + Slack(lag)
  {
  }

  /** A connect granted within the interval uses up one of the connects left, and
      no connect adds to them. */
  lemma RoomStep<A>(s: State<A>, b: A, now: real, a: A, t: real, from: real, to: real, lag: real)
    requires WellFormed(s, t, lag) && lag >= 0.0 && from <= to && t - lag <= now
    ensures (if b == a && from <= now <= to && Granted(s, b, now) then 1.0 else 0.0)
            + Room(Draw(s, b, now), a, MaxReal(t, now), from, to, lag) <= Room(s, a, t, from, to, lag)
  {
    RoomBound(s, a, t, from, to, lag);
    if b != a {
      assert a in Draw(s, b, now).buckets <==> a in s.buckets;
    }
  }

  lemma {:induction false} CountedAgainstRoom<A(!new)>(s: State<A>, t: real, lag: real, calls: seq<Event<A>>, a: A,
                                                       from: real, to: real)
    requires WellFormed(s, t, lag) && lag >= 0.0 && Lagging(calls, t, lag) && NoReset(calls) && from <= to
    ensures GrantedWithin(calls, Answers(false, s, calls), a, from, to) as real <= Room(s, a, t, from, to, lag)
    decreases |calls|
  {
    if calls == [] {
      RoomBound(s, a, t, from, to, lag);
    } else {
      var now, b := calls[0].at, calls[0].target;
      assert forall e :: e in calls[1..] ==> e in calls;
      var d := Draw(s, b, now);
      DrawWellFormed(s, b, t, lag, now);
      CountedAgainstRoom(d, MaxReal(t, now), lag, calls[1..], a, from, to);
      RoomStep(s, b, now, a, t, from, to, lag);
      assert Answers(false, s, calls)[1..] == Answers(false, d, calls[1..]);
    }
  }

  /** Between resets, whatever happened before, at most 8 + 2 (to - from) connects
      to one address stamped within [from, to] are granted, and 2 lag - 1 more if
      the lag is above half a second. */
  lemma LaggingRateBound<A(!new)>(s: State<A>, t: real, lag: real, calls: seq<Event<A>>, a: A, from: real, to: real)
    requires WellFormed(s, t, lag) && 0.0 <= lag <= 148.0
    requires Lagging(calls, t, lag) && NoReset(calls) && from <= to
    ensures GrantedWithin(calls, Answers(true, s, calls), a, from, to) as real
            <= 8.0 + 2.0 * (to - from) + Slack(lag)
  {
    SimulationAnswers(s, s, t, lag, calls);
    CountedAgainstRoom(s, t, lag, calls, a, from, to);
    RoomBound(s, a, t, from, to, lag);
  }

  /** On every non-decreasing clock at most 8 + 2 (to - from) connects to one
      address stamped within [from, to] are granted between resets. */
  lemma RateBound<A(!new)>(s: State<A>, t: real, calls: seq<Event<A>>, a: A, from: real, to: real)
    requires WellFormed(s, t, 0.0) && Monotone(calls, t) && NoReset(calls) && from <= to
    ensures GrantedWithin(calls, Answers(true, s, calls), a, from, to) as real <= 8.0 + 2.0 * (to - from)
  {
    MonotoneHasNoLag(calls, t);
    LaggingRateBound(s, t, 0.0, calls, a, from, to);
  }

  /** The bound holds for every schedule with the given lag from a fresh limiter. */
  ghost predicate RateBounded<A(!new)>(a: A, lag: real) {
    forall start: real, calls: seq<Event<A>>, from: real, to: real ::
      Lagging(calls, start, lag) && NoReset(calls) && from <= to ==>
        GrantedWithin(calls, Answers(true, Fresh(start), calls), a, from, to) as real <= 8.0 + 2.0 * (to - from)
  }

  /** Eight connects at 0, one at 1, and one more stamped within the half second
      after 0. */
  function Refilling<A>(a: A, lag: real): seq<Event<A>> {
    Burst(a, 0.0, 8) + [Connect(a, 1.0), Connect(a, 1.0 - lag)]
  }

  lemma {:induction false} GrantedInParts<A>(e: seq<Event<A>>, f: seq<Event<A>>, x: seq<bool>, y: seq<bool>, a: A,
                                             from: real, to: real)
    requires |x| == |e| && |y| == |f|
    ensures GrantedWithin(e + f, x + y, a, from, to)
         == GrantedWithin(e, x, a, from, to) + GrantedWithin(f, y, a, from, to)
    decreases |e|
  {
    if e == [] {
      assert e + f == f && x + y == y;
    } else {
      assert (e + f)[0] == e[0] && (e + f)[1..] == e[1..] + f && (x + y)[1..] == x[1..] + y;
      GrantedInParts(e[1..], f, x[1..], y, a, from, to);
    }
  }

  lemma {:induction false} GrantedBurst<A>(a: A, at: real, n: nat, x: seq<bool>, from: real, to: real)
    requires |x| == n && (forall i :: 0 <= i < n ==> x[i]) && from <= at <= to
    ensures GrantedWithin(Burst(a, at, n), x, a, from, to) == n
    decreases n
  {
    if n > 0 {
      assert Burst(a, at, n)[1..] == Burst(a, at, n - 1);
      GrantedBurst(a, at, n - 1, x[1..], from, to);
    }
  }

  lemma RefillingLags<A>(a: A, lag: real)
    requires 0.5 < lag <= 1.0
    ensures Lagging(Refilling(a, lag), 0.0, lag)
  {
    var f := [Connect(a, 1.0), Connect(a, 1.0 - lag)];
    assert f[1..] == [Connect(a, 1.0 - lag)] && f[1..][1..] == [];
    BurstLags(a, 0.0, 8, 0.0, lag);
    assert Lagging(f, 0.0, lag);
    LagInParts(Burst(a, 0.0, 8), f, 0.0, lag);
  }

  /** The connect at 1 finds two tokens and leaves one for the stamp before. */
  lemma RefillingEnd<A>(s: State<A>, a: A, lag: real)
    requires 0.5 < lag <= 1.0
    requires a in s.buckets && s.buckets[a] == Bucket(0.0, 0.0, 0.0) && s.lastGc == 0.0
    ensures Answers(true, s, [Connect(a, 1.0), Connect(a, 1.0 - lag)]) == [true, true]
  {
    var f := [Connect(a, 1.0), Connect(a, 1.0 - lag)];
    assert f[1..] == [Connect(a, 1.0 - lag)] && f[1..][1..] == [];
    var d := Draw(s, a, 1.0);
    assert d.buckets[a] == Bucket(1.0, 1.0, 1.0);
    assert Granted(s, a, 1.0) && Granted(d, a, 1.0 - lag);
    assert Answers(true, d, f[1..]) == [true];
  }

  lemma RefillingCount<A>(a: A, lag: real)
    requires 0.5 < lag <= 1.0
    ensures GrantedWithin([Connect(a, 1.0), Connect(a, 1.0 - lag)], [true, true], a, 0.0, 1.0 - lag) == 1
  {
    var f, y := [Connect(a, 1.0), Connect(a, 1.0 - lag)], [true, true];
    assert f[1..] == [Connect(a, 1.0 - lag)] && f[1..][1..] == [] && y[1..] == [true];
    assert GrantedWithin(f[1..], y[1..], a, 0.0, 1.0 - lag) == 1;
  }

  lemma LagBreaksRateBound<A>(a: A, lag: real)
    requires 0.5 < lag <= 1.0
    ensures Lagging(Refilling(a, lag), 0.0, lag)
    ensures GrantedWithin(Refilling(a, lag), Answers(true, Fresh(0.0), Refilling(a, lag)), a, 0.0, 1.0 - lag) == 9
  {
    var e, f := Burst(a, 0.0, 8), [Connect(a, 1.0), Connect(a, 1.0 - lag)];
    RefillingLags(a, lag);
    DrainNew(true, 0.0, a);
    InParts(true, Fresh(0.0), e, f);
    RefillingEnd(After(true, Fresh(0.0), e), a, lag);
    GrantedBurst(a, 0.0, 8, Answers(true, Fresh(0.0), e), 0.0, 1.0 - lag);
    GrantedInParts(e, f, Answers(true, Fresh(0.0), e), [true, true], a, 0.0, 1.0 - lag);
    RefillingCount(a, lag);
  }

  /** The promised 8 + 2 (to - from) holds on every schedule with a given lag if
      and only if the lag is at most half a second. */
  lemma RateBoundExactly<A(!new)>(a: A, lag: real)
    ensures RateBounded(a, lag) <==> lag <= 0.5
  {
    if lag <= 0.5 {
      forall start: real, calls: seq<Event<A>>, from: real, to: real
        | Lagging(calls, start, lag) && NoReset(calls) && from <= to
        ensures GrantedWithin(calls, Answers(true, Fresh(start), calls), a, from, to) as real
                <= 8.0 + 2.0 * (to - from)
      {
        var l := MaxReal(lag, 0.0);
        LagWeakens(calls, start, lag, l);
        LaggingRateBound(Fresh(start), start, l, calls, a, from, to);
      }
    } else {
      var l := MinReal(lag, 1.0);
      LagBreaksRateBound(a, l);
      LagWeakens(Refilling(a, l), 0.0, l, lag);
      BurstHasNoReset(a, 0.0, 8);
      assert NoReset(Refilling(a, l));
      assert 9.0 > 8.0 + 2.0 * (1.0 - l - 0.0);
    }
  }

  lemma {:induction false} BurstHasNoReset<A(!new)>(a: A, at: real, n: nat)
    ensures NoReset(Burst(a, at, n))
  {
    if n > 0 {
      BurstHasNoReset(a, at, n - 1);
    }
  }

  // --- the limiter --------------------------------------------------------------------

  class ConnRateLimiter<A(==)> {
    var buckets: map<A, Bucket>
    var lastGc: real

    ghost function Abs(): State<A>
      reads this
    {
      State(buckets, lastGc)
    }

    constructor (now: real)
      ensures Abs() == Fresh(now)
    {
      buckets, lastGc := map[], now;
    }

    /** Drops idle buckets one by one. */
    method Gc(now: real)
      modifies this`buckets
      ensures buckets == Collect(old(buckets), now)
    {
      ghost var before := buckets;
      var left := buckets.Keys;
      while left != {}
        invariant left <= before.Keys
        invariant forall a :: a in buckets <==>
          a in before && (a in left || !(now - before[a].touched > MAX_IDLE))
        invariant forall a :: a in buckets ==> buckets[a] == before[a]
        decreases |left|
      {
        var k :| k in left;
        left := left - {k};
        if now - buckets[k].touched > MAX_IDLE {
          buckets := buckets - {k};
        }
      }
    }

    method Allow(target: A, now: real) returns (ok: bool)
      modifies this
      ensures ok == Granted(MaybeCollect(old(Abs()), now), target, now)
      ensures Abs() == Draw(MaybeCollect(old(Abs()), now), target, now)
    {
      if now - lastGc > GC_EVERY {
        Gc(now);
        lastGc := now;
      }
      var b: Bucket;
      if target !in buckets {
        b := Bucket(BURST, now, now);
        buckets := buckets[target := b];
      } else {
        b := buckets[target];
        var elapsed := now - b.last;
        if elapsed > 0.0 {
          b := b.(tokens := b.tokens + elapsed * REFILL_PER_SEC);
          if b.tokens > BURST {
            b := b.(tokens := BURST);
          }
          b := b.(last := now);
        }
      }
      b := b.(touched := now);
      ok := b.tokens >= 1.0;
      if ok {
        b := b.(tokens := b.tokens - 1.0);
      }
      buckets := buckets[target := b];
    }

    method Reset(now: real)
      modifies this
      ensures Abs() == Fresh(now) && buckets == map[] && lastGc == now
    {
      buckets := map[];
      lastGc := now;
    }
  }
}
