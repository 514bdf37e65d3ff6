/** Answers of a DNS response: which of its address records belong to the name
    that was asked for. */
module DnsAnswers {
  import opened Bytes
  import opened DnsNames

  const TYPE_A: u16 := 1
  const TYPE_CNAME: u16 := 5
  const TYPE_AAAA: u16 := 28

  datatype Answer = Answer(owner: Name, typ: u16, rdata: seq<byte>, target: Name)

  // --- the CNAME closure ------------------------------------------------------------

  /** A CNAME record with a usable target. */
  predicate IsAlias(rr: Answer) {
    rr.typ == TYPE_CNAME && rr.target != []
  }

  /** A chain of alias records leading from one name to another. */
  ghost predicate IsChain(rrs: seq<Answer>, from: Name, chain: seq<Answer>, to: Name) {
    if chain == [] then from == to
    else
      var last := chain[|chain| - 1];
      && last in rrs && IsAlias(last) && last.target == to
      && IsChain(rrs, from, chain[..|chain| - 1], last.owner)
  }

  ghost predicate Reachable(rrs: seq<Answer>, from: Name, to: Name) {
    exists chain :: IsChain(rrs, from, chain, to)
  }

  lemma ReachableSelf(rrs: seq<Answer>, from: Name)
    ensures Reachable(rrs, from, from)
  {
    assert IsChain(rrs, from, [], from);
  }

  lemma ReachableStep(rrs: seq<Answer>, from: Name, rr: Answer)
    requires Reachable(rrs, from, rr.owner) && rr in rrs && IsAlias(rr)
    ensures Reachable(rrs, from, rr.target)
  {
    var chain :| IsChain(rrs, from, chain, rr.owner);
    assert (chain + [rr])[..|chain|] == chain;
    assert IsChain(rrs, from, chain + [rr], rr.target);
  }

  /** A set of names that no alias leads out of. */
  ghost predicate Closed(rrs: seq<Answer>, names: set<Name>) {
    forall rr :: rr in rrs && IsAlias(rr) && rr.owner in names ==> rr.target in names
  }

  lemma {:induction false} ClosedHoldsChains(rrs: seq<Answer>, names: set<Name>, from: Name, chain: seq<Answer>, to: Name)
    requires Closed(rrs, names) && from in names && IsChain(rrs, from, chain, to)
    ensures to in names
    decreases |chain|
  {
    if chain != [] {
      ClosedHoldsChains(rrs, names, from, chain[..|chain| - 1], chain[|chain| - 1].owner);
    }
  }

  /** Reachability does not depend on the order of the records. */
  lemma {:induction false} ChainIgnoresOrder(rrs: seq<Answer>, rrs': seq<Answer>, from: Name, chain: seq<Answer>, to: Name)
    requires forall rr :: rr in rrs ==> rr in rrs'
    requires IsChain(rrs, from, chain, to)
    ensures IsChain(rrs', from, chain, to)
    decreases |chain|
  {
    if chain != [] {
      ChainIgnoresOrder(rrs, rrs', from, chain[..|chain| - 1], chain[|chain| - 1].owner);
    }
  }

  lemma ReachabilityIgnoresOrder(rrs: seq<Answer>, rrs': seq<Answer>, from: Name, to: Name)
    requires multiset(rrs) == multiset(rrs')
    ensures Reachable(rrs, from, to) <==> Reachable(rrs', from, to)
  {
    assert forall rr :: rr in rrs <==> rr in multiset(rrs);
    assert forall rr :: rr in rrs' <==> rr in multiset(rrs');
    if Reachable(rrs, from, to) {
      var chain :| IsChain(rrs, from, chain, to);
      ChainIgnoresOrder(rrs, rrs', from, chain, to);
    }
    if Reachable(rrs', from, to) {
      var chain :| IsChain(rrs', from, chain, to);
      ChainIgnoresOrder(rrs', rrs, from, chain, to);
    }
  }

  /** The reachable names are the least set with the query's name in it that no CNAME
      record (type 5) with a target leads out of. */
  lemma ReachableIsLeast(rrs: seq<Answer>, from: Name, to: Name)
    ensures Reachable(rrs, from, to) <==>
      forall names: set<Name> ::
        from in names && (forall rr :: rr in rrs && rr.typ == 5 && rr.target != [] && rr.owner in names ==>
                            rr.target in names)
        ==> to in names
  {
    if Reachable(rrs, from, to) {
      var chain :| IsChain(rrs, from, chain, to);
      forall names: set<Name> | from in names
        && (forall rr :: rr in rrs && rr.typ == 5 && rr.target != [] && rr.owner in names ==> rr.target in names)
        ensures to in names
      {
        assert Closed(rrs, names);
        ClosedHoldsChains(rrs, names, from, chain, to);
      }
    } else {
      var names := set n | n in Targets(rrs) + {from} && Reachable(rrs, from, n);
      ReachableSelf(rrs, from);
      forall rr | rr in rrs && rr.typ == 5 && rr.target != [] && rr.owner in names
        ensures rr.target in names
      {
        ReachableStep(rrs, from, rr);
        assert rr.target in Targets(rrs);
      }
      assert to !in names;
    }
  }

  function Targets(rrs: seq<Answer>): set<Name> {
    set rr | rr in rrs :: rr.target
  }

  lemma {:induction false} TargetsAreFew(rrs: seq<Answer>)
    ensures |Targets(rrs)| <= |rrs|
    decreases |rrs|
  {
    if rrs != [] {
      var rest := rrs[1..];
      TargetsAreFew(rest);
      assert rrs == [rrs[0]] + rest;
      assert Targets(rrs) == Targets(rest) + {rrs[0].target};
    }
  }

  /** Every accepted name is reachable and comes from the query or a target. */
  ghost predicate Sound(rrs: seq<Answer>, qname: Name, accepted: set<Name>) {
    && qname in accepted
    && (forall n :: n in accepted ==> Reachable(rrs, qname, n))
    && accepted <= Targets(rrs) + {qname}
  }

  /** One pass over the records. */
  method ExtendOnce(rrs: seq<Answer>, qname: Name, before: set<Name>) returns (accepted: set<Name>, grew: bool)
    requires Sound(rrs, qname, before)
    ensures Sound(rrs, qname, accepted) && before <= accepted
    ensures grew <==> |before| < |accepted|
    ensures !grew ==> accepted == before && Closed(rrs, accepted)
  {
    accepted, grew := before, false;
    for i := 0 to |rrs|
      invariant Sound(rrs, qname, accepted) && before <= accepted
      invariant if grew then |before| < |accepted| else accepted == before
      invariant !grew ==> forall k :: 0 <= k < i && IsAlias(rrs[k]) && rrs[k].owner in accepted ==>
                            rrs[k].target in accepted
    {
      var rr := rrs[i];
      if rr.typ == TYPE_CNAME && rr.target != [] && rr.owner in accepted && rr.target !in accepted {
        ReachableStep(rrs, qname, rr);
        assert rr.target in Targets(rrs);
        SubsetSize(before, accepted);
        assert |accepted + {rr.target}| == |accepted| + 1;
        accepted := accepted + {rr.target};
        grew := true;
      }
    }
  }

  /** The fixpoint loop yields exactly the names reachable from the query name,
      within one round more than there are records. */
  method AcceptedNames(rrs: seq<Answer>, qname: Name) returns (accepted: set<Name>, rounds: nat)
    ensures forall n :: n in accepted <==> Reachable(rrs, qname, n)
    ensures rounds <= |rrs| + 1
  {
    accepted := {qname};
    rounds := 0;
    var grew := true;
    ReachableSelf(rrs, qname);
    while grew
      invariant Sound(rrs, qname, accepted)
      invariant !grew ==> Closed(rrs, accepted)
      invariant |accepted| >= if grew then rounds + 1 else rounds
      invariant |accepted| <= |rrs| + 1
      decreases if grew then |rrs| + 2 - |accepted| else 0
    {
      accepted, grew := ExtendOnce(rrs, qname, accepted);
      rounds := rounds + 1;
      TargetsAreFew(rrs);
      SubsetSize(accepted, Targets(rrs) + {qname});
      assert |Targets(rrs) + {qname}| <= |Targets(rrs)| + 1;
    }
    forall n | Reachable(rrs, qname, n)
      ensures n in accepted
    {
      var chain :| IsChain(rrs, qname, chain, n);
      ClosedHoldsChains(rrs, accepted, qname, chain, n);
    }
  }

  // --- reading the records --------------------------------------------------------------

  function SkipQuestions(resp: seq<byte>, pos: nat, n: nat): Result<nat, DnsError>
    decreases n
  {
    if n == 0 then Ok(pos)
    else
      var s := Skip(resp, pos);
      if s.Err? then s
      else if s.value + 4 > |resp| then Err(TruncatedQuestion)
      else SkipQuestions(resp, s.value + 4, n - 1)
  }

  /** A record as it stands in the response: owner, type, data, and where the
      data begins. */
  datatype Raw = Raw(owner: Name, typ: u16, rdata: seq<byte>, at: nat)

  /** One record, and the position after it. */
  function ReadRaw(resp: seq<byte>, pos: nat): Result<(Raw, nat), DnsError> {
    var o := Decoded(resp, pos);
    if o.Err? then Err(o.error)
    else
      var p := o.value.1;
      if p + 10 > |resp| then Err(TruncatedAnswer)
      else
        var len := GetU16(resp[p + 8..p + 10]);
        if p + 10 + len > |resp| then Err(TruncatedData)
        else Ok((Raw(o.value.0, GetU16(resp[p..p + 2]), resp[p + 10..p + 10 + len], p + 10), p + 10 + len))
  }

  /** Reading n things one after the other, whatever they are, and the position after
      them. */
  function Many<R>(read: nat -> Result<(R, nat), DnsError>, start: nat, n: nat): Result<(seq<R>, nat), DnsError> {
    if n == 0 then Ok(([], start))
    else
      var before := Many(read, start, n - 1);
      if before.Err? then before
      else
        var a := read(before.value.1);
        if a.Err? then Err(a.error) else Ok((before.value.0 + [a.value.0], a.value.1))
  }

  /** The first n records. */
  function ReadRaws(resp: seq<byte>, start: nat, n: nat): Result<(seq<Raw>, nat), DnsError> {
    Many((p: nat) => ReadRaw(resp, p), start, n)
  }

  /** The first thing that cannot be read decides. */
  lemma {:induction false} FirstErrorStays<R>(read: nat -> Result<(R, nat), DnsError>, start: nat, m: nat, n: nat)
    requires m <= n && Many(read, start, m).Err?
    ensures Many(read, start, n) == Many(read, start, m)
    decreases n
  {
    if m < n {
      FirstErrorStays(read, start, m, n - 1);
    }
  }

  /** A CNAME's target is the name its data starts with, if that decodes. */
  function Resolve(resp: seq<byte>, raw: Raw): Answer {
    var t := if raw.typ == TYPE_CNAME then Decoded(resp, raw.at) else Err(NoData);
    Answer(raw.owner, raw.typ, raw.rdata, if t.Ok? then t.value.0 else [])
  }

  function ResolveAll(resp: seq<byte>, raws: seq<Raw>): seq<Answer> {
    if raws == [] then [] else ResolveAll(resp, raws[..|raws| - 1]) + [Resolve(resp, raws[|raws| - 1])]
  }

  lemma ResolveAllSnoc(resp: seq<byte>, raws: seq<Raw>, raw: Raw)
    ensures ResolveAll(resp, raws + [raw]) == ResolveAll(resp, raws) + [Resolve(resp, raw)]
  {
    assert (raws + [raw])[..|raws|] == raws;
  }

  /** The header checks, in order. */
  function HeaderError(resp: seq<byte>, wantId: u16): Option<DnsError> {
    if |resp| < 12 then Some(ResponseTooShort)
    else if GetU16(resp[0..2]) != wantId then Some(IdMismatch)
    else
      var flags := GetU16(resp[2..4]);
      if flags < 0x8000 then Some(NotAResponse)
      else if flags / 0x200 % 2 == 1 then Some(Truncated)
      else if flags % 16 == 3 then Some(NoSuchDomain)
      else if flags % 16 != 0 then Some(BadRcode)
      else None
  }

  /** All the answer records of a response. */
  function Records(resp: seq<byte>, wantId: u16): Result<seq<Answer>, DnsError> {
    var h := HeaderError(resp, wantId);
    if h.Some? then Err(h.value)
    else
      var q := SkipQuestions(resp, 12, GetU16(resp[4..6]));
      if q.Err? then Err(q.error)
      else
        var raws := ReadRaws(resp, q.value, GetU16(resp[6..8]));
        if raws.Err? then Err(raws.error) else Ok(ResolveAll(resp, raws.value.0))
  }

  // --- selecting addresses ------------------------------------------------------------

  predicate WellSized(rr: Answer) {
    (rr.typ == TYPE_A && |rr.rdata| == 4) || (rr.typ == TYPE_AAAA && |rr.rdata| == 16)
  }

  /** The data of the well-sized records of the wanted type whose owner can be
      reached from the query, in order. */
  ghost function Addresses(all: seq<Answer>, qname: Name, wantType: u16, rrs: seq<Answer>): seq<seq<byte>> {
    if rrs == [] then []
    else
      var rest := Addresses(all, qname, wantType, rrs[..|rrs| - 1]);
      var rr := rrs[|rrs| - 1];
      if rr.typ == wantType && WellSized(rr) && Reachable(all, qname, rr.owner) then rest + [rr.rdata] else rest
  }

  /** What a response means for a query. */
  ghost function Verdict(resp: seq<byte>, wantId: u16, wantType: u16, qname: Name)
    : Result<seq<seq<byte>>, DnsError>
  {
    var r := Records(resp, wantId);
    if r.Err? then Err(r.error) else Selection(r.value, CanonicalName(qname), wantType)
  }

  /** What a list of records means for a query. */
  ghost function Selection(rrs: seq<Answer>, qname: Name, wantType: u16): Result<seq<seq<byte>>, DnsError> {
    var found := Addresses(rrs, qname, wantType, rrs);
    if found != [] then Ok(found)
    else if HasStranger(rrs, qname, wantType, rrs) then Err(OwnerMismatch)
    else Err(NoData)
  }

  // --- the order of the records -------------------------------------------------------

  lemma {:induction false} AddressesAppend(all: seq<Answer>, qname: Name, wantType: u16, a: seq<Answer>, b: seq<Answer>)
    ensures Addresses(all, qname, wantType, a + b) ==
            Addresses(all, qname, wantType, a) + Addresses(all, qname, wantType, b)
    decreases |b|
  {
    if b == [] {
      assert a + b == a;
    } else {
      var init := b[..|b| - 1];
      assert (a + b)[..|a + b| - 1] == a + init;
      AddressesAppend(all, qname, wantType, a, init);
    }
  }

  /** The contribution of one record does not depend on its place. */
  lemma AddressesWithout(all: seq<Answer>, qname: Name, wantType: u16, x: seq<Answer>, rr: Answer, y: seq<Answer>)
    ensures multiset(Addresses(all, qname, wantType, x + [rr] + y)) ==
            multiset(Addresses(all, qname, wantType, x + y)) + multiset(Addresses(all, qname, wantType, [rr]))
  {
    AddressesAppend(all, qname, wantType, x + [rr], y);
    AddressesAppend(all, qname, wantType, x, [rr]);
    AddressesAppend(all, qname, wantType, x, y);
  }

  lemma {:induction false} AddressesPermute(all: seq<Answer>, qname: Name, wantType: u16, rrs: seq<Answer>, rrs': seq<Answer>)
    requires multiset(rrs) == multiset(rrs')
    ensures multiset(Addresses(all, qname, wantType, rrs)) == multiset(Addresses(all, qname, wantType, rrs'))
    decreases |rrs|
  {
    if rrs == [] {
      assert |multiset(rrs')| == 0;
      assert rrs' == [];
    } else {
      var init, last := rrs[..|rrs| - 1], rrs[|rrs| - 1];
      assert rrs == init + [last] + [] && init + [] == init;
      var x, y := TakeOut(rrs', last);
      TakeOutLast(rrs);
      AddressesPermute(all, qname, wantType, init, x + y);
      AddressesWithout(all, qname, wantType, init, last, []);
      AddressesWithout(all, qname, wantType, x, last, y);
    }
  }

  lemma TakeOut(rrs: seq<Answer>, rr: Answer) returns (x: seq<Answer>, y: seq<Answer>)
    requires rr in multiset(rrs)
    ensures rrs == x + [rr] + y && multiset(x + y) == multiset(rrs) - multiset{rr}
  {
    assert rr in rrs;
    var k :| 0 <= k < |rrs| && rrs[k] == rr;
    x, y := rrs[..k], rrs[k + 1..];
    assert rrs == x + [rr] + y;
  }

  lemma TakeOutLast(rrs: seq<Answer>)
    requires rrs != []
    ensures multiset(rrs[..|rrs| - 1]) == multiset(rrs) - multiset{rrs[|rrs| - 1]}
  {
    assert rrs == rrs[..|rrs| - 1] + [rrs[|rrs| - 1]];
  }

  lemma {:induction false} AddressesByReachability(all: seq<Answer>, all': seq<Answer>, qname: Name, wantType: u16,
                                                   rrs: seq<Answer>)
    requires forall n :: Reachable(all, qname, n) <==> Reachable(all', qname, n)
    ensures Addresses(all, qname, wantType, rrs) == Addresses(all', qname, wantType, rrs)
    decreases |rrs|
  {
    if rrs != [] {
      AddressesByReachability(all, all', qname, wantType, rrs[..|rrs| - 1]);
    }
  }

  /** Permuting the records permutes the addresses found and changes nothing else:
      not which names count, and not the reason when nothing is found. */
  lemma OrderDoesNotMatter(rrs: seq<Answer>, rrs': seq<Answer>, qname: Name, wantType: u16)
    requires multiset(rrs) == multiset(rrs')
    ensures forall n :: Reachable(rrs, qname, n) <==> Reachable(rrs', qname, n)
    ensures var s, s' := Selection(rrs, qname, wantType), Selection(rrs', qname, wantType);
      && (s.Ok? <==> s'.Ok?)
      && (s.Ok? ==> multiset(s.value) == multiset(s'.value))
      && (s.Err? ==> s == s')
  {
    forall n
      ensures Reachable(rrs, qname, n) <==> Reachable(rrs', qname, n)
    {
      ReachabilityIgnoresOrder(rrs, rrs', qname, n);
    }
    AddressesByReachability(rrs, rrs', qname, wantType, rrs);
    AddressesPermute(rrs', qname, wantType, rrs, rrs');
    var found, found' := Addresses(rrs, qname, wantType, rrs), Addresses(rrs', qname, wantType, rrs');
    assert |multiset(found)| == |found| && |multiset(found')| == |found'|;
    assert forall rr :: rr in rrs <==> rr in multiset(rrs);
    assert forall rr :: rr in rrs' <==> rr in multiset(rrs');
    assert HasStranger(rrs, qname, wantType, rrs) <==> HasStranger(rrs', qname, wantType, rrs');
  }

  /** An address is found exactly when a well-sized record of the wanted type
      under a reachable name carries it. */
  lemma {:induction false} AddressesMembership(all: seq<Answer>, qname: Name, wantType: u16, rrs: seq<Answer>, a: seq<byte>)
    ensures a in Addresses(all, qname, wantType, rrs) <==>
            exists rr :: rr in rrs && rr.typ == wantType
                         && ((rr.typ == 1 && |rr.rdata| == 4) || (rr.typ == 28 && |rr.rdata| == 16))
                         && Reachable(all, qname, rr.owner) && rr.rdata == a
    decreases |rrs|
  {
    if rrs != [] {
      var init, last := rrs[..|rrs| - 1], rrs[|rrs| - 1];
      AddressesMembership(all, qname, wantType, init, a);
      assert rrs == init + [last];
    }
  }

  method SkipQuestionSection(resp: seq<byte>, qdcount: u16) returns (r: Result<nat, DnsError>)
    ensures r == SkipQuestions(resp, 12, qdcount)
  {
    var pos: nat := 12;
    for i := 0 to qdcount
      invariant SkipQuestions(resp, pos, qdcount - i) == SkipQuestions(resp, 12, qdcount)
    {
      var s := SkipName(resp, pos);
      if s.Err? {
        return Err(s.error);
      }
      if s.value + 4 > |resp| {
        return Err(TruncatedQuestion);
      }
      pos := s.value + 4;
    }
    return Ok(pos);
  }

  method ReadOne(resp: seq<byte>, pos: nat) returns (r: Result<(Raw, nat), DnsError>)
    ensures r == ReadRaw(resp, pos)
  {
    var o := DecodeName(resp, pos);
    if o.Err? {
      return Err(o.error);
    }
    var p := o.value.1;
    if p + 10 > |resp| {
      return Err(TruncatedAnswer);
    }
    var typ := GetU16(resp[p..p + 2]);
    var len := GetU16(resp[p + 8..p + 10]);
    p := p + 10;
    if p + len > |resp| {
      return Err(TruncatedData);
    }
    return Ok((Raw(o.value.0, typ, resp[p..p + len], p), p + len));
  }

  method ResolveOne(resp: seq<byte>, raw: Raw) returns (rr: Answer)
    ensures rr == Resolve(resp, raw)
  {
    var target: Name := [];
    if raw.typ == TYPE_CNAME {
      var t := DecodeName(resp, raw.at);
      if t.Ok? {
        target := t.value.0;
      }
    }
    rr := Answer(raw.owner, raw.typ, raw.rdata, target);
  }

  /** Record i with its target, given the records before it. */
  method ReadNext(resp: seq<byte>, ghost start: nat, pos: nat, ghost i: nat, ghost raws: seq<Raw>)
    returns (r: Result<(Answer, nat), DnsError>, ghost more: seq<Raw>)
    requires ReadRaws(resp, start, i) == Ok((raws, pos))
    ensures r.Err? ==> ReadRaws(resp, start, i + 1) == Err(r.error)
    ensures r.Ok? ==> ReadRaws(resp, start, i + 1) == Ok((more, r.value.1))
    ensures r.Ok? ==> ResolveAll(resp, more) == ResolveAll(resp, raws) + [r.value.0]
  {
    more := raws;
    var a := ReadOne(resp, pos);
    if a.Err? {
      return Err(a.error), more;
    }
    var rr := ResolveOne(resp, a.value.0);
    more := raws + [a.value.0];
    ResolveAllSnoc(resp, raws, a.value.0);
    return Ok((rr, a.value.1)), more;
  }

  method ReadAnswerSection(resp: seq<byte>, start: nat, ancount: u16) returns (r: Result<seq<Answer>, DnsError>)
    ensures var raws := ReadRaws(resp, start, ancount);
      r == if raws.Err? then Err(raws.error) else Ok(ResolveAll(resp, raws.value.0))
  {
    var pos := start;
    var rrs: seq<Answer> := [];
    ghost var raws: seq<Raw> := [];
    for i := 0 to ancount
      invariant ReadRaws(resp, start, i) == Ok((raws, pos))
      invariant rrs == ResolveAll(resp, raws)
    {
      var a;
      a, raws := ReadNext(resp, start, pos, i, raws);
      if a.Err? {
        FirstErrorStays((p: nat) => ReadRaw(resp, p), start, i + 1, ancount);
        return Err(a.error);
      }
      rrs := rrs + [a.value.0];
      pos := a.value.1;
    }
    return Ok(rrs);
  }

  /** Whether some record of the wanted type hangs under an unrelated name. */
  ghost predicate HasStranger(all: seq<Answer>, qname: Name, wantType: u16, rrs: seq<Answer>) {
    exists rr :: rr in rrs && rr.typ == wantType && !Reachable(all, qname, rr.owner)
  }

  method SelectAddresses(rrs: seq<Answer>, qname: Name, wantType: u16, accepted: set<Name>)
    returns (out: seq<seq<byte>>, droppedOwner: bool)
    requires forall n :: n in accepted <==> Reachable(rrs, qname, n)
    ensures out == Addresses(rrs, qname, wantType, rrs)
    ensures droppedOwner == HasStranger(rrs, qname, wantType, rrs)
  {
    out, droppedOwner := [], false;
    for i := 0 to |rrs|
      invariant out == Addresses(rrs, qname, wantType, rrs[..i])
      invariant droppedOwner == HasStranger(rrs, qname, wantType, rrs[..i])
    {
      var rr := rrs[i];
      assert rrs[..i + 1] == rrs[..i] + [rr] && rrs[..i + 1][..i] == rrs[..i];
      if rr.typ != wantType {
        continue;
      }
      if rr.owner !in accepted {
        assert rr in rrs[..i + 1];
        droppedOwner := true;
        continue;
      }
      if rr.typ == TYPE_A {
        if |rr.rdata| != 4 {
          continue;
        }
        out := out + [rr.rdata];
      } else if rr.typ == TYPE_AAAA {
        if |rr.rdata| != 16 {
          continue;
        }
        out := out + [rr.rdata];
      }
    }
    assert rrs[..|rrs|] == rrs;
  }
}
