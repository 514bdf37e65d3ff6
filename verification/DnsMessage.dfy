/** A DNS response byte by byte: what its header decides, where its questions and
    records stand, and which of its addresses are trusted. */
module DnsMessage {
  import opened Bytes
  import opened DnsNames
  import opened DnsAnswers

  // --- the header ----------------------------------------------------------------------

  /** The response is one without error to the query with that id. */
  predicate HeaderPasses(resp: seq<byte>, wantId: u16) {
    && |resp| >= 12
    && 0x100 * (resp[0] as int) + resp[1] == wantId
    && resp[2] >= 0x80
    && resp[2] / 2 % 2 == 0
    && resp[3] % 16 == 0
  }

  lemma HeaderBits(resp: seq<byte>)
    requires |resp| >= 12
    ensures GetU16(resp[0..2]) == 0x100 * (resp[0] as int) + resp[1]
    ensures GetU16(resp[4..6]) == 0x100 * (resp[4] as int) + resp[5]
    ensures GetU16(resp[6..8]) == 0x100 * (resp[6] as int) + resp[7]
    ensures var flags := GetU16(resp[2..4]);
      && (flags < 0x8000 <==> resp[2] < 0x80)
      && flags / 0x200 % 2 == resp[2] / 2 % 2
      && flags % 16 == resp[3] % 16
  {
    var flags := GetU16(resp[2..4]);
    assert flags == 0x100 * (resp[2] as int) + resp[3];
    assert flags / 0x100 == resp[2];
    assert flags / 0x200 == resp[2] / 2;
    assert flags % 16 == resp[3] % 16 by {
      assert flags == 16 * (16 * (resp[2] as int) + resp[3] / 16) + resp[3] % 16;
    }
  }

  predicate IsHeaderError(e: DnsError) {
    e.ResponseTooShort? || e.IdMismatch? || e.NotAResponse? || e.Truncated? || e.NoSuchDomain? || e.BadRcode?
  }

  /** What can be wrong behind the header. */
  predicate IsBodyError(e: DnsError) {
    e.NameOverruns? || e.TruncatedPointer? || e.NotBackward? || e.TooManyPointers? || e.BadLabelLength?
    || e.LabelOverruns? || e.NameTooLong? || e.TruncatedQuestion? || e.TruncatedAnswer? || e.TruncatedData?
  }

  lemma {:induction false} SkipErrors(buf: seq<byte>, pos: nat)
    ensures Skip(buf, pos).Err? ==> IsBodyError(Skip(buf, pos).error)
    decreases |buf| - pos
  {
    if pos < |buf| && 1 <= buf[pos] < 0xC0 {
      SkipErrors(buf, pos + 1 + buf[pos]);
    }
  }

  lemma {:induction false} QuestionErrors(resp: seq<byte>, pos: nat, n: nat)
    ensures SkipQuestions(resp, pos, n).Err? ==> IsBodyError(SkipQuestions(resp, pos, n).error)
    decreases n
  {
    if n > 0 {
      SkipErrors(resp, pos);
      var s := Skip(resp, pos);
      if s.Ok? && s.value + 4 <= |resp| {
        QuestionErrors(resp, s.value + 4, n - 1);
      }
    }
  }

  lemma {:induction false} WalkErrors(buf: seq<byte>, p: nat, next: Option<nat>, jumps: nat, sb: Name)
    requires jumps <= MAX_JUMPS
    ensures Walk(buf, p, next, jumps, sb).Err? ==> IsBodyError(Walk(buf, p, next, jumps, sb).error)
    decreases MAX_JUMPS - jumps, |buf| - p
  {
    if p < |buf| {
      var c := buf[p];
      if c >= 0xC0 {
        if p + 1 < |buf| && PointerAt(buf, p) < p && jumps < MAX_JUMPS {
          WalkErrors(buf, PointerAt(buf, p), if next.None? then Some(p + 2) else next, jumps + 1, sb);
        }
      } else if 1 <= c < 0x40 && p + 1 + c <= |buf| {
        var sb' := AddLabel(sb, buf[p + 1..p + 1 + c]);
        if |sb'| <= MAX_NAME {
          WalkErrors(buf, p + 1 + c, next, jumps, sb');
        }
      }
    }
  }

  lemma {:induction false} RecordErrors(resp: seq<byte>, start: nat, n: nat)
    ensures ReadRaws(resp, start, n).Err? ==> IsBodyError(ReadRaws(resp, start, n).error)
    decreases n
  {
    if n > 0 {
      RecordErrors(resp, start, n - 1);
      var before := ReadRaws(resp, start, n - 1);
      if before.Ok? {
        WalkErrors(resp, before.value.1, None, 0, []);
      }
    }
  }

  /** The header checks in order: each error is returned exactly when its own bytes
      are wrong and the earlier ones right, and past them come other errors only. */
  lemma HeaderDecides(resp: seq<byte>, wantId: u16)
    ensures var r := Records(resp, wantId);
      if |resp| < 12 then r == Err(ResponseTooShort)
      else if 0x100 * (resp[0] as int) + resp[1] != wantId then r == Err(IdMismatch)
      else if resp[2] < 0x80 then r == Err(NotAResponse)
      else if resp[2] / 2 % 2 == 1 then r == Err(Truncated)
      else if resp[3] % 16 == 3 then r == Err(NoSuchDomain)
      else if resp[3] % 16 != 0 then r == Err(BadRcode)
      else r.Err? ==> IsBodyError(r.error)
  {
    if |resp| >= 12 {
      HeaderBits(resp);
      if HeaderPasses(resp, wantId) {
        RecordsBehindHeader(resp, wantId);
        QuestionErrors(resp, 12, GetU16(resp[4..6]));
        var q := SkipQuestions(resp, 12, GetU16(resp[4..6]));
        if q.Ok? {
          RecordErrors(resp, q.value, GetU16(resp[6..8]));
        }
      }
    }
  }

  lemma RecordsBehindHeader(resp: seq<byte>, wantId: u16)
    requires HeaderPasses(resp, wantId)
    ensures var q := SkipQuestions(resp, 12, GetU16(resp[4..6]));
      Records(resp, wantId) ==
      if q.Err? then Err(q.error)
      else
        var raws := ReadRaws(resp, q.value, GetU16(resp[6..8]));
        if raws.Err? then Err(raws.error) else Ok(ResolveAll(resp, raws.value.0))
  {
    HeaderBits(resp);
  }

  // --- questions and records ---------------------------------------------------------------

  /** One question after the other: a name to be skipped and four bytes. */
  ghost predicate QuestionsAt(resp: seq<byte>, at: seq<nat>) {
    && at != []
    && forall i :: 0 <= i < |at| - 1 ==> QuestionAt(resp, at[i], at[i + 1])
  }

  predicate QuestionAt(resp: seq<byte>, p: nat, q: nat) {
    Skip(resp, p).Ok? && q == Skip(resp, p).value + 4 && q <= |resp|
  }

  lemma {:induction false} SkippedQuestions(resp: seq<byte>, pos: nat, n: nat) returns (at: seq<nat>)
    requires SkipQuestions(resp, pos, n).Ok?
    ensures QuestionsAt(resp, at) && |at| == n + 1 && at[0] == pos && at[n] == SkipQuestions(resp, pos, n).value
    decreases n
  {
    if n == 0 {
      at := [pos];
    } else {
      var next := Skip(resp, pos).value + 4;
      var rest := SkippedQuestions(resp, next, n - 1);
      at := [pos] + rest;
      assert QuestionAt(resp, at[0], at[1]);
      assert forall i :: 1 <= i < |at| - 1 ==> at[i] == rest[i - 1] && at[i + 1] == rest[i];
    }
  }

  lemma {:induction false} QuestionsSkipped(resp: seq<byte>, at: seq<nat>)
    requires QuestionsAt(resp, at)
    ensures SkipQuestions(resp, at[0], |at| - 1) == Ok(at[|at| - 1])
    decreases |at|
  {
    if |at| > 1 {
      assert QuestionAt(resp, at[0], at[1]);
      var rest := at[1..];
      forall i | 0 <= i < |rest| - 1
        ensures QuestionAt(resp, rest[i], rest[i + 1])
      {
        assert QuestionAt(resp, at[i + 1], at[i + 1 + 1]);
      }
      QuestionsSkipped(resp, rest);
    }
  }

  /** A record stands between two positions: a name, two bytes of type, six bytes, two
      bytes of length, so many bytes of data; a CNAME's data is its target's name. */
  predicate RecordAt(resp: seq<byte>, p: nat, q: nat, rr: Answer) {
    && Decoded(resp, p).Ok?
    && var (owner, e) := Decoded(resp, p).value;
       && e + 10 <= |resp| && q == e + 10 + (0x100 * (resp[e + 8] as int) + resp[e + 9]) && q <= |resp|
       && rr.owner == owner
       && rr.typ == 0x100 * (resp[e] as int) + resp[e + 1]
       && rr.rdata == resp[e + 10..q]
       && rr.target == if rr.typ == 5 && Decoded(resp, e + 10).Ok? then Decoded(resp, e + 10).value.0 else []
  }

  ghost predicate RecordsAt(resp: seq<byte>, at: seq<nat>, rrs: seq<Answer>) {
    && |at| == |rrs| + 1
    && forall i :: 0 <= i < |rrs| ==> RecordAt(resp, at[i], at[i + 1], rrs[i])
  }

  lemma OneRecord(resp: seq<byte>, p: nat, q: nat, rr: Answer)
    ensures RecordAt(resp, p, q, rr) <==>
      ReadRaw(resp, p).Ok? && ReadRaw(resp, p).value.1 == q && Resolve(resp, ReadRaw(resp, p).value.0) == rr
  {
    if Decoded(resp, p).Ok? {
      var e := Decoded(resp, p).value.1;
      if e + 10 <= |resp| {
        BigEndian16(0, resp[e..e + 2]);
        BigEndian16(0, resp[e + 8..e + 10]);
      }
    }
  }

  function Each<R, A>(make: R -> A, rs: seq<R>): (r: seq<A>)
    ensures |r| == |rs|
  {
    if rs == [] then [] else Each(make, rs[..|rs| - 1]) + [make(rs[|rs| - 1])]
  }

  /** Things stand one behind the other between the given positions. */
  ghost predicate InRow<A>(stands: (nat, nat, A) -> bool, at: seq<nat>, things: seq<A>) {
    && |at| == |things| + 1
    && forall i :: 0 <= i < |things| ==> stands(at[i], at[i + 1], things[i])
  }

  /** A thing stands between two positions exactly if it is read there. */
  ghost predicate Corresponds<R, A(!new)>(read: nat -> Result<(R, nat), DnsError>, make: R -> A,
                                          stands: (nat, nat, A) -> bool) {
    forall p: nat, q: nat, a: A ::
      stands(p, q, a) <==> (read(p).Ok? && read(p).value.1 == q && make(read(p).value.0) == a)
  }

  lemma StandsWhereRead<R, A(!new)>(read: nat -> Result<(R, nat), DnsError>, make: R -> A,
                                    stands: (nat, nat, A) -> bool, p: nat)
    requires Corresponds(read, make, stands) && read(p).Ok?
    ensures stands(p, read(p).value.1, make(read(p).value.0))
  {
    var q: nat, a: A := read(p).value.1, make(read(p).value.0);
    assert stands(p, q, a) <==> (read(p).Ok? && read(p).value.1 == q && make(read(p).value.0) == a);
  }

  lemma ReadWhereStands<R, A(!new)>(read: nat -> Result<(R, nat), DnsError>, make: R -> A,
                                    stands: (nat, nat, A) -> bool, p: nat, q: nat, a: A)
    requires Corresponds(read, make, stands) && stands(p, q, a)
    ensures read(p).Ok? && read(p).value.1 == q && make(read(p).value.0) == a
  {
  }

  lemma InRowPrefix<A>(stands: (nat, nat, A) -> bool, at: seq<nat>, things: seq<A>)
    requires InRow(stands, at, things) && things != []
    ensures InRow(stands, at[..|things|], things[..|things| - 1])
    ensures stands(at[|things| - 1], at[|things|], things[|things| - 1])
  {
    var n := |things| - 1;
    forall i | 0 <= i < n
      ensures stands(at[..n + 1][i], at[..n + 1][i + 1], things[..n][i])
    {
      assert stands(at[i], at[i + 1], things[i]);
    }
    assert stands(at[n], at[n + 1], things[n]);
  }

  lemma InRowSnoc<A>(stands: (nat, nat, A) -> bool, at: seq<nat>, things: seq<A>, next: nat, a: A)
    requires InRow(stands, at, things) && stands(at[|things|], next, a)
    ensures InRow(stands, at + [next], things + [a])
  {
    var at', things' := at + [next], things + [a];
    forall i | 0 <= i < |things'|
      ensures stands(at'[i], at'[i + 1], things'[i])
    {
      if i < |things| {
        assert at'[i] == at[i] && at'[i + 1] == at[i + 1] && things'[i] == things[i];
      }
    }
  }

  lemma EachSnoc<R, A>(make: R -> A, rs: seq<R>, r: R)
    ensures Each(make, rs + [r]) == Each(make, rs) + [make(r)]
  {
    assert (rs + [r])[..|rs|] == rs;
  }

  lemma {:induction false} ReadStandsInRow<R, A(!new)>(read: nat -> Result<(R, nat), DnsError>, make: R -> A,
                                                 stands: (nat, nat, A) -> bool, start: nat, n: nat)
    returns (at: seq<nat>)
    requires Corresponds(read, make, stands)
    requires Many(read, start, n).Ok?
    ensures var (rs, end) := Many(read, start, n).value;
      |rs| == n && InRow(stands, at, Each(make, rs)) && at[0] == start && at[n] == end
    decreases n
  {
    if n == 0 {
      at := [start];
    } else {
      var (rs, end) := Many(read, start, n - 1).value;
      at := ReadStandsInRow(read, make, stands, start, n - 1);
      var (r, next) := read(end).value;
      StandsWhereRead(read, make, stands, end);
      InRowSnoc(stands, at, Each(make, rs), next, make(r));
      EachSnoc(make, rs, r);
      at := at + [next];
    }
  }

  lemma {:induction false} InRowIsRead<R, A(!new)>(read: nat -> Result<(R, nat), DnsError>, make: R -> A,
                                             stands: (nat, nat, A) -> bool, at: seq<nat>, things: seq<A>)
    requires Corresponds(read, make, stands)
    requires InRow(stands, at, things)
    ensures var m := Many(read, at[0], |things|);
      m.Ok? && m.value.1 == at[|things|] && Each(make, m.value.0) == things
    decreases |things|
  {
    if things != [] {
      var n := |things| - 1;
      InRowPrefix(stands, at, things);
      InRowIsRead(read, make, stands, at[..n + 1], things[..n]);
      ReadWhereStands(read, make, stands, at[n], at[n + 1], things[n]);
      EachSnoc(make, Many(read, at[0], n).value.0, read(at[n]).value.0);
      assert things == things[..n] + [things[n]];
    }
  }

  lemma {:induction false} AllAreEach(resp: seq<byte>, raws: seq<Raw>)
    ensures ResolveAll(resp, raws) == Each(raw => Resolve(resp, raw), raws)
    decreases |raws|
  {
    if raws != [] {
      AllAreEach(resp, raws[..|raws| - 1]);
    }
  }

  lemma RowsAreRecords(resp: seq<byte>, at: seq<nat>, rrs: seq<Answer>)
    ensures InRow((p, q, rr) => RecordAt(resp, p, q, rr), at, rrs) <==> RecordsAt(resp, at, rrs)
  {
  }

  lemma RecordsCorrespond(resp: seq<byte>)
    ensures Corresponds((p: nat) => ReadRaw(resp, p), (raw: Raw) => Resolve(resp, raw),
                        (p: nat, q: nat, rr: Answer) => RecordAt(resp, p, q, rr))
  {
    forall p: nat, q: nat, rr: Answer
      ensures RecordAt(resp, p, q, rr) <==>
        ReadRaw(resp, p).Ok? && ReadRaw(resp, p).value.1 == q && Resolve(resp, ReadRaw(resp, p).value.0) == rr
    {
      OneRecord(resp, p, q, rr);
    }
  }

  lemma ReadRecordsAt(resp: seq<byte>, start: nat, n: nat) returns (at: seq<nat>)
    requires ReadRaws(resp, start, n).Ok?
    ensures var (raws, end) := ReadRaws(resp, start, n).value;
      RecordsAt(resp, at, ResolveAll(resp, raws)) && |raws| == n && |at| == n + 1 && at[0] == start && at[n] == end
  {
    RecordsCorrespond(resp);
    var raws := ReadRaws(resp, start, n).value.0;
    AllAreEach(resp, raws);
    at := ReadStandsInRow((p: nat) => ReadRaw(resp, p), (raw: Raw) => Resolve(resp, raw),
                          (p: nat, q: nat, rr: Answer) => RecordAt(resp, p, q, rr), start, n);
    RowsAreRecords(resp, at, ResolveAll(resp, raws));
  }

  lemma RecordsRead(resp: seq<byte>, at: seq<nat>, rrs: seq<Answer>)
    requires RecordsAt(resp, at, rrs)
    ensures var r := ReadRaws(resp, at[0], |rrs|);
      r.Ok? && r.value.1 == at[|rrs|] && ResolveAll(resp, r.value.0) == rrs
  {
    RecordsCorrespond(resp);
    RowsAreRecords(resp, at, rrs);
    InRowIsRead((p: nat) => ReadRaw(resp, p), (raw: Raw) => Resolve(resp, raw),
                (p: nat, q: nat, rr: Answer) => RecordAt(resp, p, q, rr), at, rrs);
    AllAreEach(resp, ReadRaws(resp, at[0], |rrs|).value.0);
  }

  /** The response holds these records: from byte 12 as many questions as bytes 4 and 5
      say, behind them as many records as bytes 6 and 7 say. */
  ghost predicate Holds(resp: seq<byte>, rrs: seq<Answer>) {
    && |resp| >= 12
    && |rrs| == 0x100 * (resp[6] as int) + resp[7]
    && exists qs, rs ::
         && QuestionsAt(resp, qs) && |qs| == 1 + (0x100 * (resp[4] as int) + resp[5]) && qs[0] == 12
         && RecordsAt(resp, rs, rrs) && rs[0] == qs[|qs| - 1]
  }

  lemma ReadIsHeld(resp: seq<byte>, wantId: u16)
    requires HeaderPasses(resp, wantId) && Records(resp, wantId).Ok?
    ensures Holds(resp, Records(resp, wantId).value)
  {
    HeaderBits(resp);
    RecordsBehindHeader(resp, wantId);
    var nq, na := GetU16(resp[4..6]), GetU16(resp[6..8]);
    var qs := SkippedQuestions(resp, 12, nq);
    var rs := ReadRecordsAt(resp, qs[nq], na);
    assert |rs| == |Records(resp, wantId).value| + 1;
  }

  lemma HeldIsRead(resp: seq<byte>, wantId: u16, rrs: seq<Answer>)
    requires HeaderPasses(resp, wantId) && Holds(resp, rrs)
    ensures Records(resp, wantId) == Ok(rrs)
  {
    HeaderBits(resp);
    RecordsBehindHeader(resp, wantId);
    var qs, rs :|
      && QuestionsAt(resp, qs) && |qs| == 1 + (0x100 * (resp[4] as int) + resp[5]) && qs[0] == 12
      && RecordsAt(resp, rs, rrs) && rs[0] == qs[|qs| - 1];
    QuestionsSkipped(resp, qs);
    RecordsRead(resp, rs, rrs);
  }

  /** Exactly which responses are read, and as which records. */
  lemma ReadsWhatItHolds(resp: seq<byte>, wantId: u16, rrs: seq<Answer>)
    ensures Records(resp, wantId) == Ok(rrs) <==> HeaderPasses(resp, wantId) && Holds(resp, rrs)
  {
    HeaderDecides(resp, wantId);
    if Records(resp, wantId) == Ok(rrs) {
      ReadIsHeld(resp, wantId);
    }
    if HeaderPasses(resp, wantId) && Holds(resp, rrs) {
      HeldIsRead(resp, wantId, rrs);
    }
  }

  // --- the addresses -------------------------------------------------------------------------

  /** An address is tied to the query: a record of the wanted type and the right size,
      under a name that CNAME records lead to, carries it. */
  ghost predicate Tied(rrs: seq<Answer>, qname: Name, wantType: u16, a: seq<byte>) {
    exists rr :: rr in rrs && rr.typ == wantType
      && ((rr.typ == 1 && |rr.rdata| == 4) || (rr.typ == 28 && |rr.rdata| == 16))
      && Reachable(rrs, qname, rr.owner) && rr.rdata == a
  }

  /** What a response means for a query: with addresses, or the lack of any, it has
      passed every header check, and the addresses are exactly those that its records
      tie to the name asked for; without any it says whether some record of the wanted
      type stands under an unrelated name. */
  lemma TrustedAddresses(resp: seq<byte>, wantId: u16, wantType: u16, qname: Name)
    ensures var v := Verdict(resp, wantId, wantType, qname);
      v.Ok? || v == Err(OwnerMismatch) || v == Err(NoData) ==>
        && HeaderPasses(resp, wantId)
        && exists rrs :: Holds(resp, rrs) && Means(rrs, CanonicalName(qname), wantType, v)
    ensures var v, r := Verdict(resp, wantId, wantType, qname), Records(resp, wantId);
      !(v.Ok? || v == Err(OwnerMismatch) || v == Err(NoData)) ==> r.Err? && v == Err(r.error)
  {
    var r := Records(resp, wantId);
    HeaderDecides(resp, wantId);
    if r.Ok? {
      ReadsWhatItHolds(resp, wantId, r.value);
      SelectionMeans(r.value, CanonicalName(qname), wantType);
    }
  }

  ghost predicate Means(rrs: seq<Answer>, qname: Name, wantType: u16, v: Result<seq<seq<byte>>, DnsError>) {
    var stranger := exists rr :: rr in rrs && rr.typ == wantType && !Reachable(rrs, qname, rr.owner);
    match v
    case Ok(addrs) => addrs != [] && forall a :: a in addrs <==> Tied(rrs, qname, wantType, a)
    case Err(e) =>
      && (forall a :: !Tied(rrs, qname, wantType, a))
      && e == if stranger then OwnerMismatch else NoData
  }

  lemma SelectionMeans(rrs: seq<Answer>, qname: Name, wantType: u16)
    ensures Means(rrs, qname, wantType, Selection(rrs, qname, wantType))
  {
    var found := Addresses(rrs, qname, wantType, rrs);
    forall a
      ensures a in found <==> Tied(rrs, qname, wantType, a)
    {
      AddressesMembership(rrs, qname, wantType, rrs, a);
    }
    if found == [] {
      assert forall a :: a !in found;
      assert HasStranger(rrs, qname, wantType, rrs) <==>
             exists rr :: rr in rrs && rr.typ == wantType && !Reachable(rrs, qname, rr.owner);
    }
  }

  // --- the parser -------------------------------------------------------------------------------

  method ReadRecords(resp: seq<byte>, wantId: u16) returns (r: Result<seq<Answer>, DnsError>)
    ensures r == Records(resp, wantId)
    ensures forall rrs :: r == Ok(rrs) <==> HeaderPasses(resp, wantId) && Holds(resp, rrs)
    ensures (r == Err(IdMismatch) <==> |resp| >= 12 && 0x100 * (resp[0] as int) + resp[1] != wantId)
  {
    HeaderDecides(resp, wantId);
    forall rrs
      ensures Records(resp, wantId) == Ok(rrs) <==> HeaderPasses(resp, wantId) && Holds(resp, rrs)
    {
      ReadsWhatItHolds(resp, wantId, rrs);
    }
    if |resp| < 12 {
      return Err(ResponseTooShort);
    }
    if GetU16(resp[0..2]) != wantId {
      return Err(IdMismatch);
    }
    var flags := GetU16(resp[2..4]);
    if flags < 0x8000 {
      return Err(NotAResponse);
    }
    if flags / 0x200 % 2 == 1 {
      return Err(Truncated);
    }
    var rcode := flags % 16;
    if rcode == 3 {
      return Err(NoSuchDomain);
    }
    if rcode != 0 {
      return Err(BadRcode);
    }
    var q := SkipQuestionSection(resp, GetU16(resp[4..6]));
    if q.Err? {
      return Err(q.error);
    }
    r := ReadAnswerSection(resp, q.value, GetU16(resp[6..8]));
  }

  /** Parses a response: exactly the addresses of records tied to the query by
      its CNAME chain, or the reason why there are none. */
  method ParseDnsAnswers(resp: seq<byte>, wantId: u16, wantType: u16, qname: Name)
    returns (r: Result<seq<seq<byte>>, DnsError>)
    ensures r == Verdict(resp, wantId, wantType, qname)
    ensures r.Ok? || r == Err(OwnerMismatch) || r == Err(NoData) ==>
      HeaderPasses(resp, wantId) && exists rrs :: Holds(resp, rrs) && Means(rrs, CanonicalName(qname), wantType, r)
  {
    TrustedAddresses(resp, wantId, wantType, qname);
    var records := ReadRecords(resp, wantId);
    if records.Err? {
      return Err(records.error);
    }
    var rrs := records.value;
    var accepted, _ := AcceptedNames(rrs, CanonicalName(qname));
    var out, droppedOwner := SelectAddresses(rrs, CanonicalName(qname), wantType, accepted);
    if |out| == 0 && droppedOwner {
      return Err(OwnerMismatch);
    }
    if |out| == 0 {
      return Err(NoData);
    }
    return Ok(out);
  }
}
