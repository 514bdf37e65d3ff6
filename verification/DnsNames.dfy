/** The DNS name codec of the SOCKS resolver: query names out, possibly
    compressed names (section 4.1.4 of RFC 1035) in. */
module DnsNames {
  import opened Bytes

  type Name = seq<byte>

  const DOT: byte := 46
  const MAX_NAME := 253
  const MAX_LABEL := 63
  const MAX_JUMPS := 32

  datatype DnsError =
    | InvalidName
    | InvalidLabel
    | NameOverruns
    | TruncatedPointer
    | NotBackward
    | TooManyPointers
    | BadLabelLength
    | LabelOverruns
    | NameTooLong
    | ResponseTooShort
    | IdMismatch
    | NotAResponse
    | Truncated
    | NoSuchDomain
    | BadRcode
    | TruncatedQuestion
    | TruncatedAnswer
    | TruncatedData
    | OwnerMismatch
    | NoData

  function AsciiLower(b: byte): byte {
    if 65 <= b <= 90 then b + 32 else b
  }

  function Lower(s: seq<byte>): (r: seq<byte>)
    ensures |r| == |s|
    ensures forall i :: 0 <= i < |s| ==> r[i] == AsciiLower(s[i])
  {
    seq(|s|, i requires 0 <= i < |s| => AsciiLower(s[i]))
  }

  function TrimDot(name: Name): Name {
    if |name| > 0 && name[|name| - 1] == DOT then name[..|name| - 1] else name
  }

  /** Lower case, without a trailing dot. */
  function CanonicalName(name: Name): Name {
    Lower(TrimDot(name))
  }

  // --- labels -------------------------------------------------------------------

  /** The labels from position `start` on, no dot lying before position i. */
  function LabelsFrom(name: Name, start: nat, i: nat): seq<Name>
    requires start <= i <= |name|
    decreases |name| - i
  {
    if i == |name| then
      if start < |name| then [name[start..]] else []
    else if name[i] == DOT then [name[start..i]] + LabelsFrom(name, i + 1, i + 1)
    else LabelsFrom(name, start, i + 1)
  }

  /** The dot-separated labels; a trailing dot adds none. */
  function Labels(name: Name): seq<Name> {
    LabelsFrom(name, 0, 0)
  }

  /** The label iterator: cuts at every dot, and yields a last label only if it
      is not empty. */
  method SplitLabels(name: Name) returns (ls: seq<Name>)
    ensures ls == Labels(name)
  {
    ls := [];
    var start := 0;
    for i := 0 to |name|
      invariant 0 <= start <= i
      invariant ls + LabelsFrom(name, start, i) == Labels(name)
    {
      if name[i] == DOT {
        var lbl := name[start..i];
        assert ls + ([lbl] + LabelsFrom(name, i + 1, i + 1)) == ls + [lbl] + LabelsFrom(name, i + 1, i + 1);
        ls := ls + [lbl];
        start := i + 1;
      }
    }
    if start < |name| {
      ls := ls + [name[start..]];
    }
  }

  // --- queries -----------------------------------------------------------------

  predicate ValidLabel(l: Name) {
    1 <= |l| <= MAX_LABEL
  }

  predicate ValidQuery(qname: Name) {
    && 1 <= |qname| <= MAX_NAME
    && forall i :: 0 <= i < |Labels(qname)| ==> ValidLabel(Labels(qname)[i])
  }

  /** A label on the wire: its length, then its bytes. */
  function OneLabel(l: Name): seq<byte>
    requires ValidLabel(l)
  {
    var n: byte := |l|;
    [n] + l
  }

  function LabelBytes(ls: seq<Name>): seq<byte>
    requires forall i :: 0 <= i < |ls| ==> ValidLabel(ls[i])
  {
    if ls == [] then [] else OneLabel(ls[0]) + LabelBytes(ls[1..])
  }

  function QueryHeader(id: u16): (r: seq<byte>)
    ensures |r| == 12
  {
    PutU16(id) + PutU16(0x0100) + PutU16(1) + [0, 0, 0, 0, 0, 0]
  }

  function QueryBytes(id: u16, qname: Name, qtype: u16): seq<byte>
    requires ValidQuery(qname)
  {
    QueryHeader(id) + LabelBytes(Labels(qname)) + [0] + PutU16(qtype) + PutU16(1)
  }

  lemma {:induction false} LabelBytesSnoc(ls: seq<Name>, l: Name)
    requires forall i :: 0 <= i < |ls| ==> ValidLabel(ls[i])
    requires ValidLabel(l)
    ensures LabelBytes(ls + [l]) == LabelBytes(ls) + OneLabel(l)
    decreases |ls|
  {
    var more := ls + [l];
    if ls == [] {
      assert more == [l] && more[1..] == [];
    } else {
      LabelBytesSnoc(ls[1..], l);
      assert more[0] == ls[0] && more[1..] == ls[1..] + [l];
      Associate(OneLabel(ls[0]), LabelBytes(ls[1..]), OneLabel(l));
    }
  }

  method BuildDnsQuery(id: u16, qname: Name, qtype: u16) returns (r: Result<seq<byte>, DnsError>)
    ensures r.Ok? <==> ValidQuery(qname)
    ensures r.Ok? <==> 1 <= |qname| <= 253 && forall i :: 0 <= i < |Labels(qname)| ==> 1 <= |Labels(qname)[i]| <= 63
    ensures r.Ok? ==> r.value == QueryBytes(id, qname, qtype)
    ensures r.Err? ==> r.error == if 1 <= |qname| <= 253 then InvalidLabel else InvalidName
  {
    if |qname| == 0 || |qname| > MAX_NAME {
      return Err(InvalidName);
    }
    var buf: seq<byte> := PutU16(id);
    buf := buf + PutU16(0x0100);
    buf := buf + PutU16(1);
    buf := buf + [0, 0, 0, 0, 0, 0];
    var ls := SplitLabels(qname);
    for i := 0 to |ls|
      invariant forall k :: 0 <= k < i ==> ValidLabel(ls[k])
      invariant buf == QueryHeader(id) + LabelBytes(ls[..i])
    {
      if |ls[i]| == 0 || |ls[i]| > MAX_LABEL {
        assert !ValidLabel(Labels(qname)[i]);
        return Err(InvalidLabel);
      }
      assert ls[..i + 1] == ls[..i] + [ls[i]];
      LabelBytesSnoc(ls[..i], ls[i]);
      var n: byte := |ls[i]|;
      buf := buf + [n];
      buf := buf + ls[i];
    }
    assert ls[..|ls|] == ls;
    buf := buf + [0];
    buf := buf + PutU16(qtype);
    buf := buf + PutU16(1);
    return Ok(buf);
  }

  // --- reading names ----------------------------------------------------------------

  /** The position after a name, without looking at its labels. */
  function Skip(buf: seq<byte>, pos: nat): Result<nat, DnsError>
    decreases |buf| - pos
  {
    if pos >= |buf| then Err(NameOverruns)
    else if buf[pos] == 0 then Ok(pos + 1)
    else if buf[pos] >= 0xC0 then
      if pos + 1 >= |buf| then Err(TruncatedPointer) else Ok(pos + 2)
    else Skip(buf, pos + 1 + buf[pos])
  }

  method SkipName(buf: seq<byte>, start: nat) returns (r: Result<nat, DnsError>)
    ensures r == Skip(buf, start)
  {
    var pos := start;
    while true
      invariant Skip(buf, pos) == Skip(buf, start)
      decreases |buf| - pos
    {
      if pos >= |buf| {
        return Err(NameOverruns);
      }
      var c := buf[pos];
      if c == 0 {
        return Ok(pos + 1);
      }
      if c >= 0xC0 {
        if pos + 1 >= |buf| {
          return Err(TruncatedPointer);
        }
        return Ok(pos + 2);
      }
      pos := pos + 1 + c;
    }
  }

  /** The name so far with one more label. */
  function AddLabel(sb: Name, lbl: Name): Name {
    (if sb == [] then [] else sb + [DOT]) + Lower(lbl)
  }

  /** The fourteen bits of a compression pointer. */
  function PointerAt(buf: seq<byte>, p: nat): nat
    requires p + 1 < |buf| && buf[p] >= 0xC0
  {
    0x100 * (buf[p] as int - 0xC0) + buf[p + 1]
  }

  /** Following labels and pointers from p.  Pointers go backwards, so positions
      alone bound nothing; the walk ends because it makes at most 32 jumps and
      moves forward between them. */
  function Walk(buf: seq<byte>, p: nat, next: Option<nat>, jumps: nat, sb: Name): Result<(Name, nat), DnsError>
    requires jumps <= MAX_JUMPS
    decreases MAX_JUMPS - jumps, |buf| - p
  {
    if p >= |buf| then Err(NameOverruns)
    else
      var c := buf[p];
      if c == 0 then Ok((sb, if next.None? then p + 1 else next.value))
      else if c >= 0xC0 then
        if p + 1 >= |buf| then Err(TruncatedPointer)
        else
          var ptr := PointerAt(buf, p);
          if ptr >= p then Err(NotBackward)
          else if jumps + 1 > MAX_JUMPS then Err(TooManyPointers)
          else Walk(buf, ptr, if next.None? then Some(p + 2) else next, jumps + 1, sb)
      else if c >= 0x40 then Err(BadLabelLength)
      else if p + 1 + c > |buf| then Err(LabelOverruns)
      else
        var sb' := AddLabel(sb, buf[p + 1..p + 1 + c]);
        if |sb'| > MAX_NAME then Err(NameTooLong) else Walk(buf, p + 1 + c, next, jumps, sb')
  }

  function Decoded(buf: seq<byte>, pos: nat): Result<(Name, nat), DnsError> {
    Walk(buf, pos, None, 0, [])
  }

  method AppendLower(sb: Name, lbl: Name) returns (r: Name)
    ensures r == sb + Lower(lbl)
  {
    r := sb;
    for i := 0 to |lbl|
      invariant r == sb + Lower(lbl[..i])
    {
      assert lbl[..i + 1][..i] == lbl[..i];
      r := r + [AsciiLower(lbl[i])];
    }
    assert lbl[..|lbl|] == lbl;
  }

  method DecodeName(buf: seq<byte>, pos: nat) returns (r: Result<(Name, nat), DnsError>)
    ensures r == Decoded(buf, pos)
  {
    var sb: Name := [];
    var next: Option<nat> := None;
    var jumps := 0;
    var p := pos;
    while true
      invariant 0 <= jumps <= MAX_JUMPS && 0 <= p
      invariant Walk(buf, p, next, jumps, sb) == Decoded(buf, pos)
      decreases MAX_JUMPS - jumps, |buf| - p
    {
      if p >= |buf| {
        return Err(NameOverruns);
      }
      var c := buf[p];
      if c == 0 {
        if next.None? {
          next := Some(p + 1);
        }
        return Ok((sb, next.value));
      }
      if c >= 0xC0 {
        if p + 1 >= |buf| {
          return Err(TruncatedPointer);
        }
        var ptr := PointerAt(buf, p);
        if next.None? {
          next := Some(p + 2);
        }
        if ptr >= p {
          return Err(NotBackward);
        }
        p := ptr;
        if jumps + 1 > MAX_JUMPS {
          return Err(TooManyPointers);
        }
        jumps := jumps + 1;
        continue;
      }
      if c >= 0x40 {
        return Err(BadLabelLength);
      }
      p := p + 1;
      if p + c > |buf| {
        return Err(LabelOverruns);
      }
      if |sb| > 0 {
        sb := AppendLower(sb + [DOT], buf[p..p + c]);
      } else {
        sb := AppendLower(sb, buf[p..p + c]);
      }
      p := p + c;
      if |sb| > MAX_NAME {
        return Err(NameTooLong);
      }
    }
  }

  // --- decode agrees with skip ------------------------------------------------------

  /** Once the end position is fixed, no later step changes it. */
  lemma {:induction false} NextIsFixed(buf: seq<byte>, p: nat, next: nat, jumps: nat, sb: Name)
    requires jumps <= MAX_JUMPS
    requires Walk(buf, p, Some(next), jumps, sb).Ok?
    ensures Walk(buf, p, Some(next), jumps, sb).value.1 == next
    decreases MAX_JUMPS - jumps, |buf| - p
  {
    var c := buf[p];
    if c >= 0xC0 {
      NextIsFixed(buf, PointerAt(buf, p), next, jumps + 1, sb);
    } else if c != 0 {
      NextIsFixed(buf, p + 1 + c, next, jumps, AddLabel(sb, buf[p + 1..p + 1 + c]));
    }
  }

  lemma {:induction false} WalkEndsWhereSkipDoes(buf: seq<byte>, p: nat, jumps: nat, sb: Name)
    requires jumps <= MAX_JUMPS
    requires Walk(buf, p, None, jumps, sb).Ok?
    ensures Skip(buf, p) == Ok(Walk(buf, p, None, jumps, sb).value.1)
    decreases |buf| - p
  {
    var c := buf[p];
    if c >= 0xC0 {
      NextIsFixed(buf, PointerAt(buf, p), p + 2, jumps + 1, sb);
    } else if c != 0 {
      WalkEndsWhereSkipDoes(buf, p + 1 + c, jumps, AddLabel(sb, buf[p + 1..p + 1 + c]));
    }
  }

  /** Whenever a name decodes, skipping it ends at the same place. */
  lemma DecodeAgreesWithSkip(buf: seq<byte>, pos: nat)
    requires Decoded(buf, pos).Ok?
    ensures Skip(buf, pos) == Ok(Decoded(buf, pos).value.1)
  {
    WalkEndsWhereSkipDoes(buf, pos, 0, []);
  }

  // --- what decodes ----------------------------------------------------------------------

  /** The labels joined behind what is there already. */
  function Join(sb: Name, ls: seq<Name>): Name
    decreases |ls|
  {
    if ls == [] then sb else Join(AddLabel(sb, ls[0]), ls[1..])
  }

  lemma {:induction false} JoinGrows(sb: Name, ls: seq<Name>)
    ensures |sb| <= |Join(sb, ls)|
    decreases |ls|
  {
    if ls != [] {
      JoinGrows(AddLabel(sb, ls[0]), ls[1..]);
    }
  }

  predicate AllValid(ls: seq<Name>) {
    forall i :: 0 <= i < |ls| ==> ValidLabel(ls[i])
  }

  /** Where the labels from p on end: at a zero byte or at a pointer. */
  function Stop(buf: seq<byte>, p: nat): (q: nat)
    requires Skip(buf, p).Ok?
    ensures p <= q < |buf| && (buf[q] == 0 || (buf[q] >= 0xC0 && q + 1 < |buf|))
    decreases |buf| - p
  {
    if buf[p] == 0 || buf[p] >= 0xC0 then p else Stop(buf, p + 1 + buf[p])
  }

  /** The labels from p on up to there. */
  function LabelsAt(buf: seq<byte>, p: nat): seq<Name>
    requires Skip(buf, p).Ok?
    decreases |buf| - p
  {
    if buf[p] == 0 || buf[p] >= 0xC0 then []
    else
      assert Skip(buf, p + 1 + buf[p]).Ok?;
      [buf[p + 1..p + 1 + buf[p]]] + LabelsAt(buf, p + 1 + buf[p])
  }

  predicate EndsInPointer(buf: seq<byte>, p: nat) {
    Skip(buf, p).Ok? && buf[Stop(buf, p)] >= 0xC0
  }

  /** Where the pointer after the labels from p on leads. */
  function Target(buf: seq<byte>, p: nat): (q: nat)
    requires EndsInPointer(buf, p)
  {
    PointerAt(buf, Stop(buf, p))
  }

  lemma JoinCons(sb: Name, l: Name, rest: seq<Name>)
    ensures Join(sb, [l] + rest) == Join(AddLabel(sb, l), rest)
    ensures AllValid([l] + rest) <==> ValidLabel(l) && AllValid(rest)
  {
    var ls := [l] + rest;
    assert ls[0] == l && ls[1..] == rest;
    assert forall k :: 0 <= k < |rest| ==> rest[k] == ls[k + 1];
  }

  /** The walk gets past a run of labels exactly when every length is below 64 and
      the name stays within 253 bytes, and then stands at the run's end with the
      labels joined. */
  lemma {:induction false} WalkOverLabels(buf: seq<byte>, p: nat, next: Option<nat>, jumps: nat, sb: Name)
    requires jumps <= MAX_JUMPS && |sb| <= MAX_NAME && Skip(buf, p).Ok?
    ensures var name := Join(sb, LabelsAt(buf, p));
      if AllValid(LabelsAt(buf, p)) && |name| <= MAX_NAME
      then Walk(buf, p, next, jumps, sb) == Walk(buf, Stop(buf, p), next, jumps, name)
      else Walk(buf, p, next, jumps, sb).Err?
    decreases |buf| - p
  {
    var c := buf[p];
    if c != 0 && c < 0xC0 {
      var l, q := buf[p + 1..p + 1 + c], p + 1 + c;
      var sb' := AddLabel(sb, l);
      assert Skip(buf, q).Ok?;
      JoinCons(sb, l, LabelsAt(buf, q));
      JoinGrows(sb', LabelsAt(buf, q));
      if c < 0x40 && |sb'| <= MAX_NAME {
        WalkOverLabels(buf, q, next, jumps, sb');
      }
    }
  }

  /** The position to go on from once a pointer has been followed. */
  function Resume(buf: seq<byte>, p: nat, next: Option<nat>): Option<nat>
    requires EndsInPointer(buf, p)
  {
    if next.None? then Some(Stop(buf, p) + 2) else next
  }

  /** At the pointer behind a run of labels the walk jumps, if that is backwards
      and jumps are left. */
  lemma WalkJumps(buf: seq<byte>, p: nat, next: Option<nat>, jumps: nat, sb: Name)
    requires jumps <= MAX_JUMPS && EndsInPointer(buf, p)
    ensures var w := Walk(buf, Stop(buf, p), next, jumps, sb);
      if Target(buf, p) < Stop(buf, p) && jumps < MAX_JUMPS
      then w == Walk(buf, Target(buf, p), Resume(buf, p, next), jumps + 1, sb)
      else w.Err?
  {
  }

  /** Among names without a pointer, decoding accepts exactly those that can be
      skipped, have no length above 63 and join to at most 253 bytes. */
  lemma PlainNameDecodes(buf: seq<byte>, pos: nat)
    requires Skip(buf, pos).Ok? && !EndsInPointer(buf, pos)
    ensures var name := Join([], LabelsAt(buf, pos));
      if AllValid(LabelsAt(buf, pos)) && |name| <= MAX_NAME
      then Decoded(buf, pos) == Ok((name, Stop(buf, pos) + 1))
      else Decoded(buf, pos).Err?
  {
    WalkOverLabels(buf, pos, None, 0, []);
  }

  /** A name read off byte by byte: at each position a label of 1 to 63 bytes and on
      behind it, or a pointer of two bytes, the first 192 or more, and on at the
      earlier position they give; at the last position a zero byte. */
  ghost predicate Spells(buf: seq<byte>, at: seq<nat>, labels: seq<Name>, pointers: nat)
    decreases |at|
  {
    && at != [] && at[0] < |buf|
    && var p, c := at[0], buf[at[0]];
       if |at| == 1 then c == 0 && labels == [] && pointers == 0
       else if c >= 192 then
         && p + 1 < |buf| && at[1] == 256 * (c as int - 192) + buf[p + 1] && at[1] < p
         && pointers > 0 && Spells(buf, at[1..], labels, pointers - 1)
       else
         && 1 <= c <= 63 && p + 1 + c <= |buf| && at[1] == p + 1 + c
         && labels != [] && labels[0] == buf[p + 1..p + 1 + c] && Spells(buf, at[1..], labels[1..], pointers)
  }

  /** The walk reads a name off. */
  ghost predicate Reads(buf: seq<byte>, p: nat, next: Option<nat>, jumps: nat, sb: Name, name: Name) {
    jumps <= MAX_JUMPS && Walk(buf, p, next, jumps, sb).Ok? && Walk(buf, p, next, jumps, sb).value.0 == name
  }

  lemma ReadsLabel(buf: seq<byte>, p: nat, next: Option<nat>, jumps: nat, sb: Name, name: Name)
    requires jumps <= MAX_JUMPS && p < |buf| && 1 <= buf[p] <= 63
    ensures Reads(buf, p, next, jumps, sb, name) <==>
      && p + 1 + buf[p] <= |buf|
      && var sb' := AddLabel(sb, buf[p + 1..p + 1 + buf[p]]);
         |sb'| <= MAX_NAME && Reads(buf, p + 1 + buf[p], next, jumps, sb', name)
  {
  }

  lemma ReadsPointer(buf: seq<byte>, p: nat, next: Option<nat>, jumps: nat, sb: Name, name: Name)
    requires jumps <= MAX_JUMPS && p < |buf| && buf[p] >= 192
    ensures Reads(buf, p, next, jumps, sb, name) <==>
      && p + 1 < |buf| && PointerAt(buf, p) < p && jumps < MAX_JUMPS
      && Reads(buf, PointerAt(buf, p), if next.None? then Some(p + 2) else next, jumps + 1, sb, name)
  {
  }

  lemma {:induction false} SpelledIsRead(buf: seq<byte>, at: seq<nat>, labels: seq<Name>, pointers: nat,
                                         next: Option<nat>, jumps: nat, sb: Name)
    requires Spells(buf, at, labels, pointers) && jumps + pointers <= MAX_JUMPS && |Join(sb, labels)| <= MAX_NAME
    ensures Reads(buf, at[0], next, jumps, sb, Join(sb, labels))
    decreases |at|
  {
    var p := at[0];
    if |at| > 1 {
      if buf[p] >= 192 {
        ReadsPointer(buf, p, next, jumps, sb, Join(sb, labels));
        SpelledIsRead(buf, at[1..], labels, pointers - 1, if next.None? then Some(p + 2) else next, jumps + 1, sb);
      } else {
        ReadsLabel(buf, p, next, jumps, sb, Join(sb, labels));
        JoinGrows(AddLabel(sb, labels[0]), labels[1..]);
        SpelledIsRead(buf, at[1..], labels[1..], pointers, next, jumps, AddLabel(sb, labels[0]));
      }
    }
  }

  lemma {:induction false} ReadIsSpelled(buf: seq<byte>, p: nat, next: Option<nat>, jumps: nat, sb: Name, name: Name)
    returns (at: seq<nat>, labels: seq<Name>, pointers: nat)
    requires Reads(buf, p, next, jumps, sb, name) && |sb| <= MAX_NAME
    ensures Spells(buf, at, labels, pointers) && at[0] == p && jumps + pointers <= MAX_JUMPS
    ensures name == Join(sb, labels) && |name| <= MAX_NAME
    decreases MAX_JUMPS - jumps, |buf| - p
  {
    if buf[p] == 0 {
      at, labels, pointers := [p], [], 0;
    } else if buf[p] >= 192 {
      ReadsPointer(buf, p, next, jumps, sb, name);
      at, labels, pointers :=
        ReadIsSpelled(buf, PointerAt(buf, p), if next.None? then Some(p + 2) else next, jumps + 1, sb, name);
      at, pointers := SpellsPointer(buf, p, at, labels, pointers);
    } else {
      ReadsLabel(buf, p, next, jumps, sb, name);
      var l := buf[p + 1..p + 1 + buf[p]];
      at, labels, pointers := ReadIsSpelled(buf, p + 1 + buf[p], next, jumps, AddLabel(sb, l), name);
      JoinCons(sb, l, labels);
      at, labels := SpellsLabel(buf, p, at, labels, pointers);
    }
  }

  lemma SpellsPointer(buf: seq<byte>, p: nat, at: seq<nat>, labels: seq<Name>, pointers: nat)
    returns (more: seq<nat>, count: nat)
    requires p + 1 < |buf| && buf[p] >= 192 && PointerAt(buf, p) < p
    requires Spells(buf, at, labels, pointers) && at[0] == PointerAt(buf, p)
    ensures Spells(buf, more, labels, count) && more[0] == p && count == pointers + 1
  {
    more, count := [p] + at, pointers + 1;
    assert more[1..] == at;
  }

  lemma SpellsLabel(buf: seq<byte>, p: nat, at: seq<nat>, labels: seq<Name>, pointers: nat)
    returns (more: seq<nat>, all: seq<Name>)
    requires p < |buf| && 1 <= buf[p] <= 63 && p + 1 + buf[p] <= |buf|
    requires Spells(buf, at, labels, pointers) && at[0] == p + 1 + buf[p]
    ensures all == [buf[p + 1..p + 1 + buf[p]]] + labels
    ensures Spells(buf, more, all, pointers) && more[0] == p
  {
    more, all := [p] + at, [buf[p + 1..p + 1 + buf[p]]] + labels;
    assert more[1..] == at && all[1..] == labels;
  }

  /** The name stands at the position, with at most 32 pointers on the way and at
      most 253 bytes joined. */
  ghost predicate NameAt(buf: seq<byte>, pos: nat, name: Name) {
    && |name| <= 253
    && exists at, labels, pointers: nat ::
         && Spells(buf, at, labels, pointers) && at[0] == pos && pointers <= 32 && Join([], labels) == name
  }

  /** Exactly which names decode, and to what. */
  lemma DecodesExactly(buf: seq<byte>, pos: nat, name: Name)
    ensures Decoded(buf, pos).Ok? && Decoded(buf, pos).value.0 == name <==> NameAt(buf, pos, name)
  {
    if Decoded(buf, pos).Ok? && Decoded(buf, pos).value.0 == name {
      assert Reads(buf, pos, None, 0, [], name);
      var at, labels, pointers := ReadIsSpelled(buf, pos, None, 0, [], name);
    }
    if NameAt(buf, pos, name) {
      var at, labels, pointers: nat :|
        Spells(buf, at, labels, pointers) && at[0] == pos && pointers <= 32 && Join([], labels) == name;
      SpelledIsRead(buf, at, labels, pointers, None, 0, []);
    }
  }

  /** What a joined name is: the labels with a dot (46) between each two, every byte
      from 65 to 90 raised by 32 and every other one as it is. */
  lemma JoinedName(labels: seq<Name>, l: Name)
    requires labels != [] ==> Join([], labels) != []
    ensures Join([], labels + [l]) == Join([], labels) + (if labels == [] then [] else [46]) + Lower(l)
    ensures |Lower(l)| == |l|
    ensures forall i :: 0 <= i < |l| ==> Lower(l)[i] == if 65 <= l[i] <= 90 then l[i] + 32 else l[i]
  {
    JoinAppend([], labels, [l]);
    assert Join(Join([], labels), [l]) == AddLabel(Join([], labels), l);
  }

  lemma {:induction false} JoinAppend(sb: Name, ls: seq<Name>, more: seq<Name>)
    ensures Join(sb, ls + more) == Join(Join(sb, ls), more)
    decreases |ls|
  {
    if ls == [] {
      assert ls + more == more;
    } else {
      assert ls == [ls[0]] + ls[1..] && ls + more == [ls[0]] + (ls[1..] + more);
      JoinCons(sb, ls[0], ls[1..]);
      JoinCons(sb, ls[0], ls[1..] + more);
      JoinAppend(AddLabel(sb, ls[0]), ls[1..], more);
    }
  }

  /** Canonical names: one trailing dot (46) less, if there is one, and lower case. */
  lemma CanonicalNameIs(name: Name)
    ensures var c := CanonicalName(name);
      && |c| == |name| - (if |name| > 0 && name[|name| - 1] == 46 then 1 else 0)
      && forall i :: 0 <= i < |c| ==> c[i] == if 65 <= name[i] <= 90 then name[i] + 32 else name[i]
  {
  }

  /** Where skipping ends: labels of 1 to 191 bytes are stepped over, a zero byte is
      one byte long, a pointer two. */
  lemma {:induction false} SkipExactly(buf: seq<byte>, pos: nat, e: nat)
    ensures Skip(buf, pos) == Ok(e) <==> exists at :: SkipsTo(buf, at, e) && at[0] == pos
    decreases |buf| - pos
  {
    if pos < |buf| && 1 <= buf[pos] < 192 {
      SkipExactly(buf, pos + 1 + buf[pos], e);
      if Skip(buf, pos) == Ok(e) {
        var at :| SkipsTo(buf, at, e) && at[0] == pos + 1 + buf[pos];
        assert ([pos] + at)[1..] == at;
        assert SkipsTo(buf, [pos] + at, e);
      }
    } else if Skip(buf, pos) == Ok(e) {
      assert SkipsTo(buf, [pos], e);
    }
  }

  ghost predicate SkipsTo(buf: seq<byte>, at: seq<nat>, e: nat)
    decreases |at|
  {
    && at != [] && at[0] < |buf|
    && var p, c := at[0], buf[at[0]];
       if 1 <= c < 192 then |at| > 1 && at[1] == p + 1 + c && SkipsTo(buf, at[1..], e)
       else |at| == 1 && (if c == 0 then e == p + 1 else p + 1 < |buf| && e == p + 2)
  }

  /** Skipping accepts more: a length byte with its top bits 01 or 10 is stepped
      over and refused by decoding. */
  lemma SkipAcceptsMore(c: byte, fill: seq<byte>)
    requires 0x40 <= c < 0xC0 && |fill| == c
    ensures var buf := [c] + fill + [0];
      Skip(buf, 0) == Ok(|buf|) && Decoded(buf, 0) == Err(BadLabelLength)
  {
    var buf := [c] + fill + [0];
    assert buf[0] == c && buf[1 + c] == 0;
    assert Skip(buf, 0) == Skip(buf, 1 + c);
  }

  /** A backward pointer may lead round in a circle; only the jump limit ends
      it. */
  lemma {:induction false} PointersCanCycle(next: Option<nat>, jumps: nat, sb: Name)
    requires jumps <= MAX_JUMPS && |sb| <= 2 * jumps
    ensures Walk([1, 97, 0xC0, 0], 0, next, jumps, sb) == Err(TooManyPointers)
    decreases MAX_JUMPS - jumps
  {
    var buf: seq<byte> := [1, 97, 0xC0, 0];
    var sb' := AddLabel(sb, buf[1..2]);
    assert Walk(buf, 0, next, jumps, sb) == Walk(buf, 2, next, jumps, sb');
    if jumps < MAX_JUMPS {
      var next' := if next.None? then Some(4) else next;
      assert Walk(buf, 2, next, jumps, sb') == Walk(buf, 0, next', jumps + 1, sb');
      PointersCanCycle(next', jumps + 1, sb');
    }
  }

  // --- decode undoes build -------------------------------------------------------------

  lemma PartsOf(buf: seq<byte>, p: nat, a: seq<byte>, b: seq<byte>)
    requires p + |a| + |b| <= |buf| && buf[p..p + |a| + |b|] == a + b
    ensures buf[p..p + |a|] == a && buf[p + |a|..p + |a| + |b|] == b
  {
    var both := buf[p..p + |a| + |b|];
    SplitAt(a, b);
    assert buf[p..p + |a|] == both[..|a|] && buf[p + |a|..p + |a| + |b|] == both[|a|..];
  }

  lemma OneLabelAt(buf: seq<byte>, p: nat, l: Name)
    requires ValidLabel(l) && p + 1 + |l| <= |buf| && buf[p..p + 1 + |l|] == OneLabel(l)
    ensures buf[p] == |l| && buf[p + 1..p + 1 + |l|] == l
  {
    var one := buf[p..p + 1 + |l|];
    assert buf[p] == one[0] == |l|;
    assert buf[p + 1..p + 1 + |l|] == one[1..] == l;
  }

  lemma LabelsAtCons(buf: seq<byte>, p: nat, l: Name)
    requires ValidLabel(l) && p + 1 + |l| <= |buf| && buf[p] == |l| && buf[p + 1..p + 1 + |l|] == l
    requires Skip(buf, p + 1 + |l|).Ok?
    ensures Skip(buf, p).Ok? && LabelsAt(buf, p) == [l] + LabelsAt(buf, p + 1 + |l|)
    ensures Stop(buf, p) == Stop(buf, p + 1 + |l|)
  {
  }

  /** Encoded labels followed by a zero byte are the labels found there. */
  lemma {:induction false} EncodedLabelsAt(buf: seq<byte>, p: nat, ls: seq<Name>)
    requires AllValid(ls) && p + |LabelBytes(ls)| < |buf|
    requires buf[p..p + |LabelBytes(ls)|] == LabelBytes(ls) && buf[p + |LabelBytes(ls)|] == 0
    ensures Skip(buf, p).Ok? && LabelsAt(buf, p) == ls && Stop(buf, p) == p + |LabelBytes(ls)|
    decreases |ls|
  {
    if ls != [] {
      var l, rest := ls[0], LabelBytes(ls[1..]);
      PartsOf(buf, p, OneLabel(l), rest);
      OneLabelAt(buf, p, l);
      var q := p + 1 + |l|;
      assert q + |rest| == p + |LabelBytes(ls)|;
      EncodedLabelsAt(buf, q, ls[1..]);
      LabelsAtCons(buf, p, l);
      assert ls == [l] + ls[1..];
    }
  }

  /** Adding a label and then the rest is adding both with the dot between. */
  lemma AddLabelTwice(sb: Name, l: Name, rest: Name)
    requires l != [] && rest != []
    ensures AddLabel(AddLabel(sb, l), TrimDot(rest)) == AddLabel(sb, TrimDot(l + [DOT] + rest))
  {
    var pre: Name := if sb == [] then [] else sb + [DOT];
    var t := TrimDot(rest);
    TrimDotOfCut(l, rest);
    LowerAroundDot(l, t);
    assert |AddLabel(sb, l)| >= |l|;
    assert pre + Lower(l) + [DOT] + Lower(t) == pre + (Lower(l) + [DOT] + Lower(t));
  }

  lemma TrimDotOfCut(l: Name, rest: Name)
    requires rest != []
    ensures TrimDot(l + [DOT] + rest) == l + [DOT] + TrimDot(rest)
  {
  }

  lemma LowerAroundDot(l: Name, t: Name)
    ensures Lower(l + [DOT] + t) == Lower(l) + [DOT] + Lower(t)
  {
    assert AsciiLower(DOT) == DOT;
  }

  /** A name cut at its first dot: the first label, then what the rest gives. */
  lemma JoinAtDot(sb: Name, name: Name, start: nat, i: nat)
    requires start < i < |name| && name[i] == DOT
    requires Join(AddLabel(sb, name[start..i]), LabelsFrom(name, i + 1, i + 1)) ==
             if i + 1 == |name| then AddLabel(sb, name[start..i])
             else AddLabel(AddLabel(sb, name[start..i]), TrimDot(name[i + 1..]))
    ensures Join(AddLabel(sb, name[start..i]), LabelsFrom(name, i + 1, i + 1)) ==
            AddLabel(sb, TrimDot(name[start..]))
  {
    CutAtDot(name, start, i);
    if i + 1 < |name| {
      AddLabelTwice(sb, name[start..i], name[i + 1..]);
    }
  }

  lemma CutAtDot(name: Name, start: nat, i: nat)
    requires start < i < |name| && name[i] == DOT
    ensures name[start..] == name[start..i] + [DOT] + name[i + 1..]
    ensures i + 1 == |name| ==> TrimDot(name[start..]) == name[start..i]
  {
  }

  /** Joining the labels of a name gives its canonical form. */
  lemma {:induction false} JoinOfLabels(sb: Name, name: Name, start: nat, i: nat)
    requires start <= i <= |name| && DOT !in name[start..i]
    requires AllValid(LabelsFrom(name, start, i))
    ensures Join(sb, LabelsFrom(name, start, i)) ==
            if start == |name| then sb else AddLabel(sb, TrimDot(name[start..]))
    decreases |name| - i
  {
    if i == |name| {
      if start < |name| {
        assert name[start..] == name[start..i];
        assert [name[start..]] + [] == [name[start..]];
        JoinCons(sb, name[start..], []);
      }
    } else if name[i] == DOT {
      var l, rest := name[start..i], LabelsFrom(name, i + 1, i + 1);
      JoinCons(sb, l, rest);
      assert name[i + 1..i + 1] == [];
      JoinOfLabels(AddLabel(sb, l), name, i + 1, i + 1);
      JoinAtDot(sb, name, start, i);
    } else {
      assert name[start..i + 1] == name[start..i] + [name[i]];
      JoinOfLabels(sb, name, start, i + 1);
    }
  }

  lemma Layout(head: seq<byte>, enc: seq<byte>, tail: seq<byte>)
    ensures var q := head + enc + [0] + tail;
      && q[|head|..|head| + |enc|] == enc
      && q[|head| + |enc|] == 0
      && |q| == |head| + |enc| + 1 + |tail|
  {
  }

  /** Where the question's name lies in a query. */
  lemma QueryLayout(id: u16, qname: Name, qtype: u16)
    requires ValidQuery(qname)
    ensures var q, enc := QueryBytes(id, qname, qtype), LabelBytes(Labels(qname));
      && |q| == 12 + |enc| + 5
      && q[12..12 + |enc|] == enc && q[12 + |enc|] == 0
  {
    var enc, tail := LabelBytes(Labels(qname)), PutU16(qtype) + PutU16(1);
    Layout(QueryHeader(id), enc, tail);
    assert QueryBytes(id, qname, qtype) == QueryHeader(id) + enc + [0] + tail;
  }

  /** A query on the wire: the id, recursion desired, one question, nothing else;
      from byte 12 the name, a zero byte, the type, class IN. */
  lemma QueryOnWire(id: u16, qname: Name, qtype: u16)
    requires ValidQuery(qname)
    ensures var q := QueryBytes(id, qname, qtype);
      && |q| >= 17 && Two(q, 0) == id && q[2] == 1 && q[3] == 0 && Two(q, 4) == 1
      && q[6..12] == [0, 0, 0, 0, 0, 0]
      && q[|q| - 5] == 0 && Two(q, |q| - 4) == qtype && Two(q, |q| - 2) == 1
  {
    var enc, q := LabelBytes(Labels(qname)), QueryBytes(id, qname, qtype);
    QueryLayout(id, qname, qtype);
    var h := QueryHeader(id);
    assert h[0..2] == PutU16(id) && h[2..4] == PutU16(0x0100) && h[4..6] == PutU16(1);
    U16At(h, 0, id);
    U16At(h, 4, 1);
    QueryEnds(h, enc, PutU16(qtype), PutU16(1));
    U16At(q, |q| - 4, qtype);
    U16At(q, |q| - 2, 1);
  }

  lemma QueryEnds(h: seq<byte>, enc: seq<byte>, t: seq<byte>, c: seq<byte>)
    requires |h| == 12 && |t| == 2 && |c| == 2
    ensures var q := h + enc + [0] + t + c;
      && |q| == 17 + |enc| && q[..12] == h && (forall i :: 0 <= i < 12 ==> q[i] == h[i]) && q[6..12] == h[6..12]
      && q[|q| - 4..|q| - 2] == t && q[|q| - 2..|q|] == c
  {
  }

  /** Decoding the question of any query that can be built returns the canonical
      form of its name and the position four bytes before the end. */
  lemma DecodeUndoesBuild(id: u16, qname: Name, qtype: u16)
    requires ValidQuery(qname)
    ensures var q := QueryBytes(id, qname, qtype);
      Decoded(q, 12) == Ok((CanonicalName(qname), |q| - 4))
  {
    var q := QueryBytes(id, qname, qtype);
    QueryNameJoins(qname);
    QueryLayout(id, qname, qtype);
    assert AllValid(Labels(qname));
    EncodedLabelsAt(q, 12, Labels(qname));
    PlainNameDecodes(q, 12);
  }

  lemma QueryNameJoins(qname: Name)
    requires ValidQuery(qname)
    ensures Join([], Labels(qname)) == CanonicalName(qname) && |CanonicalName(qname)| <= MAX_NAME
  {
    assert qname[0..0] == [] && qname[0..] == qname;
    assert LabelsFrom(qname, 0, 0) == Labels(qname);
    assert AllValid(Labels(qname));
    JoinOfLabels([], qname, 0, 0);
    assert AddLabel([], TrimDot(qname)) == CanonicalName(qname);
  }
}
