/** The KEY_METHOD 2 message: one encoder, a parser over a whole buffer and a
    reader that consumes a stream field by field. */
module KeyMethod2 {
  import opened Bytes

  const PRE_MASTER_LEN := 48
  const RANDOM_LEN := 32
  const MAX_CONTROL_MESSAGE_LEN := 16 * 1024

  function Zeros(n: nat): (r: seq<byte>)
    ensures |r| == n
    ensures forall i :: 0 <= i < n ==> r[i] == 0
  {
    if n == 0 then [] else Zeros(n - 1) + [0]
  }

  type PreMaster = s: seq<byte> | |s| == PRE_MASTER_LEN witness Zeros(PRE_MASTER_LEN)
  type Random = s: seq<byte> | |s| == RANDOM_LEN witness Zeros(RANDOM_LEN)

  const NO_PRE_MASTER: PreMaster := Zeros(PRE_MASTER_LEN)

  datatype KeyMethod2 = KeyMethod2(
    isServer: bool,
    preMaster: PreMaster,
    random1: Random,
    random2: Random,
    options: seq<byte>,
    username: seq<byte>,
    password: seq<byte>,
    authUserPass: bool,
    peerInfo: seq<byte>)

  datatype KmError = BadString | Short | BadPrefix | BadMethod | ZeroLength | TooLong | NoTerminator

  /** A string that fits its length field and holds no NUL. */
  predicate ValidString(s: seq<byte>) {
    |s| + 1 <= 0xFFFF && 0 !in s
  }

  predicate Encodable(km: KeyMethod2) {
    && ValidString(km.options)
    && (km.authUserPass ==> ValidString(km.username) && ValidString(km.password))
    && ValidString(km.peerInfo)
  }

  /** Length including the NUL, the bytes, the NUL. */
  function Prefixed(s: seq<byte>): seq<byte>
    requires |s| + 1 <= 0xFFFF
  {
    PutU16(|s| + 1) + s + [0]
  }

  function Credential(km: KeyMethod2, s: seq<byte>): seq<byte>
    requires km.authUserPass ==> |s| + 1 <= 0xFFFF
  {
    if km.authUserPass then Prefixed(s) else [0, 0]
  }

  function Preamble(km: KeyMethod2): seq<byte> {
    [0, 0, 0, 0, 2] + (if km.isServer then [] else km.preMaster) + km.random1 + km.random2
  }

  function Encode(km: KeyMethod2): seq<byte>
    requires Encodable(km)
  {
    Preamble(km) + Prefixed(km.options) + Credential(km, km.username)
    + Credential(km, km.password) + Prefixed(km.peerInfo)
  }

  method ValidateString(s: seq<byte>) returns (ok: bool)
    ensures ok == ValidString(s)
  {
    if |s| + 1 > 0xFFFF {
      return false;
    }
    for i := 0 to |s|
      invariant 0 !in s[..i]
    {
      if s[i] == 0 {
        return false;
      }
      assert s[..i + 1] == s[..i] + [s[i]];
    }
    assert s[..|s|] == s;
    return true;
  }

  method AppendLengthPrefixed(out: seq<byte>, s: seq<byte>) returns (r: seq<byte>)
    requires |s| + 1 <= 0xFFFF
    ensures r == out + Prefixed(s)
  {
    r := out + PutU16(|s| + 1);
    r := r + s;
    r := r + [0];
  }

  /** Marshalling succeeds exactly on encodable messages. */
  method MarshalKeyMethod2(km: KeyMethod2) returns (r: Result<seq<byte>, KmError>)
    ensures r == if Encodable(km) then Ok(Encode(km)) else Err(BadString)
  {
    var ok := ValidateString(km.options);
    if !ok {
      return Err(BadString);
    }
    if km.authUserPass {
      ok := ValidateString(km.username);
      if !ok {
        return Err(BadString);
      }
      ok := ValidateString(km.password);
      if !ok {
        return Err(BadString);
      }
    }
    ok := ValidateString(km.peerInfo);
    if !ok {
      return Err(BadString);
    }
    var out: seq<byte> := [0, 0, 0, 0];
    out := out + [2];
    if !km.isServer {
      out := out + km.preMaster;
    }
    out := out + km.random1;
    out := out + km.random2;
    assert out == Preamble(km);
    out := AppendLengthPrefixed(out, km.options);
    if km.authUserPass {
      out := AppendLengthPrefixed(out, km.username);
      out := AppendLengthPrefixed(out, km.password);
    } else {
      out := out + [0, 0];
      out := out + [0, 0];
    }
    out := AppendLengthPrefixed(out, km.peerInfo);
    return Ok(out);
  }

  /** Which strings a decoder puts up with: the longest length field, and
      whether a zero length stands for the empty string. */
  datatype Policy = Policy(limit: u16, emptyAllowed: bool)

  /** One string off the front of the input, and what follows it. */
  function TakeString(data: seq<byte>, p: Policy): Result<(seq<byte>, seq<byte>), KmError> {
    if |data| < 2 then Err(Short)
    else
      var n := GetU16(data[..2]);
      if n == 0 then
        if p.emptyAllowed then Ok(([], data[2..])) else Err(ZeroLength)
      else if n > p.limit then Err(TooLong)
      else if |data| < 2 + n then Err(Short)
      else if data[2 + n - 1] != 0 then Err(NoTerminator)
      else Ok((data[2..2 + n - 1], data[2 + n..]))
  }

  function PreambleLen(isServer: bool): nat {
    5 + (if isServer then 0 else PRE_MASTER_LEN) + 2 * RANDOM_LEN
  }

  datatype Fixed = Fixed(preMaster: PreMaster, random1: Random, random2: Random, tail: seq<byte>)

  /** The fixed-size fields off the front of the input. */
  function TakeFixed(data: seq<byte>, isServer: bool): Result<Fixed, KmError> {
    if |data| < 5 then Err(Short)
    else if data[0] != 0 || data[1] != 0 || data[2] != 0 || data[3] != 0 then Err(BadPrefix)
    else if data[4] != 2 then Err(BadMethod)
    else if |data| < PreambleLen(isServer) then Err(Short)
    else
      var at := PreambleLen(isServer) - 2 * RANDOM_LEN;
      Ok(Fixed(if isServer then NO_PRE_MASTER else data[5..5 + PRE_MASTER_LEN],
               data[at..at + RANDOM_LEN], data[at + RANDOM_LEN..at + 2 * RANDOM_LEN],
               data[at + 2 * RANDOM_LEN..]))
  }

  datatype Strings = Strings(options: seq<byte>, username: seq<byte>, password: seq<byte>,
                             peerInfo: seq<byte>, tail: seq<byte>)

  /** The four strings off the front of the input.  `first` is the policy for
      the options, `rest` the one for the others. */
  function TakeStrings(data: seq<byte>, first: Policy, rest: Policy): Result<Strings, KmError> {
    var o := TakeString(data, first);
    if o.Err? then Err(o.error) else
    var u := TakeString(o.value.1, rest);
    if u.Err? then Err(u.error) else
    var w := TakeString(u.value.1, rest);
    if w.Err? then Err(w.error) else
    var i := TakeString(w.value.1, rest);
    if i.Err? then Err(i.error) else
    Ok(Strings(o.value.0, u.value.0, w.value.0, i.value.0, i.value.1))
  }

  function Assemble(isServer: bool, auth: bool, f: Fixed, s: Strings): KeyMethod2 {
    KeyMethod2(isServer, f.preMaster, f.random1, f.random2, s.options, s.username, s.password, auth, s.peerInfo)
  }

  /** A whole message off the front of the input, and what follows it. */
  function Decode(data: seq<byte>, isServer: bool, auth: bool, first: Policy, rest: Policy)
    : Result<(KeyMethod2, seq<byte>), KmError>
  {
    var f := TakeFixed(data, isServer);
    if f.Err? then Err(f.error) else
    var s := TakeStrings(f.value.tail, first, rest);
    if s.Err? then Err(s.error) else
    Ok((Assemble(isServer, auth, f.value, s.value), s.value.tail))
  }

  /** The buffer parser takes any length but insists on an options string. */
  const BUFFER_OPTIONS := Policy(0xFFFF, false)
  const BUFFER_OTHERS := Policy(0xFFFF, true)

  /** The stream reader caps every length and lets every string be absent. */
  const STREAM := Policy(MAX_CONTROL_MESSAGE_LEN, true)

  lemma TakePrefixed(s: seq<byte>, tail: seq<byte>, p: Policy)
    requires |s| + 1 <= 0xFFFF
    ensures TakeString(Prefixed(s) + tail, p) ==
            if |s| + 1 <= p.limit then Ok((s, tail)) else Err(TooLong)
  {
    var d := Prefixed(s) + tail;
    assert d[..2] == PutU16(|s| + 1);
    U16RoundTrip(|s| + 1);
    assert d[2..2 + |s|] == s && d[3 + |s|..] == tail;
  }

  lemma TakeEmpty(tail: seq<byte>, p: Policy)
    requires p.emptyAllowed
    ensures TakeString([0, 0] + tail, p) == Ok(([], tail))
  {
    var d := [0, 0] + tail;
    assert d[..2] == [0, 0];
  }

  /** What a message means to its reader: no pre-master from a server, blank
      credentials without authentication. */
  function Meaning(km: KeyMethod2): KeyMethod2 {
    var m := if km.isServer then km.(preMaster := NO_PRE_MASTER) else km;
    if km.authUserPass then m else m.(username := [], password := [])
  }

  predicate StringsFit(km: KeyMethod2, limit: nat) {
    && |km.options| < limit && |km.peerInfo| < limit
    && (km.authUserPass ==> |km.username| < limit && |km.password| < limit)
  }

  lemma TakeCredential(km: KeyMethod2, s: seq<byte>, tail: seq<byte>, p: Policy)
    requires p.emptyAllowed
    requires km.authUserPass ==> |s| + 1 <= 0xFFFF && |s| + 1 <= p.limit
    ensures TakeString(Credential(km, s) + tail, p) == Ok((if km.authUserPass then s else [], tail))
  {
    if km.authUserPass {
      TakePrefixed(s, tail, p);
    } else {
      TakeEmpty(tail, p);
    }
  }

  lemma TakeFixedPreamble(km: KeyMethod2, tail: seq<byte>)
    ensures TakeFixed(Preamble(km) + tail, km.isServer) ==
            Ok(Fixed(Meaning(km).preMaster, km.random1, km.random2, tail))
  {
    var d := Preamble(km) + tail;
    var at := PreambleLen(km.isServer) - 64;
    assert |Preamble(km)| == at + 64;
    assert d[at..at + 32] == km.random1;
    assert d[at + 32..at + 64] == km.random2;
    assert d[at + 64..] == tail;
    if !km.isServer {
      assert d[5..53] == km.preMaster;
    }
  }

  /** The four strings of a message and what follows it. */
  function StringBytes(km: KeyMethod2, tail: seq<byte>): seq<byte>
    requires Encodable(km)
  {
    Prefixed(km.options) + (Credential(km, km.username) + (Credential(km, km.password) + (Prefixed(km.peerInfo) + tail)))
  }

  lemma EncodedParts(km: KeyMethod2, tail: seq<byte>)
    requires Encodable(km)
    ensures Encode(km) + tail == Preamble(km) + StringBytes(km, tail)
  {
    Regroup(Preamble(km), Prefixed(km.options), Credential(km, km.username), Credential(km, km.password),
            Prefixed(km.peerInfo), tail);
  }

  lemma Regroup(a: seq<byte>, b: seq<byte>, c: seq<byte>, d: seq<byte>, e: seq<byte>, f: seq<byte>)
    ensures a + b + c + d + e + f == a + (b + (c + (d + (e + f))))
  {
  }

  lemma TakeStringsEncoded(km: KeyMethod2, tail: seq<byte>, first: Policy, rest: Policy)
    requires Encodable(km) && rest.emptyAllowed
    requires StringsFit(km, first.limit) && StringsFit(km, rest.limit)
    ensures var m := Meaning(km);
      TakeStrings(StringBytes(km, tail), first, rest) == Ok(Strings(m.options, m.username, m.password, m.peerInfo, tail))
  {
    var t3 := Prefixed(km.peerInfo) + tail;
    var t2 := Credential(km, km.password) + t3;
    var t1 := Credential(km, km.username) + t2;
    TakePrefixed(km.options, t1, first);
    TakeCredential(km, km.username, t2, rest);
    TakeCredential(km, km.password, t3, rest);
    TakePrefixed(km.peerInfo, tail, rest);
  }

  /** Decoding undoes encoding, whatever follows the message. */
  lemma DecodeEncode(km: KeyMethod2, tail: seq<byte>, first: Policy, rest: Policy)
    requires Encodable(km) && rest.emptyAllowed
    requires StringsFit(km, first.limit) && StringsFit(km, rest.limit)
    ensures Decode(Encode(km) + tail, km.isServer, km.authUserPass, first, rest) == Ok((Meaning(km), tail))
  {
    EncodedParts(km, tail);
    TakeFixedPreamble(km, StringBytes(km, tail));
    TakeStringsEncoded(km, tail, first, rest);
  }

  // --- the message byte by byte ------------------------------------------------

  /** A string stands at a position: its length with the NUL, its bytes, the NUL;
      or, where there is none, a zero length. */
  predicate StandsAt(d: seq<byte>, at: nat, s: Option<seq<byte>>) {
    && at + 2 <= |d|
    && match s
       case None => Two(d, at) == 0
       case Some(v) =>
         at + 3 + |v| <= |d| && Two(d, at) == |v| + 1 && d[at + 2..at + 2 + |v|] == v && d[at + 2 + |v|] == 0
  }

  lemma FixedStands(km: KeyMethod2, tail: seq<byte>)
    ensures var d, at := Preamble(km) + tail, if km.isServer then 5 else 53;
      && |Preamble(km)| == at + 64
      && d[..5] == [0, 0, 0, 0, 2]
      && (!km.isServer ==> d[5..53] == km.preMaster)
      && d[at..at + 32] == km.random1
      && d[at + 32..at + 64] == km.random2
  {
  }

  /** Strings stand one behind the other from a position to the end. */
  predicate AllStandAt(d: seq<byte>, at: nat, items: seq<Option<seq<byte>>>)
    decreases |items|
  {
    if items == [] then at == |d|
    else
      && StandsAt(d, at, items[0])
      && AllStandAt(d, at + (if items[0].Some? then 3 + |items[0].value| else 2), items[1..])
  }

  predicate AllFit(items: seq<Option<seq<byte>>>) {
    forall s :: s in items && s.Some? ==> |s.value| + 1 <= 0xFFFF
  }

  function ItemBytes(s: Option<seq<byte>>): seq<byte>
    requires s.Some? ==> |s.value| + 1 <= 0xFFFF
  {
    if s.Some? then Prefixed(s.value) else [0, 0]
  }

  function AllBytes(items: seq<Option<seq<byte>>>): seq<byte>
    requires AllFit(items)
    decreases |items|
  {
    if items == [] then [] else ItemBytes(items[0]) + AllBytes(items[1..])
  }

  lemma ItemStands(d: seq<byte>, head: seq<byte>, s: Option<seq<byte>>, tail: seq<byte>)
    requires s.Some? ==> |s.value| + 1 <= 0xFFFF
    requires d == head + (ItemBytes(s) + tail)
    ensures StandsAt(d, |head|, s)
  {
    if s.Some? {
      PrefixedStands(d, head, s.value, tail);
    } else {
      assert d[|head|] == 0 && d[|head| + 1] == 0;
    }
  }

  lemma PrefixedStands(d: seq<byte>, head: seq<byte>, s: seq<byte>, tail: seq<byte>)
    requires |s| + 1 <= 0xFFFF && d == head + (Prefixed(s) + tail)
    ensures StandsAt(d, |head|, Some(s))
  {
    var at := |head|;
    assert d[at..at + 2] == PutU16(|s| + 1);
    U16At(d, at, |s| + 1);
    assert d[at + 2..at + 2 + |s|] == s && d[at + 2 + |s|] == 0;
  }

  lemma {:induction false} AllStand(head: seq<byte>, items: seq<Option<seq<byte>>>)
    requires AllFit(items)
    ensures AllStandAt(head + AllBytes(items), |head|, items)
    decreases |items|
  {
    if items != [] {
      var d, one, rest := head + AllBytes(items), ItemBytes(items[0]), AllBytes(items[1..]);
      ItemStands(d, head, items[0], rest);
      assert d == head + one + rest;
      AllStand(head + one, items[1..]);
    }
  }

  /** The strings of a message, the credentials absent without authentication. */
  function Items(km: KeyMethod2): seq<Option<seq<byte>>> {
    [Some(km.options), if km.authUserPass then Some(km.username) else None,
     if km.authUserPass then Some(km.password) else None, Some(km.peerInfo)]
  }

  lemma ItemsAreStrings(km: KeyMethod2)
    requires Encodable(km)
    ensures AllFit(Items(km)) && AllBytes(Items(km)) == StringBytes(km, [])
  {
    var a := Items(km);
    assert a[1..][1..] == a[2..] && a[2..][1..] == a[3..] && a[3..][1..] == a[4..];
    assert AllFit(a) && AllFit(a[1..]) && AllFit(a[2..]) && AllFit(a[3..]) && AllFit(a[4..]);
    assert AllBytes(a[3..]) == ItemBytes(a[3]) + AllBytes(a[4..]);
    assert AllBytes(a[2..]) == ItemBytes(a[2]) + AllBytes(a[3..]);
    assert AllBytes(a[1..]) == ItemBytes(a[1]) + AllBytes(a[2..]);
    assert AllBytes(a) == ItemBytes(a[0]) + AllBytes(a[1..]);
  }

  /** A marshalled message: four zero bytes, a 2, from a client 48 bytes of
      pre-master, twice 32 random bytes, then options, user name, password and peer
      info. */
  lemma MessageLayout(km: KeyMethod2)
    requires Encodable(km)
    ensures var d, at := Encode(km), if km.isServer then 5 else 53;
      && |d| > at + 64
      && d[..5] == [0, 0, 0, 0, 2]
      && (!km.isServer ==> d[5..53] == km.preMaster)
      && d[at..at + 32] == km.random1
      && d[at + 32..at + 64] == km.random2
      && AllStandAt(d, at + 64, Items(km))
  {
    EncodedParts(km, []);
    assert Encode(km) + [] == Encode(km);
    FixedStands(km, StringBytes(km, []));
    ItemsAreStrings(km);
    AllStand(Preamble(km), Items(km));
  }

  /** Why the fixed part of a message is refused. */
  lemma FixedErrors(data: seq<byte>, isServer: bool)
    ensures TakeFixed(data, isServer).Ok? <==>
            |data| >= (if isServer then 69 else 117) && data[..5] == [0, 0, 0, 0, 2]
    ensures TakeFixed(data, isServer) == Err(BadPrefix) <==> |data| >= 5 && data[..4] != [0, 0, 0, 0]
    ensures TakeFixed(data, isServer) == Err(BadMethod) <==> |data| >= 5 && data[..4] == [0, 0, 0, 0] && data[4] != 2
  {
    if |data| >= 5 {
      assert data[..4] == [0, 0, 0, 0] <==> data[0] == data[1] == data[2] == data[3] == 0;
      assert data[..5] == data[..4] + [data[4]];
    }
  }

  /** A string is taken exactly where it stands, or where its absence is allowed. */
  lemma TakenWhereItStands(data: seq<byte>, p: Policy, s: seq<byte>, rest: seq<byte>)
    ensures TakeString(data, p) == Ok((s, rest)) <==>
            || (p.emptyAllowed && s == [] && StandsAt(data, 0, None) && rest == data[2..])
            || (|s| + 1 <= p.limit && StandsAt(data, 0, Some(s)) && rest == data[3 + |s|..])
  {
    if |data| >= 2 {
      BigEndian16(0, data[..2]);
      assert Two(data[..2], 0) == Two(data, 0);
    }
  }

  // --- what the two decoders accept ------------------------------------------

  /** The length fields of the next k strings, as far as the input goes. */
  function LengthFields(data: seq<byte>, k: nat): (r: seq<u16>)
    ensures |r| <= k
    decreases k
  {
    if k == 0 || |data| < 2 then []
    else
      var n := GetU16(data[..2]);
      [n] + if 2 + n <= |data| then LengthFields(data[2 + n..], k - 1) else []
  }

  /** The four length fields of a message. */
  function MessageLengths(data: seq<byte>, isServer: bool): seq<u16> {
    if |data| < PreambleLen(isServer) then [] else LengthFields(data[PreambleLen(isServer)..], 4)
  }

  predicate WithinLimit(lengths: seq<u16>) {
    forall i :: 0 <= i < |lengths| ==> lengths[i] <= 16384
  }

  /** When one policy takes a string, another takes it, too, exactly if its length
      field is within the limit and not a zero the policy refuses; and then both
      take the same. */
  lemma TakeUnder(data: seq<byte>, p: Policy, q: Policy)
    requires TakeString(data, p).Ok?
    ensures var n := GetU16(data[..2]);
      && TakeString(data, q).Ok? == (n <= q.limit && (n == 0 ==> q.emptyAllowed))
      && (TakeString(data, q).Ok? ==> TakeString(data, q) == TakeString(data, p))
      && 2 + n <= |data| && TakeString(data, p).value.1 == data[2 + n..]
  {
  }

  /** The same for k strings in a row under one policy each. */
  function TakeMany(data: seq<byte>, k: nat, p: Policy): Result<seq<byte>, KmError>
    decreases k
  {
    if k == 0 then Ok(data)
    else
      var s := TakeString(data, p);
      if s.Err? then Err(s.error) else TakeMany(s.value.1, k - 1, p)
  }

  lemma {:induction false} StreamTakesMany(data: seq<byte>, k: nat)
    requires TakeMany(data, k, BUFFER_OTHERS).Ok?
    ensures |LengthFields(data, k)| == k
    ensures TakeMany(data, k, STREAM).Ok? <==> WithinLimit(LengthFields(data, k))
    decreases k
  {
    if k > 0 {
      TakeUnder(data, BUFFER_OTHERS, STREAM);
      var n := GetU16(data[..2]);
      StreamTakesMany(data[2 + n..], k - 1);
      WithinLimitCons(n, LengthFields(data[2 + n..], k - 1));
    }
  }

  lemma WithinLimitCons(n: u16, rest: seq<u16>)
    ensures WithinLimit([n] + rest) <==> n <= 16384 && WithinLimit(rest)
  {
    var all := [n] + rest;
    assert all[0] == n && forall i :: 0 <= i < |rest| ==> all[i + 1] == rest[i];
  }

  lemma {:induction false} BufferTakesMany(data: seq<byte>, k: nat)
    requires TakeMany(data, k, STREAM).Ok?
    ensures TakeMany(data, k, BUFFER_OTHERS).Ok?
    decreases k
  {
    if k > 0 {
      TakeUnder(data, STREAM, BUFFER_OTHERS);
      BufferTakesMany(TakeString(data, STREAM).value.1, k - 1);
    }
  }

  lemma TakeStringsIsMany(data: seq<byte>, first: Policy, rest: Policy)
    ensures TakeStrings(data, first, rest).Ok? <==>
            TakeString(data, first).Ok? && TakeMany(TakeString(data, first).value.1, 3, rest).Ok?
  {
    var o := TakeString(data, first);
    if o.Ok? {
      var u := TakeString(o.value.1, rest);
      if u.Ok? {
        var w := TakeString(u.value.1, rest);
        if w.Ok? {
          assert TakeMany(w.value.1, 1, rest).Ok? == TakeString(w.value.1, rest).Ok?;
        }
        assert TakeMany(u.value.1, 2, rest).Ok? == (w.Ok? && TakeMany(w.value.1, 1, rest).Ok?);
      }
      assert TakeMany(o.value.1, 3, rest).Ok? == (u.Ok? && TakeMany(u.value.1, 2, rest).Ok?);
    }
  }

  /** Four strings the buffer parser takes are taken off the stream exactly when
      every length field is within the stream's limit. */
  lemma StreamTakesWhat(data: seq<byte>)
    requires TakeStrings(data, BUFFER_OPTIONS, BUFFER_OTHERS).Ok?
    ensures |LengthFields(data, 4)| == 4
    ensures TakeStrings(data, STREAM, STREAM).Ok? <==> WithinLimit(LengthFields(data, 4))
  {
    TakeStringsIsMany(data, BUFFER_OPTIONS, BUFFER_OTHERS);
    TakeStringsIsMany(data, STREAM, STREAM);
    TakeUnder(data, BUFFER_OPTIONS, STREAM);
    var n := GetU16(data[..2]);
    StreamTakesMany(data[2 + n..], 3);
    WithinLimitCons(n, LengthFields(data[2 + n..], 3));
  }

  /** Four strings taken off the stream are taken by the buffer parser exactly
      when the options are there. */
  lemma BufferTakesWhat(data: seq<byte>)
    requires TakeStrings(data, STREAM, STREAM).Ok?
    ensures |LengthFields(data, 4)| > 0
    ensures TakeStrings(data, BUFFER_OPTIONS, BUFFER_OTHERS).Ok? <==> LengthFields(data, 4)[0] != 0
  {
    TakeStringsIsMany(data, BUFFER_OPTIONS, BUFFER_OTHERS);
    TakeStringsIsMany(data, STREAM, STREAM);
    TakeUnder(data, STREAM, BUFFER_OPTIONS);
    BufferTakesMany(TakeString(data, STREAM).value.1, 3);
  }

  lemma BothTakeTheSame(data: seq<byte>)
    requires TakeStrings(data, BUFFER_OPTIONS, BUFFER_OTHERS).Ok? && TakeStrings(data, STREAM, STREAM).Ok?
    ensures TakeStrings(data, BUFFER_OPTIONS, BUFFER_OTHERS) == TakeStrings(data, STREAM, STREAM)
  {
    TakeUnder(data, BUFFER_OPTIONS, STREAM);
    var s1 := TakeString(data, STREAM).value.1;
    TakeUnder(s1, BUFFER_OTHERS, STREAM);
    var s2 := TakeString(s1, STREAM).value.1;
    TakeUnder(s2, BUFFER_OTHERS, STREAM);
    var s3 := TakeString(s2, STREAM).value.1;
    TakeUnder(s3, BUFFER_OTHERS, STREAM);
  }

  /** What one decoder accepts the other accepts exactly under a condition on the
      length fields: for the stream reader that all four are at most 16384, for
      the buffer parser that the first is not zero.  Where both accept, they read
      the same message and stop at the same place. */
  lemma DecodersAgree(data: seq<byte>, isServer: bool, auth: bool)
    ensures var buffered := Decode(data, isServer, auth, BUFFER_OPTIONS, BUFFER_OTHERS);
      var streamed := Decode(data, isServer, auth, STREAM, STREAM);
      var lengths := MessageLengths(data, isServer);
      && (buffered.Ok? ==> |lengths| == 4 && (streamed.Ok? <==> WithinLimit(lengths)))
      && (streamed.Ok? ==> |lengths| > 0 && (buffered.Ok? <==> lengths[0] != 0))
      && (buffered.Ok? && streamed.Ok? ==> buffered == streamed)
  {
    var f := TakeFixed(data, isServer);
    if f.Ok? {
      var tail := f.value.tail;
      assert tail == data[PreambleLen(isServer)..];
      if TakeStrings(tail, BUFFER_OPTIONS, BUFFER_OTHERS).Ok? {
        StreamTakesWhat(tail);
      }
      if TakeStrings(tail, STREAM, STREAM).Ok? {
        BufferTakesWhat(tail);
        if TakeStrings(tail, BUFFER_OPTIONS, BUFFER_OTHERS).Ok? {
          BothTakeTheSame(tail);
        }
      }
    }
  }

  /** A message with a string of 16384 bytes or more that can be marshalled is
      accepted by the buffer parser and refused by the stream reader. */
  lemma LongStringsOnlyInBuffer(km: KeyMethod2, tail: seq<byte>)
    requires Encodable(km) && !StringsFit(km, 16384)
    ensures var data := Encode(km) + tail;
      && Decode(data, km.isServer, km.authUserPass, BUFFER_OPTIONS, BUFFER_OTHERS) == Ok((Meaning(km), tail))
      && Decode(data, km.isServer, km.authUserPass, STREAM, STREAM) == Err(TooLong)
  {
    assert StringsFit(km, 0xFFFF);
    DecodeEncode(km, tail, BUFFER_OPTIONS, BUFFER_OTHERS);
    EncodedParts(km, tail);
    TakeFixedPreamble(km, StringBytes(km, tail));
    StreamRefusesLong(km, tail);
  }

  lemma StreamRefusesLong(km: KeyMethod2, tail: seq<byte>)
    requires Encodable(km) && !StringsFit(km, 16384)
    ensures TakeStrings(StringBytes(km, tail), STREAM, STREAM) == Err(TooLong)
  {
    var t3 := Prefixed(km.peerInfo) + tail;
    var t2 := Credential(km, km.password) + t3;
    var t1 := Credential(km, km.username) + t2;
    TakePrefixed(km.options, t1, STREAM);
    TakeCredentialUnder(km, km.username, t2, STREAM);
    TakeCredentialUnder(km, km.password, t3, STREAM);
    TakePrefixed(km.peerInfo, tail, STREAM);
  }

  lemma TakeCredentialUnder(km: KeyMethod2, s: seq<byte>, tail: seq<byte>, p: Policy)
    requires p.emptyAllowed && (km.authUserPass ==> |s| + 1 <= 0xFFFF)
    ensures TakeString(Credential(km, s) + tail, p) ==
            if !km.authUserPass then Ok(([], tail))
            else if |s| + 1 <= p.limit then Ok((s, tail)) else Err(TooLong)
  {
    if km.authUserPass {
      TakePrefixed(s, tail, p);
    } else {
      TakeEmpty(tail, p);
    }
  }

  /** A message without options is accepted by the stream reader and refused by
      the buffer parser. */
  lemma NoOptionsOnlyInStream(km: KeyMethod2, tail: seq<byte>)
    ensures var data := Preamble(km) + ([0, 0] + ([0, 0] + ([0, 0] + ([0, 0] + tail))));
      && Decode(data, km.isServer, false, STREAM, STREAM)
         == Ok((KeyMethod2(km.isServer, Meaning(km).preMaster, km.random1, km.random2, [], [], [], false, []), tail))
      && Decode(data, km.isServer, false, BUFFER_OPTIONS, BUFFER_OTHERS) == Err(ZeroLength)
  {
    var t3 := [0, 0] + tail;
    var t2 := [0, 0] + t3;
    var t1 := [0, 0] + t2;
    TakeFixedPreamble(km, [0, 0] + t1);
    TakeEmpty(t1, STREAM);
    TakeEmpty(t2, STREAM);
    TakeEmpty(t3, STREAM);
    TakeEmpty(tail, STREAM);
    assert ([0, 0] + t1)[..2] == [0, 0];
  }

  /** Inputs of both kinds exist. */
  lemma DecodersDiffer()
    ensures exists data :: Decode(data, true, false, BUFFER_OPTIONS, BUFFER_OTHERS).Ok?
                           && Decode(data, true, false, STREAM, STREAM).Err?
    ensures exists data :: Decode(data, true, false, BUFFER_OPTIONS, BUFFER_OTHERS).Err?
                           && Decode(data, true, false, STREAM, STREAM).Ok?
  {
    var blank: Random := Zeros(RANDOM_LEN);
    var long: seq<byte> := seq(MAX_CONTROL_MESSAGE_LEN, _ => 65);
    var km := KeyMethod2(true, NO_PRE_MASTER, blank, blank, long, [], [], false, []);
    LongStringsOnlyInBuffer(km, []);
    NoOptionsOnlyInStream(km, []);
  }

  // --- the buffer parser -------------------------------------------------

  method ReadLengthPrefixed(data: seq<byte>, off: nat, p: Policy)
    returns (r: Result<(seq<byte>, nat), KmError>)
    requires off <= |data| && p.limit == 0xFFFF
    ensures TakeString(data[off..], p).Err? ==> r == Err(TakeString(data[off..], p).error)
    ensures TakeString(data[off..], p).Ok? ==>
      r.Ok? && r.value.1 <= |data| && TakeString(data[off..], p).value == (r.value.0, data[r.value.1..])
  {
    if |data| < off + 2 {
      return Err(Short);
    }
    var n := GetU16(data[off..off + 2]);
    assert data[off..][..2] == data[off..off + 2];
    var at := off + 2;
    if n == 0 {
      if p.emptyAllowed {
        return Ok(([], at));
      }
      return Err(ZeroLength);
    }
    if |data| < at + n {
      return Err(Short);
    }
    if data[at + n - 1] != 0 {
      return Err(NoTerminator);
    }
    assert data[off..][2..2 + n - 1] == data[at..at + n - 1];
    assert data[off..][2 + n..] == data[at + n..];
    return Ok((data[at..at + n - 1], at + n));
  }

  method ParseKeyMethod2(data: seq<byte>, isServer: bool, auth: bool) returns (r: Result<KeyMethod2, KmError>)
    ensures var d := Decode(data, isServer, auth, BUFFER_OPTIONS, BUFFER_OTHERS);
      r == if d.Ok? then Ok(d.value.0) else Err(d.error)
  {
    if |data| < 5 {
      return Err(Short);
    }
    if data[0] != 0 || data[1] != 0 || data[2] != 0 || data[3] != 0 {
      return Err(BadPrefix);
    }
    var off := 4;
    if data[off] != 2 {
      return Err(BadMethod);
    }
    off := off + 1;
    var pre := NO_PRE_MASTER;
    if !isServer {
      if |data| < off + PRE_MASTER_LEN {
        return Err(Short);
      }
      pre := data[off..off + PRE_MASTER_LEN];
      off := off + PRE_MASTER_LEN;
    }
    if |data| < off + RANDOM_LEN * 2 {
      return Err(Short);
    }
    var random1: Random := data[off..off + RANDOM_LEN];
    off := off + RANDOM_LEN;
    var random2: Random := data[off..off + RANDOM_LEN];
    off := off + RANDOM_LEN;
    assert TakeFixed(data, isServer) == Ok(Fixed(pre, random1, random2, data[off..]));
    var o := ReadLengthPrefixed(data, off, BUFFER_OPTIONS);
    if o.Err? {
      return Err(o.error);
    }
    var u := ReadLengthPrefixed(data, o.value.1, BUFFER_OTHERS);
    if u.Err? {
      return Err(u.error);
    }
    var w := ReadLengthPrefixed(data, u.value.1, BUFFER_OTHERS);
    if w.Err? {
      return Err(w.error);
    }
    var i := ReadLengthPrefixed(data, w.value.1, BUFFER_OTHERS);
    if i.Err? {
      return Err(i.error);
    }
    return Ok(KeyMethod2(isServer, pre, random1, random2, o.value.0, u.value.0, w.value.0, auth, i.value.0));
  }

  // --- the stream reader ---------------------------------------------------

  /** A byte stream: what has not been read yet. */
  class Stream {
    var rest: seq<byte>

    constructor (data: seq<byte>)
      ensures rest == data
    {
      rest := data;
    }

    /** io.ReadFull: all n bytes, or failure with the stream drained. */
    method ReadFull(n: nat) returns (b: seq<byte>, ok: bool)
      modifies this
      ensures ok == (n <= |old(rest)|)
      ensures ok ==> b == old(rest)[..n] && rest == old(rest)[n..]
      ensures !ok ==> rest == []
    {
      ok := n <= |rest|;
      b := if ok then rest[..n] else rest;
      rest := if ok then rest[n..] else [];
    }
  }

  method ReadLengthString(s: Stream) returns (r: Result<seq<byte>, KmError>)
    modifies s
    ensures var t := TakeString(old(s.rest), STREAM);
      && (t.Ok? ==> r == Ok(t.value.0) && s.rest == t.value.1)
      && (t.Err? ==> r == Err(t.error))
  {
    var lenBuf, ok := s.ReadFull(2);
    if !ok {
      return Err(Short);
    }
    var n := GetU16(lenBuf);
    if n == 0 {
      return Ok([]);
    }
    if n > MAX_CONTROL_MESSAGE_LEN {
      return Err(TooLong);
    }
    var body: seq<byte>;
    body, ok := s.ReadFull(n);
    if !ok {
      return Err(Short);
    }
    if body[n - 1] != 0 {
      return Err(NoTerminator);
    }
    assert body[..n - 1] == old(s.rest)[2..2 + n - 1];
    assert s.rest == old(s.rest)[2 + n..];
    return Ok(body[..n - 1]);
  }

  lemma TakeAt(data: seq<byte>, at: nat, n: nat)
    requires at + n <= |data|
    ensures data[at..][..n] == data[at..at + n] && data[at..][n..] == data[at + n..]
  {
  }

  method ReadKeyMethod2(s: Stream, serverSide: bool, auth: bool) returns (r: Result<KeyMethod2, KmError>)
    modifies s
    ensures var d := Decode(old(s.rest), serverSide, auth, STREAM, STREAM);
      && (d.Ok? ==> r == Ok(d.value.0) && s.rest == d.value.1)
      && (d.Err? ==> r == Err(d.error))
  {
    ghost var data := s.rest;
    var prefix, ok := s.ReadFull(5);
    if !ok {
      return Err(Short);
    }
    if prefix[0] != 0 || prefix[1] != 0 || prefix[2] != 0 || prefix[3] != 0 {
      return Err(BadPrefix);
    }
    if prefix[4] != 2 {
      return Err(BadMethod);
    }
    var pre := NO_PRE_MASTER;
    if !serverSide {
      var p: seq<byte>;
      p, ok := s.ReadFull(PRE_MASTER_LEN);
      if !ok {
        return Err(Short);
      }
      TakeAt(data, 5, 48);
      assert p == data[5..53] && s.rest == data[53..];
      pre := p;
    }
    ghost var at := PreambleLen(serverSide) - 64;
    assert s.rest == data[at..];
    var random1: seq<byte>, random2: seq<byte>;
    random1, ok := s.ReadFull(RANDOM_LEN);
    if !ok {
      return Err(Short);
    }
    TakeAt(data, at, 32);
    assert random1 == data[at..at + 32] && s.rest == data[at + 32..];
    random2, ok := s.ReadFull(RANDOM_LEN);
    if !ok {
      return Err(Short);
    }
    TakeAt(data, at + 32, 32);
    assert random2 == data[at + 32..at + 64] && s.rest == data[at + 64..];
    assert TakeFixed(data, serverSide) == Ok(Fixed(pre, random1, random2, s.rest));
    var o := ReadLengthString(s);
    if o.Err? {
      return Err(o.error);
    }
    var u := ReadLengthString(s);
    if u.Err? {
      return Err(u.error);
    }
    var w := ReadLengthString(s);
    if w.Err? {
      return Err(w.error);
    }
    var i := ReadLengthString(s);
    if i.Err? {
      return Err(i.error);
    }
    return Ok(KeyMethod2(serverSide, pre, random1, random2, o.value, u.value, w.value, auth, i.value));
  }

  /** Marshal, then parse the buffer and read the stream: both give the message
      back, and the stream is left at the byte after it. */
  method KeyMethod2RoundTrip(km: KeyMethod2, tail: seq<byte>)
    returns (parsed: Result<KeyMethod2, KmError>, read: Result<KeyMethod2, KmError>, left: seq<byte>)
    requires Encodable(km) && StringsFit(km, 16384)
    ensures parsed == read == Ok(Meaning(km))
    ensures left == tail
  {
    var m := MarshalKeyMethod2(km);
    DecodeEncode(km, tail, BUFFER_OPTIONS, BUFFER_OTHERS);
    DecodeEncode(km, tail, STREAM, STREAM);
    parsed := ParseKeyMethod2(m.value + tail, km.isServer, km.authUserPass);
    var s := new Stream(m.value + tail);
    read := ReadKeyMethod2(s, km.isServer, km.authUserPass);
    left := s.rest;
  }
}
