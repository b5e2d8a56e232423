/** The accounting handler: it takes a user's credentials from the
    Proxy-Authorization value, admits upstream traffic only while the user's
    downstream byte counter is below its quota, and counts every downstream
    byte the client's side takes. */
module Accounting {
  import opened Common
  import opened Strs
  import Base64
  import opened Streams
  import opened Config
  import opened Proxy

  datatype Credentials = Credentials(username: string, password: string)

  const BasicScheme: string := "Basic "

  /** Go's string(bytes): one character per byte. */
  function BytesToString(b: seq<byte>): (s: string)
    ensures |s| == |b| && forall i :: 0 <= i < |b| ==> s[i] as int == b[i] as int
  {
    seq(|b|, i requires 0 <= i < |b| => b[i] as int as char)
  }

  /** A string whose characters all stand for single bytes. */
  predicate IsByteString(s: string) {
    forall i :: 0 <= i < |s| ==> s[i] as int < 0x100
  }

  /** Go's []byte(s) for a string of bytes; BytesToString undoes it. */
  function StringToBytes(s: string): (b: seq<byte>)
    requires IsByteString(s)
    ensures BytesToString(b) == s
  {
    seq(|s|, i requires 0 <= i < |s| => s[i] as int as byte)
  }

  /** userPassFromBearer: the text after the first "Basic " is decoded as
      base64 and cut at its first `:`. Without the scheme the answer is
      Unauthorized; text that does not decode is CorruptBase64; decoded text
      with a `:` is split there into username and password, and decoded text
      without one is Unauthorized. */
  function UserPassFromBearer(bearer: string): (r: Result<Credentials>)
    ensures !Contains(bearer, BasicScheme) ==> r == Err(Unauthorized)
    ensures r == Err(CorruptBase64) <==>
      Contains(bearer, BasicScheme) && Base64.Decode(Cut(bearer, BasicScheme).after).None?
    ensures var decoded := Base64.Decode(Cut(bearer, BasicScheme).after);
      r.Ok? <==> Contains(bearer, BasicScheme) && decoded.Some? && ':' in BytesToString(decoded.value)
    ensures var decoded := Base64.Decode(Cut(bearer, BasicScheme).after);
      r.Ok? ==> (decoded.Some? &&
                 BytesToString(decoded.value) == r.value.username + ":" + r.value.password)
    ensures r.Ok? ==> ':' !in r.value.username
    ensures r.Err? ==> r.error == Unauthorized || r.error == CorruptBase64
  {
    var scheme := Cut(bearer, BasicScheme);
    if !scheme.found then Err(Unauthorized)
    else
      match Base64.Decode(scheme.after)
      case None => Err(CorruptBase64)
      case Some(decoded) =>
        var text := BytesToString(decoded);
        var pair := Cut(text, ":");
        CutSingleBefore(text, ':');
        if !pair.found then Err(Unauthorized)
        else Ok(Credentials(pair.before, pair.after))
  }

  /** Anything before the first "Basic " is ignored. */
  lemma BearerIgnoresLeadingText(junk: string, encoded: string)
    requires !Contains(junk + "Basic", BasicScheme)
    ensures UserPassFromBearer(junk + BasicScheme + encoded) == UserPassFromBearer(BasicScheme + encoded)
  {
    var s := junk + BasicScheme + encoded;
    assert OccursAt(s, BasicScheme, |junk|);
    forall j: nat | j < |junk| ensures !OccursAt(s, BasicScheme, j) {
      assert !OccursAt(junk + "Basic", BasicScheme, j);
    }
    assert Index(s, BasicScheme) == Some(|junk|);
    assert s[|junk| + 6..] == encoded;
    SchemeAtStart(encoded);
    SameCut(s, BasicScheme + encoded);
  }

  /** The text after a leading "Basic " is what gets decoded. */
  lemma SchemeAtStart(encoded: string)
    ensures Cut(BasicScheme + encoded, BasicScheme) == CutResult("", encoded, true)
  {
  }

  /** Two values whose first "Basic " is followed by the same text give the
      same answer. */
  lemma SameCut(a: string, b: string)
    requires Cut(a, BasicScheme).found && Cut(b, BasicScheme).found
    requires Cut(a, BasicScheme).after == Cut(b, BasicScheme).after
    ensures UserPassFromBearer(a) == UserPassFromBearer(b)
  {
  }

  /** The credentials a client sends come back out: `Basic ` followed by the
      base64 encoding of `username:password` yields that pair whenever the
      username holds no `:` (the password may). */
  lemma BearerRoundTrip(username: string, password: string)
    requires ':' !in username
    requires IsByteString(username + ":" + password)
    ensures UserPassFromBearer(BasicScheme + Base64.Encode(StringToBytes(username + ":" + password)))
         == Ok(Credentials(username, password))
  {
    var text := username + ":" + password;
    var encoded := Base64.Encode(StringToBytes(text));
    SchemeAtStart(encoded);
    Base64.DecodeEncode(StringToBytes(text));
    assert text == username + [':'] + password;
    CutAtFirst(username, ':', password);
  }

  /** Decoded text without a `:` is refused as unauthorised. */
  lemma BearerWithoutColon(text: string)
    requires ':' !in text && IsByteString(text)
    ensures UserPassFromBearer(BasicScheme + Base64.Encode(StringToBytes(text))) == Err(Unauthorized)
  {
    var encoded := Base64.Encode(StringToBytes(text));
    SchemeAtStart(encoded);
    Base64.DecodeEncode(StringToBytes(text));
    CutSingleBefore(text, ':');
  }

  /** A value that is not base64 after "Basic " yields the decoder's error,
      not Unauthorized: any character outside the alphabet, other than
      padding, CR or LF, wherever it stands... */
  lemma BearerCorruptCharacter(encoded: string, i: nat)
    requires i < |encoded| && !Base64.IsAlphabetChar(encoded[i])
    requires encoded[i] != Base64.Pad && !Base64.IsNewline(encoded[i])
    ensures UserPassFromBearer(BasicScheme + encoded) == Err(CorruptBase64)
  {
    SchemeAtStart(encoded);
    Base64.DecodeRejectsForeign(encoded, i);
  }

  /** ...and any value that, once CR and LF are skipped, stops inside a
      quantum. */
  lemma BearerCorruptLength(encoded: string)
    requires |Base64.StripNewlines(encoded)| % 4 != 0
    ensures UserPassFromBearer(BasicScheme + encoded) == Err(CorruptBase64)
  {
  }

  predicate Matches(user: UserConfig, username: string, password: string) {
    user.username == username && user.password == password
  }

  /** FirstMatch among the users from position `from` on. */
  function FirstMatchFrom(users: seq<UserConfig>, username: string, password: string, from: nat): (r: (nat, bool))
    requires from <= |users|
    ensures r.1 ==> from <= r.0 < |users| && Matches(users[r.0], username, password)
    ensures r.1 ==> forall j :: from <= j < r.0 ==> !Matches(users[j], username, password)
    ensures !r.1 ==> r.0 == 0 && forall j :: from <= j < |users| ==> !Matches(users[j], username, password)
    decreases |users| - from
  {
    if from == |users| then (0, false)
    else if Matches(users[from], username, password) then (from, true)
    else FirstMatchFrom(users, username, password, from + 1)
  }

  /** authenticate: the first user whose name and password both match
      exactly, as (index, true); (0, false) when there is none. */
  function FirstMatch(users: seq<UserConfig>, username: string, password: string): (r: (nat, bool))
    ensures r.1 ==> r.0 < |users| && Matches(users[r.0], username, password)
    ensures r.1 ==> forall j :: 0 <= j < r.0 ==> !Matches(users[j], username, password)
    ensures !r.1 <==> forall j :: 0 <= j < |users| ==> !Matches(users[j], username, password)
    ensures !r.1 ==> r.0 == 0
  {
    FirstMatchFrom(users, username, password, 0)
  }

  /** Every configured user is recognised, at its own index when no earlier
      user has the same name. */
  lemma AuthenticateConfigured(users: seq<UserConfig>, i: nat)
    requires i < |users|
    requires forall j :: 0 <= j < i ==> users[j].username != users[i].username
    ensures FirstMatch(users, users[i].username, users[i].password) == (i, true)
  {
  }

  /** The user a Proxy-Authorization value identifies, or why there is none. */
  function Identify(users: seq<UserConfig>, bearer: string): (r: Result<nat>)
    ensures r.Ok? ==> r.value < |users|
    ensures r.Ok? ==> (UserPassFromBearer(bearer).Ok? &&
      FirstMatch(users, UserPassFromBearer(bearer).value.username,
                          UserPassFromBearer(bearer).value.password) == (r.value, true))
    ensures var c := UserPassFromBearer(bearer);
      c.Ok? && FirstMatch(users, c.value.username, c.value.password).1 ==>
        r == Ok(FirstMatch(users, c.value.username, c.value.password).0)
    ensures UserPassFromBearer(bearer).Err? ==> r == Err(UserPassFromBearer(bearer).error)
    ensures UserPassFromBearer(bearer).Ok? && r.Err? ==> r.error == Unauthorized
  {
    match UserPassFromBearer(bearer)
    case Err(e) => Err(e)
    case Ok(c) =>
      var (idx, ok) := FirstMatch(users, c.username, c.password);
      if ok then Ok(idx) else Err(Unauthorized)
  }

  const TwoTo63: int := 0x8000_0000_0000_0000
  const TwoTo64: int := 0x1_0000_0000_0000_0000

  /** Go's int64(q) for a uint: the int64 congruent to q modulo 2^64, so
      values of 2^63 and above turn negative. */
  function Int64OfUint(q: uint64): (r: int)
    ensures -TwoTo63 <= r < TwoTo63
    ensures (q as int - r) % TwoTo64 == 0
  {
    if q as int < TwoTo63 then q as int else q as int - TwoTo64
  }

  /** The quota test of SendUpstream, counter >= int64(quotaBytes). On a
      non-negative counter: below 2^63 it is counter >= quota; from 2^63 on
      the quota wraps to a negative number and every counter is over it. */
  function OverQuota(counter: int, quota: uint64): (over: bool)
    ensures counter >= 0 && quota as int < TwoTo63 ==> (over <==> counter >= quota as int)
    ensures counter >= 0 && quota as int >= TwoTo63 ==> over
  {
    counter >= Int64OfUint(quota)
  }

  /** The three-way gate of SendUpstream: bad credentials, unknown user, or
      over quota refuse; otherwise the user is admitted. */
  function UpstreamGate(users: seq<UserConfig>, counters: seq<int>, bearer: string): (r: Result<nat>)
    requires |counters| == |users|
    ensures r.Ok? ==> Identify(users, bearer) == r && !OverQuota(counters[r.value], users[r.value].quotaBytes)
    ensures var id := Identify(users, bearer);
      id.Ok? && !OverQuota(counters[id.value], users[id.value].quotaBytes) ==> r == id
    ensures Identify(users, bearer).Err? ==> r == Identify(users, bearer)
    ensures r == Err(UserExceedingQuota) <==>
      Identify(users, bearer).Ok? &&
      OverQuota(counters[Identify(users, bearer).value], users[Identify(users, bearer).value].quotaBytes)
  {
    match Identify(users, bearer)
    case Err(e) => Err(e)
    case Ok(idx) =>
      if OverQuota(counters[idx], users[idx].quotaBytes) then Err(UserExceedingQuota) else Ok(idx)
  }

  /** The buffer copyAndAccount reads into. */
  const BufferSize: nat := 5 * 1024

  /** What the inner write loop did: the bytes the destination took, the sum
      of the counts the writes reported, the error that stopped it, if any,
      and what is left of the writer's script. */
  datatype Written = Written(sent: seq<byte>, counted: nat, failure: Option<nat>, writesLeft: seq<WriteStep>)

  /** The inner loop of copyAndAccount: while the reported counts add up to
      less than the chunk, the whole chunk is written again from its first
      byte; a write error ends it at once, its count still included. */
  function WriteAll(chunk: seq<byte>, written: nat, ws: seq<WriteStep>): (r: Written)
    ensures r.counted == |r.sent|
    decreases |ws|, if written < |chunk| then 1 else 0
  {
    if written >= |chunk| then Written([], 0, None, ws)
    else
      var w := WriteOnce(ws, chunk);
      if w.failure.Some? then Written(chunk[..w.count], w.count, w.failure, w.rest)
      else
        var r := WriteAll(chunk, written + w.count, w.rest);
        Written(chunk[..w.count] + r.sent, w.count + r.counted, r.failure, r.writesLeft)
  }

  /** One round of copyAndAccount's outer loop. */
  datatype MeteredRound = MeteredRound(sent: seq<byte>, counted: nat, stop: bool, result: Option<Error>,
                                       readsLeft: seq<ReadStep>, writesLeft: seq<WriteStep>)

  /** Read once into the buffer; write what was read; stop on a write error,
      at io.EOF (no error) or on a read error, each after the read's bytes
      have been written. */
  function MeteredRoundOf(rs: seq<ReadStep>, ws: seq<WriteStep>): (m: MeteredRound)
    ensures m.counted == |m.sent|
    ensures !m.stop ==> rs != [] && Pending(m.readsLeft) < Pending(rs) && m.result == None
  {
    var o := ReadInto(rs, BufferSize);
    var w := if |o.chunk| > 0 then WriteAll(o.chunk, 0, ws) else Written([], 0, None, ws);
    if w.failure.Some? then MeteredRound(w.sent, w.counted, true, Some(IoFailure(w.failure.value)), o.rest, w.writesLeft)
    else match o.status
      case EndOfStream => MeteredRound(w.sent, w.counted, true, None, o.rest, w.writesLeft)
      case ReadFailed(code) => MeteredRound(w.sent, w.counted, true, Some(IoFailure(code)), o.rest, w.writesLeft)
      case More => MeteredRound(w.sent, w.counted, false, None, o.rest, w.writesLeft)
  }

  datatype Metered = Metered(sent: seq<byte>, counted: nat, result: Option<Error>,
                             readsLeft: seq<ReadStep>, writesLeft: seq<WriteStep>)

  /** copyAndAccount as a whole: rounds until one stops. The counter rises by
      exactly the number of bytes the destination took. */
  function CopyAndAccountSpec(rs: seq<ReadStep>, ws: seq<WriteStep>): (t: Metered)
    ensures t.counted == |t.sent|
    decreases Pending(rs)
  {
    var m := MeteredRoundOf(rs, ws);
    if m.stop then Metered(m.sent, m.counted, m.result, m.readsLeft, m.writesLeft)
    else
      var t := CopyAndAccountSpec(m.readsLeft, m.writesLeft);
      Metered(m.sent + t.sent, m.counted + t.counted, t.result, t.readsLeft, t.writesLeft)
  }

  /** When the destination takes whole chunks, copyAndAccount delivers the
      stream in order and counts each byte once; it ends as the stream ends. */
  lemma {:induction false} CopyAndAccountToAcceptingWriter(rs: seq<ReadStep>)
    ensures CopyAndAccountSpec(rs, []).sent == Delivered(rs)
    ensures CopyAndAccountSpec(rs, []).counted == |Delivered(rs)|
    ensures CopyAndAccountSpec(rs, []).result == Ending(rs)
    decreases Pending(rs)
  {
    var o := ReadInto(rs, BufferSize);
    ReadIntoKeepsStream(rs, BufferSize);
    var m := MeteredRoundOf(rs, []);
    if |o.chunk| > 0 {
      var w := WriteAll(o.chunk, 0, []);
      assert o.chunk[..|o.chunk|] == o.chunk;
      assert WriteAll(o.chunk, |o.chunk|, []) == Written([], 0, None, []);
      assert w.sent == o.chunk;
    }
    assert m.sent == o.chunk && m.writesLeft == [];
    if !m.stop {
      CopyAndAccountToAcceptingWriter(o.rest);
    }
  }

  /** A short write without an error makes the next write start again from
      the chunk's first byte: when a stream's one chunk meets a write that
      takes k < |chunk| bytes and then one that takes them all, the
      destination holds the first k bytes followed by the whole chunk, and
      k + |chunk| bytes are counted. */
  lemma ShortWriteResendsFromStart(chunk: seq<byte>, k: nat, j: nat, ws: seq<WriteStep>)
    requires 0 < |chunk| <= BufferSize && k < |chunk| <= j
    ensures var t := CopyAndAccountSpec([ReadStep(chunk, EndOfStream)],
                                        [WriteStep(k, None), WriteStep(j, None)] + ws);
      t == Metered(chunk[..k] + chunk, k + |chunk|, None, [], ws)
  {
    var rs := [ReadStep(chunk, EndOfStream)];
    var script := [WriteStep(k, None), WriteStep(j, None)] + ws;
    assert ReadInto(rs, BufferSize) == ReadOutcome(chunk, EndOfStream, []);
    assert script[1..] == [WriteStep(j, None)] + ws && script[1..][1..] == ws;
    assert WriteOnce(script, chunk) == WriteReport(k, None, script[1..]);
    assert WriteOnce(script[1..], chunk) == WriteReport(|chunk|, None, ws);
    assert WriteAll(chunk, k + |chunk|, ws) == Written([], 0, None, ws);
    assert chunk[..|chunk|] + [] == chunk;
    assert WriteAll(chunk, k, script[1..]) == Written(chunk, |chunk|, None, ws);
  }

  /** A write error ends copyAndAccount at once, and the bytes that write
      reported are still counted: whatever the stream, if its first read gives
      bytes and the first write takes k of them and fails, the destination
      holds the first min(k, read) bytes, the counter rises by as many, the
      error is returned and the rest of the stream is not read. */
  lemma FailedWriteCountsPartial(rs: seq<ReadStep>, k: nat, code: nat, ws: seq<WriteStep>)
    requires |ReadInto(rs, BufferSize).chunk| > 0
    ensures var o := ReadInto(rs, BufferSize);
      var n := if k < |o.chunk| then k else |o.chunk|;
      CopyAndAccountSpec(rs, [WriteStep(k, Some(code))] + ws)
        == Metered(o.chunk[..n], n, Some(IoFailure(code)), o.rest, ws)
  {
  }

  /** The inner loop of copyAndAccount: writes `chunk` (the first bytesRead
      bytes of the buffer), always from its first byte, until the counts the
      writes report add up to |chunk|, adding each count to counters[idx];
      a write error ends it. */
  method WriteChunk(w: Writer, chunk: seq<byte>, counters: array<int>, idx: nat) returns (failure: Option<nat>)
    requires idx < counters.Length
    modifies w, counters
    ensures var a := WriteAll(chunk, 0, old(w.script));
      failure == a.failure && w.sink == old(w.sink) + a.sent && w.script == a.writesLeft &&
      counters[idx] == old(counters[idx]) + a.counted
    ensures forall j :: 0 <= j < counters.Length && j != idx ==> counters[j] == old(counters[j])
  {
    ghost var total := WriteAll(chunk, 0, w.script);
    ghost var rest := total;
    var bytesWritten: nat := 0;
    while bytesWritten < |chunk|
      invariant rest == WriteAll(chunk, bytesWritten, w.script)
      invariant w.sink + rest.sent == old(w.sink) + total.sent
      invariant counters[idx] + rest.counted == old(counters[idx]) + total.counted
      invariant forall j :: 0 <= j < counters.Length && j != idx ==> counters[j] == old(counters[j])
      invariant total.failure == rest.failure && total.writesLeft == rest.writesLeft
      decreases |w.script|, if bytesWritten < |chunk| then 1 else 0
    {
      WriteAllStep(chunk, bytesWritten, w.script);
      ghost var sink0 := w.sink;
      ghost var written0 := bytesWritten;
      var bytesAdded, writeErr := w.Write(chunk);
      if bytesAdded > 0 {
        bytesWritten := bytesWritten + bytesAdded;
        counters[idx] := counters[idx] + bytesAdded;
      }
      if writeErr.Some? {
        return writeErr;
      }
      ghost var next := WriteAll(chunk, bytesWritten, w.script);
      assert bytesWritten == written0 + bytesAdded;
      assert rest.sent == chunk[..bytesAdded] + next.sent;
      Regroup(sink0, chunk[..bytesAdded], next.sent);
      rest := next;
    }
    assert rest.sent == [];
    failure := None;
  }

  /** One write of the inner loop and what follows it. */
  lemma WriteAllStep(chunk: seq<byte>, written: nat, ws: seq<WriteStep>)
    requires written < |chunk|
    ensures var o := WriteOnce(ws, chunk); var r := WriteAll(chunk, written, ws);
      if o.failure.Some? then r == Written(chunk[..o.count], o.count, o.failure, o.rest)
      else
        var next := WriteAll(chunk, written + o.count, o.rest);
        r.sent == chunk[..o.count] + next.sent && r.failure == next.failure && r.writesLeft == next.writesLeft
  {
  }

  /** One pass of copyAndAccount's outer loop: read once into the buffer,
      write what was read with WriteChunk, and say whether the loop ends. */
  method MeteredOnce(w: Writer, r: Reader, buffer: array<byte>, counters: array<int>, idx: nat)
    returns (stop: bool, err: Option<Error>)
    requires buffer.Length == BufferSize && idx < counters.Length
    modifies w, r, buffer, counters
    ensures var m := MeteredRoundOf(old(r.script), old(w.script));
      stop == m.stop && err == m.result && w.sink == old(w.sink) + m.sent &&
      r.script == m.readsLeft && w.script == m.writesLeft &&
      counters[idx] == old(counters[idx]) + m.counted
    ensures forall j :: 0 <= j < counters.Length && j != idx ==> counters[j] == old(counters[j])
  {
    var bytesRead, readStatus := r.Read(buffer);
    var writeErr := None;
    if bytesRead > 0 {
      writeErr := WriteChunk(w, buffer[..bytesRead], counters, idx);
    }
    if writeErr.Some? {
      return true, Some(IoFailure(writeErr.value));
    }
    match readStatus {
      case EndOfStream => return true, None;
      case ReadFailed(code) => return true, Some(IoFailure(code));
      case More => return false, None;
    }
  }

  /** copyAndAccount: passes of MeteredOnce until one ends the loop; the
      counter grows by every count a write reports, and by nothing else. */
  method CopyAndAccount(w: Writer, r: Reader, counters: array<int>, idx: nat) returns (err: Option<Error>)
    requires idx < counters.Length
    modifies w, r, counters
    ensures var t := CopyAndAccountSpec(old(r.script), old(w.script));
      err == t.result && w.sink == old(w.sink) + t.sent &&
      r.script == t.readsLeft && w.script == t.writesLeft &&
      counters[idx] == old(counters[idx]) + t.counted
    ensures forall j :: 0 <= j < counters.Length && j != idx ==> counters[j] == old(counters[j])
  {
    var buffer := new byte[BufferSize];
    ghost var total := CopyAndAccountSpec(r.script, w.script);
    ghost var rest := total;
    while true
      invariant rest == CopyAndAccountSpec(r.script, w.script)
      invariant w.sink + rest.sent == old(w.sink) + total.sent
      invariant counters[idx] + rest.counted == old(counters[idx]) + total.counted
      invariant forall j :: 0 <= j < counters.Length && j != idx ==> counters[j] == old(counters[j])
      invariant total.result == rest.result && total.readsLeft == rest.readsLeft && total.writesLeft == rest.writesLeft
      decreases Pending(r.script)
    {
      MeteredStep(r.script, w.script);
      ghost var round := MeteredRoundOf(r.script, w.script);
      ghost var sink0 := w.sink;
      var stop;
      stop, err := MeteredOnce(w, r, buffer, counters, idx);
      if stop {
        return;
      }
      ghost var next := CopyAndAccountSpec(r.script, w.script);
      assert rest.sent == round.sent + next.sent;
      Regroup(sink0, round.sent, next.sent);
      rest := next;
    }
  }

  /** One pass of the outer loop and what follows it. */
  lemma MeteredStep(rs: seq<ReadStep>, ws: seq<WriteStep>)
    ensures var m := MeteredRoundOf(rs, ws); var t := CopyAndAccountSpec(rs, ws);
      if m.stop then t == Metered(m.sent, m.counted, m.result, m.readsLeft, m.writesLeft)
      else
        var next := CopyAndAccountSpec(m.readsLeft, m.writesLeft);
        t.sent == m.sent + next.sent && t.counted == m.counted + next.counted &&
        t.result == next.result && t.readsLeft == next.readsLeft && t.writesLeft == next.writesLeft
  {
  }

  /** The handler that authenticates and meters. Its users are fixed at
      construction; downstreamBytes holds one counter per user, by position. */
  class AccountingHandler {
    const simple: SimpleHandler
    const users: seq<UserConfig>
    const downstreamBytes: array<int>

    /** One counter per user, none negative. */
    ghost predicate Valid()
      reads downstreamBytes
    {
      downstreamBytes.Length == |users| &&
      forall i :: 0 <= i < downstreamBytes.Length ==> downstreamBytes[i] >= 0
    }

    /** NewAccountingHandler: one counter per configured user, all at zero. */
    constructor (users: seq<UserConfig>)
      ensures Valid() && this.users == users && fresh(downstreamBytes)
      ensures downstreamBytes[..] == seq(|users|, _ => 0)
    {
      this.simple := new SimpleHandler();
      this.users := users;
      this.downstreamBytes := new int[|users|](_ => 0);
    }

    /** authenticate: scans the users in order and stops at the first whose
      name and password both match. */
    method Authenticate(username: string, password: string) returns (idx: nat, ok: bool)
      ensures (idx, ok) == FirstMatch(users, username, password)
    {
      idx := 0;
      while idx < |users|
        invariant idx <= |users|
        invariant FirstMatchFrom(users, username, password, idx) == FirstMatch(users, username, password)
      {
        if Matches(users[idx], username, password) {
          return idx, true;
        }
        idx := idx + 1;
      }
      return 0, false;
    }

    /** SendUpstream: refuses with the parsing error, Unauthorized or
      UserExceedingQuota, touching neither side; an admitted user's bytes are
      relayed as the pass-through handler relays them. No counter changes. */
    method SendUpstream(ctx: ConnContext, w: Writer, r: Reader) returns (err: Option<Error>)
      requires Valid()
      modifies w, r
      ensures Valid() && downstreamBytes[..] == old(downstreamBytes[..])
      ensures match UpstreamGate(users, downstreamBytes[..], ctx.proxyAuthorization)
        case Err(e) =>
          err == Some(e) && w.sink == old(w.sink) && w.script == old(w.script) && r.script == old(r.script)
        case Ok(_) =>
          var t := CopySpec(old(r.script), old(w.script));
          err == t.result && w.sink == old(w.sink) + t.sent &&
          r.script == t.readsLeft && w.script == t.writesLeft
    {
      var creds := UserPassFromBearer(ctx.proxyAuthorization);
      if creds.Err? {
        return Some(creds.error);
      }
      var userIdx, ok := Authenticate(creds.value.username, creds.value.password);
      if ok {
        if OverQuota(downstreamBytes[userIdx], users[userIdx].quotaBytes) {
          return Some(UserExceedingQuota);
        }
        err := simple.SendUpstream(ctx, w, r);
        return;
      }
      return Some(Unauthorized);
    }

    /** SendDownstream: refuses with the parsing error or Unauthorized,
      touching neither side nor any counter; for a known user it runs
      CopyAndAccount on that user's counter and leaves every other counter
      as it was. */
    method SendDownstream(ctx: ConnContext, w: Writer, r: Reader) returns (err: Option<Error>)
      requires Valid()
      modifies w, r, downstreamBytes
      ensures Valid()
      ensures match Identify(users, ctx.proxyAuthorization)
        case Err(e) =>
          err == Some(e) && w.sink == old(w.sink) && w.script == old(w.script) &&
          r.script == old(r.script) && downstreamBytes[..] == old(downstreamBytes[..])
        case Ok(i) =>
          var t := CopyAndAccountSpec(old(r.script), old(w.script));
          err == t.result && w.sink == old(w.sink) + t.sent &&
          r.script == t.readsLeft && w.script == t.writesLeft &&
          downstreamBytes[i] == old(downstreamBytes[i]) + |t.sent| &&
          forall j :: 0 <= j < |users| && j != i ==> downstreamBytes[j] == old(downstreamBytes[j])
    {
      var creds := UserPassFromBearer(ctx.proxyAuthorization);
      if creds.Err? {
        return Some(creds.error);
      }
      var userIdx, ok := Authenticate(creds.value.username, creds.value.password);
      if ok {
        err := CopyAndAccount(w, r, downstreamBytes, userIdx);
        return;
      }
      return Some(Unauthorized);
    }
  }
}
