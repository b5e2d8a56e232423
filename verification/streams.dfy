/** Readers and writers as the proxy sees them (Go's `io.Reader` and
    `io.Writer`), and the generic copy loop of `io.Copy`.

    A peer is modelled by a finite script. A reader's script lists what the
    source has to offer, in order: a run of bytes followed by the status of
    the read that delivers its last byte (nil, io.EOF or an error). A read
    never returns more than the caller's buffer holds; a longer run is
    handed out over several reads. Once its script is used up the reader
    reports io.EOF. A writer's script lists, call by call, how many bytes
    the destination takes and whether it fails; a count is never more than
    the bytes offered. Once its script is used up the writer takes
    everything. The bytes the destination has taken collect in `sink`. */
module Streams {
  import opened Common

  /** What a Read reports besides its bytes: Go's nil, io.EOF, or another error. */
  datatype ReadStatus = More | EndOfStream | ReadFailed(code: nat)

  datatype ReadStep = ReadStep(data: seq<byte>, status: ReadStatus)

  /** One Write call: how many of the offered bytes are taken, and the error. */
  datatype WriteStep = WriteStep(accepted: nat, failure: Option<nat>)

  /** A measure of what a reader still has to say; every read that consumes
      part of the script lowers it. */
  function Pending(rs: seq<ReadStep>): nat {
    if rs == [] then 0 else |rs[0].data| + 1 + Pending(rs[1..])
  }

  /** The bytes a reader delivers before its first read that ends with
      io.EOF or an error, including that read's bytes. */
  function Delivered(rs: seq<ReadStep>): seq<byte> {
    if rs == [] then []
    else rs[0].data + (if rs[0].status.More? then Delivered(rs[1..]) else [])
  }

  /** How the stream ends: None for io.EOF (or a used-up script), else the error. */
  function Ending(rs: seq<ReadStep>): Option<Error> {
    if rs == [] then None
    else match rs[0].status
      case More => Ending(rs[1..])
      case EndOfStream => None
      case ReadFailed(code) => Some(IoFailure(code))
  }

  datatype ReadOutcome = ReadOutcome(chunk: seq<byte>, status: ReadStatus, rest: seq<ReadStep>)

  /** One Read into a buffer of `capacity` bytes: at most that many bytes of
      the first run, with the run's status only when the run is used up. */
  function ReadInto(rs: seq<ReadStep>, capacity: nat): (o: ReadOutcome)
    requires capacity > 0
    ensures |o.chunk| <= capacity
    ensures rs == [] ==> o == ReadOutcome([], EndOfStream, [])
    ensures rs != [] ==> Pending(o.rest) < Pending(rs)
  {
    if rs == [] then ReadOutcome([], EndOfStream, [])
    else if |rs[0].data| <= capacity then ReadOutcome(rs[0].data, rs[0].status, rs[1..])
    else
      var tail := rs[0].data[capacity..];
      var rest := [ReadStep(tail, rs[0].status)] + rs[1..];
      assert rest[0] == ReadStep(tail, rs[0].status) && rest[1..] == rs[1..];
      assert Pending(rest) == |tail| + 1 + Pending(rs[1..]);
      ReadOutcome(rs[0].data[..capacity], More, rest)
  }

  /** Reads split the stream but never lose, duplicate or reorder its bytes,
      and never hide how it ends. */
  lemma ReadIntoKeepsStream(rs: seq<ReadStep>, capacity: nat)
    requires capacity > 0
    ensures var o := ReadInto(rs, capacity);
      Delivered(rs) == o.chunk + (if o.status.More? then Delivered(o.rest) else []) &&
      Ending(rs) == match o.status
                    case More => Ending(o.rest)
                    case EndOfStream => None
                    case ReadFailed(code) => Some(IoFailure(code))
  {
  }

  datatype WriteReport = WriteReport(count: nat, failure: Option<nat>, rest: seq<WriteStep>)

  /** One Write of `p`: the destination takes the first `count` bytes. */
  function WriteOnce(ws: seq<WriteStep>, p: seq<byte>): (w: WriteReport)
    ensures w.count <= |p|
    ensures ws == [] ==> w == WriteReport(|p|, None, [])
    ensures ws != [] ==> w.rest == ws[1..]
  {
    if ws == [] then WriteReport(|p|, None, [])
    else WriteReport(if ws[0].accepted < |p| then ws[0].accepted else |p|, ws[0].failure, ws[1..])
  }

  class Reader {
    var script: seq<ReadStep>

    constructor (script: seq<ReadStep>)
      ensures this.script == script
    {
      this.script := script;
    }

    /** io.Reader.Read: fills the front of `buffer` and says how many bytes. */
    method Read(buffer: array<byte>) returns (n: nat, status: ReadStatus)
      requires buffer.Length > 0
      modifies this, buffer
      ensures var o := ReadInto(old(script), buffer.Length);
        n == |o.chunk| && buffer[..n] == o.chunk && status == o.status && script == o.rest
    {
      var o := ReadInto(script, buffer.Length);
      n := |o.chunk|;
      forall i | 0 <= i < n {
        buffer[i] := o.chunk[i];
      }
      status := o.status;
      script := o.rest;
    }
  }

  class Writer {
    var script: seq<WriteStep>
    var sink: seq<byte>

    constructor (script: seq<WriteStep>)
      ensures this.script == script && sink == []
    {
      this.script := script;
      sink := [];
    }

    /** io.Writer.Write: the destination takes a prefix of `p`. */
    method Write(p: seq<byte>) returns (n: nat, failure: Option<nat>)
      modifies this
      ensures var w := WriteOnce(old(script), p);
        n == w.count && failure == w.failure && script == w.rest
      ensures sink == old(sink) + p[..n]
    {
      var w := WriteOnce(script, p);
      n, failure := w.count, w.failure;
      script := w.rest;
      sink := sink + p[..n];
    }
  }

  /** The buffer io.Copy allocates when neither side offers a shortcut. */
  const CopyBufferSize: nat := 32 * 1024

  /** What a copy did: the bytes the destination took, the error it
      returned, and what is left of both scripts. */
  datatype Transfer = Transfer(sent: seq<byte>, result: Option<Error>,
                               readsLeft: seq<ReadStep>, writesLeft: seq<WriteStep>)

  /** One round of a copy loop: the bytes taken, whether the loop stops there
      and with what error, and what is left of both scripts. */
  datatype Round = Round(sent: seq<byte>, stop: bool, result: Option<Error>,
                         readsLeft: seq<ReadStep>, writesLeft: seq<WriteStep>)

  /** One round of io.Copy: read once, write what was read once; stop on a
      write error, on a short write (io.ErrShortWrite), at io.EOF (no error)
      or on a read error. */
  function CopyRound(rs: seq<ReadStep>, ws: seq<WriteStep>): (r: Round)
    ensures !r.stop ==> rs != [] && Pending(r.readsLeft) < Pending(rs)
    ensures !r.stop ==> r.result == None
  {
    var o := ReadInto(rs, CopyBufferSize);
    var w := if |o.chunk| > 0 then WriteOnce(ws, o.chunk) else WriteReport(0, None, ws);
    var sent := o.chunk[..w.count];
    if w.failure.Some? then Round(sent, true, Some(IoFailure(w.failure.value)), o.rest, w.rest)
    else if w.count != |o.chunk| then Round(sent, true, Some(ShortWrite), o.rest, w.rest)
    else match o.status
      case EndOfStream => Round(sent, true, None, o.rest, w.rest)
      case ReadFailed(code) => Round(sent, true, Some(IoFailure(code)), o.rest, w.rest)
      case More => Round(sent, false, None, o.rest, w.rest)
  }

  /** io.Copy as a whole: rounds until one stops. What the destination takes
      is always a prefix of what the source delivers. */
  function CopySpec(rs: seq<ReadStep>, ws: seq<WriteStep>): (t: Transfer)
    ensures t.sent <= Delivered(rs)
    decreases Pending(rs)
  {
    var r := CopyRound(rs, ws);
    CopyRoundPrefix(rs, ws);
    if r.stop then Transfer(r.sent, r.result, r.readsLeft, r.writesLeft)
    else
      var t := CopySpec(r.readsLeft, r.writesLeft);
      Transfer(r.sent + t.sent, t.result, t.readsLeft, t.writesLeft)
  }

  /** One round sends a prefix of the stream; a round that does not stop
      sends the whole first read, and the stream goes on with what is left. */
  lemma CopyRoundPrefix(rs: seq<ReadStep>, ws: seq<WriteStep>)
    ensures var r := CopyRound(rs, ws);
      r.sent <= Delivered(rs) && (!r.stop ==> Delivered(rs) == r.sent + Delivered(r.readsLeft))
  {
  }

  /** The body of io.Copy's loop, on a buffer of CopyBufferSize bytes. */
  method CopyOnce(w: Writer, r: Reader, buffer: array<byte>) returns (stop: bool, err: Option<Error>)
    requires buffer.Length == CopyBufferSize
    modifies w, r, buffer
    ensures var round := CopyRound(old(r.script), old(w.script));
      stop == round.stop && err == round.result && w.sink == old(w.sink) + round.sent &&
      r.script == round.readsLeft && w.script == round.writesLeft
  {
    var nr, status := r.Read(buffer);
    var nw, failure := 0, None;
    if nr > 0 {
      nw, failure := w.Write(buffer[..nr]);
    }
    if failure.Some? {
      return true, Some(IoFailure(failure.value));
    }
    if nw != nr {
      return true, Some(ShortWrite);
    }
    match status {
      case EndOfStream => return true, None;
      case ReadFailed(code) => return true, Some(IoFailure(code));
      case More => return false, None;
    }
  }

  /** io.Copy(w, r) with its error; the byte count it also returns is not used
      by the proxy. */
  method Copy(w: Writer, r: Reader) returns (err: Option<Error>)
    modifies w, r
    ensures var t := CopySpec(old(r.script), old(w.script));
      w.sink == old(w.sink) + t.sent && err == t.result &&
      r.script == t.readsLeft && w.script == t.writesLeft
  {
    var buffer := new byte[CopyBufferSize];
    ghost var total := CopySpec(r.script, w.script);
    ghost var rest := total;
    while true
      invariant rest == CopySpec(r.script, w.script)
      invariant w.sink + rest.sent == old(w.sink) + total.sent
      invariant total.result == rest.result && total.readsLeft == rest.readsLeft && total.writesLeft == rest.writesLeft
      decreases Pending(r.script)
    {
      CopyStep(r.script, w.script);
      ghost var round := CopyRound(r.script, w.script);
      ghost var sink0 := w.sink;
      var stop;
      stop, err := CopyOnce(w, r, buffer);
      if stop {
        return;
      }
      ghost var next := CopySpec(r.script, w.script);
      assert rest.sent == round.sent + next.sent;
      Regroup(sink0, round.sent, next.sent);
      rest := next;
    }
  }

  lemma Regroup(a: seq<byte>, b: seq<byte>, c: seq<byte>)
    ensures a + (b + c) == (a + b) + c
  {
  }

  /** One round of io.Copy and what follows it. */
  lemma CopyStep(rs: seq<ReadStep>, ws: seq<WriteStep>)
    ensures var r := CopyRound(rs, ws); var t := CopySpec(rs, ws);
      if r.stop then t == Transfer(r.sent, r.result, r.readsLeft, r.writesLeft)
      else
        var next := CopySpec(r.readsLeft, r.writesLeft);
        t.sent == r.sent + next.sent && t.result == next.result &&
        t.readsLeft == next.readsLeft && t.writesLeft == next.writesLeft
  {
  }

  /** When the destination takes every byte, io.Copy delivers the whole stream,
      in order, and ends as the stream ends. */
  lemma {:induction false} CopyToAcceptingWriter(rs: seq<ReadStep>)
    ensures CopySpec(rs, []).sent == Delivered(rs)
    ensures CopySpec(rs, []).result == Ending(rs)
    decreases Pending(rs)
  {
    var o := ReadInto(rs, CopyBufferSize);
    ReadIntoKeepsStream(rs, CopyBufferSize);
    var r := CopyRound(rs, []);
    assert r.sent == o.chunk && r.writesLeft == [];
    if o.status.More? {
      CopyToAcceptingWriter(o.rest);
    }
  }

  /** A copy that returns no error has delivered the whole stream, which ended
      with io.EOF. */
  lemma {:induction false} CopySuccessIsComplete(rs: seq<ReadStep>, ws: seq<WriteStep>)
    requires CopySpec(rs, ws).result == None
    ensures CopySpec(rs, ws).sent == Delivered(rs) && Ending(rs) == None
    decreases Pending(rs)
  {
    var o := ReadInto(rs, CopyBufferSize);
    ReadIntoKeepsStream(rs, CopyBufferSize);
    var r := CopyRound(rs, ws);
    assert r.sent == o.chunk;
    if !r.stop {
      CopySuccessIsComplete(r.readsLeft, r.writesLeft);
    }
  }
}
