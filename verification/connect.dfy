/** Line framing on the read half of a connection (src/lib/connect.rs).
    The socket is the list of results its successive `read` calls return. */
module Connect {
  import opened Base
  import opened Utf8

  /** Size of the receive buffer. */
  const Capacity: nat := 512

  /** `ConnectionError`. */
  datatype ConnectionError = ConnectionLost | ConnectionClosed | MessageTooLong | MessageInvalidUtf8

  /** What one `read` call on the socket returns: some bytes (`Ok(n)`; no bytes
      is `Ok(0)`, end of stream), an interruption, or any other I/O error. When
      the list is used up, the socket reports end of stream. A `read` into a
      slice of `k` bytes takes at most `k` of the offered bytes; the rest stay in
      the socket for the next call. */
  datatype ReadOutcome = Bytes(data: seq<Byte>) | Interrupted | OtherError

  /** What the retrying read loop ends with. */
  datatype Chunk = Got(bytes: seq<Byte>) | Closed | Lost

  /** The read loop's result and the socket left behind. */
  datatype ReadStep = ReadStep(chunk: Chunk, rest: seq<ReadOutcome>)

  /** What `read_message` returns and leaves: the result, the unconsumed bytes
      in the buffer, and the socket. */
  datatype Frame = Frame(result: Result<string, ConnectionError>, pending: seq<Byte>, rest: seq<ReadOutcome>)

  // ---------------------------------------------------------------------------
  // Specification of buffer_crlf and read_message
  // ---------------------------------------------------------------------------

  /** A CR LF pair starts at index `i` of `s`. */
  predicate CrlfAt(s: seq<Byte>, i: int) {
    0 <= i && i + 1 < |s| && s[i] == 13 && s[i + 1] == 10
  }

  /** The first index at or after `k` where a CR LF pair starts. */
  function FirstCrlfFrom(s: seq<Byte>, k: nat): (r: Option<nat>)
    ensures r.Some? ==> k <= r.value && CrlfAt(s, r.value)
    ensures r.Some? ==> forall j | k <= j < r.value :: !CrlfAt(s, j)
    ensures r.None? ==> forall j | k <= j :: !CrlfAt(s, j)
    decreases |s| - k
  {
    if k + 1 >= |s| then None
    else if s[k] == 13 && s[k + 1] == 10 then Some(k)
    else FirstCrlfFrom(s, k + 1)
  }

  /** The first index where a CR LF pair starts (`windows(2)...find(..)`). */
  function FirstCrlf(s: seq<Byte>): (r: Option<nat>)
    ensures r.Some? ==> CrlfAt(s, r.value) && forall j | 0 <= j < r.value :: !CrlfAt(s, j)
    ensures r.None? ==> forall j :: !CrlfAt(s, j)
  {
    FirstCrlfFrom(s, 0)
  }

  /** The read loop of `read_message` (lines 108-121): an interrupted read is
      retried, anything else ends the loop. `free` is the room left in the
      buffer, the most one read can take. */
  function ReadChunk(script: seq<ReadOutcome>, free: nat): (r: ReadStep)
    ensures r.chunk.Got? ==> 0 < |r.chunk.bytes| <= free
  {
    if script == [] then ReadStep(Closed, [])
    else match script[0]
      case Interrupted => ReadChunk(script[1..], free)
      case OtherError => ReadStep(Lost, script[1..])
      case Bytes(d) =>
        var n := if |d| <= free then |d| else free;
        if n == 0 then ReadStep(Closed, if d == [] then script[1..] else script)
        else if n == |d| then ReadStep(Got(d), script[1..])
        else ReadStep(Got(d[..n]), [Bytes(d[n..])] + script[1..])
  }

  /** Cutting the line that ends at the CR LF at `end` out of `p`: the bytes
      before it are decoded, everything after the CR LF stays buffered. */
  function TakeLine(p: seq<Byte>, end: nat, rest: seq<ReadOutcome>): Frame
    requires CrlfAt(p, end)
  {
    var text := match Decode(p[..end])
      case Some(s) => Success(s)
      case None => Failure(MessageInvalidUtf8);
    Frame(text, p[end + 2..], rest)
  }

  /** `read_message`, given the buffered bytes and the socket: no read when a
      CR LF is already buffered; otherwise exactly one successful read, and if
      that still leaves no CR LF the buffer is discarded. */
  function ReadFrame(pending: seq<Byte>, script: seq<ReadOutcome>): (f: Frame)
    requires |pending| <= Capacity
    ensures |f.pending| <= Capacity
    ensures f.result == Failure(ConnectionClosed) || f.result == Failure(ConnectionLost) ==> f.pending == pending
    ensures f.result == Failure(MessageTooLong) ==> f.pending == [] && FirstCrlf(pending).None?
  {
    match FirstCrlf(pending)
    case Some(end) => TakeLine(pending, end, script)
    case None =>
      var step := ReadChunk(script, Capacity - |pending|);
      match step.chunk
      case Closed => Frame(Failure(ConnectionClosed), pending, step.rest)
      case Lost => Frame(Failure(ConnectionLost), pending, step.rest)
      case Got(bytes) =>
        var p := pending + bytes;
        match FirstCrlf(p)
        case None => Frame(Failure(MessageTooLong), [], step.rest)
        case Some(end) => TakeLine(p, end, step.rest)
  }

  /** The bytes in the buffer once `read_message` has done its read, if any. */
  ghost function Filled(pending: seq<Byte>, script: seq<ReadOutcome>): seq<Byte>
    requires |pending| <= Capacity
  {
    if FirstCrlf(pending).Some? then pending
    else match ReadChunk(script, Capacity - |pending|).chunk
      case Got(bytes) => pending + bytes
      case _ => pending
  }

  /** The size of what the socket still has to offer: one per read result plus
      the bytes it carries. */
  function Weight(script: seq<ReadOutcome>): nat {
    if script == [] then 0
    else (match script[0] case Bytes(d) => 1 + |d| case _ => 1) + Weight(script[1..])
  }

  // ---------------------------------------------------------------------------
  // Properties of the framing
  // ---------------------------------------------------------------------------

  /** Interrupted reads are retried: they change nothing but the socket. */
  lemma InterruptedRetried(script: seq<ReadOutcome>, free: nat)
    ensures ReadChunk([Interrupted] + script, free) == ReadChunk(script, free)
  {
    assert ([Interrupted] + script)[1..] == script;
  }

  /** A zero-byte read is end of stream and any other error is a lost
      connection; bytes that fit are taken whole, and the part of a larger
      chunk that does not fit stays in the socket. */
  lemma ReadOutcomes(script: seq<ReadOutcome>, d: seq<Byte>, free: nat)
    ensures ReadChunk([], free) == ReadStep(Closed, [])
    ensures ReadChunk([Bytes([])] + script, free) == ReadStep(Closed, script)
    ensures ReadChunk([OtherError] + script, free) == ReadStep(Lost, script)
    ensures 0 < |d| <= free ==> ReadChunk([Bytes(d)] + script, free) == ReadStep(Got(d), script)
    ensures 0 < free < |d| ==>
      ReadChunk([Bytes(d)] + script, free) == ReadStep(Got(d[..free]), [Bytes(d[free..])] + script)
  {
    assert ([Bytes([])] + script)[1..] == script;
    assert ([OtherError] + script)[1..] == script;
    assert ([Bytes(d)] + script)[1..] == script;
  }

  /** With a CR LF already buffered, `read_message` does not touch the socket. */
  lemma NoReadWhenBuffered(pending: seq<Byte>, script: seq<ReadOutcome>)
    requires |pending| <= Capacity && FirstCrlf(pending).Some?
    ensures ReadFrame(pending, script).rest == script
    ensures ReadFrame(pending, script).result != Failure(MessageTooLong)
  {
  }

  /** When a line is returned (or refused as invalid UTF-8), the buffer after the
      read is the line, then CR LF, then what stays buffered; the line holds no
      CR LF pair, the returned text is exactly the line's bytes, and the frame
      is consumed whether or not it decodes. */
  lemma FrameLine(pending: seq<Byte>, script: seq<ReadOutcome>)
    requires |pending| <= Capacity
    ensures var f := ReadFrame(pending, script);
      var p := Filled(pending, script);
      f.result.Success? || f.result == Failure(MessageInvalidUtf8) ==>
        && FirstCrlf(p).Some?
        && var end := FirstCrlf(p).value;
        && p == p[..end] + [13, 10] + f.pending
        && (forall j | 0 <= j < end :: !CrlfAt(p[..end], j))
        && (f.result.Success? ==> Encode(f.result.value) == p[..end])
        && (f.result == Failure(MessageInvalidUtf8) <==> Decode(p[..end]).None?)
  {
    var f := ReadFrame(pending, script);
    var p := Filled(pending, script);
    if f.result.Success? || f.result == Failure(MessageInvalidUtf8) {
      var end := FirstCrlf(p).value;
      assert f == TakeLine(p, end, ReadFrame(pending, script).rest);
      assert p == p[..end] + [13, 10] + p[end + 2..];
      forall j | 0 <= j < end
        ensures !CrlfAt(p[..end], j)
      {
        assert !CrlfAt(p, j);
      }
      EncodeDecode(p[..end]);
    }
  }

  /** The buffer never holds more than its capacity, and after any call that
      keeps the connection it has room for at least two more bytes. */
  lemma FrameBound(pending: seq<Byte>, script: seq<ReadOutcome>)
    requires |pending| <= Capacity
    ensures var f := ReadFrame(pending, script);
      && |f.pending| <= Capacity
      && (f.result != Failure(ConnectionClosed) && f.result != Failure(ConnectionLost) ==>
            |f.pending| <= Capacity - 2)
  {
  }

  /** A call that keeps the connection consumes input: it reads from the socket,
      or, without reading, it shrinks the buffer. */
  lemma {:induction false} ReadChunkProgress(script: seq<ReadOutcome>, free: nat)
    ensures var r := ReadChunk(script, free);
      r.chunk.Got? ==> Weight(r.rest) < Weight(script)
    ensures Weight(ReadChunk(script, free).rest) <= Weight(script)
  {
    if script != [] {
      assert Weight(script) == (match script[0] case Bytes(d) => 1 + |d| case _ => 1) + Weight(script[1..]);
      match script[0]
      case Interrupted => ReadChunkProgress(script[1..], free);
      case OtherError =>
      case Bytes(d) =>
        var n := if |d| <= free then |d| else free;
        if 0 < n < |d| {
          var tail := [Bytes(d[n..])] + script[1..];
          assert tail[1..] == script[1..];
          assert Weight(tail) == 1 + |d| - n + Weight(script[1..]);
        }
    }
  }

  lemma FrameProgress(pending: seq<Byte>, script: seq<ReadOutcome>)
    requires |pending| <= Capacity
    ensures var f := ReadFrame(pending, script);
      f.result != Failure(ConnectionClosed) && f.result != Failure(ConnectionLost) ==>
        || Weight(f.rest) < Weight(script)
        || (f.rest == script && |f.pending| < |pending|)
  {
    ReadChunkProgress(script, Capacity - |pending|);
  }

  /** Round trip: a line of at most 510 bytes with no CR LF inside, sent with its
      CR LF in one piece to an empty buffer, is read back exactly. */
  lemma ReadSentLine(s: string, more: seq<ReadOutcome>)
    requires |Encode(s)| <= Capacity - 2
    requires forall j :: !CrlfAt(Encode(s), j)
    ensures ReadFrame([], [Bytes(Encode(s) + [13, 10])] + more) == Frame(Success(s), [], more)
  {
    var e := Encode(s);
    var p := e + [13, 10];
    var script := [Bytes(p)] + more;
    assert script[1..] == more;
    assert ReadChunk(script, Capacity) == ReadStep(Got(p), more);
    FirstCrlfOfTerminated(e);
    ReadFrameGot(script, p, more, |e|);
    assert p[..|e|] == e && p[|e| + 2..] == [];
    DecodeEncode(s);
  }

  /** With nothing buffered, a read that brings a CR LF completes a line. */
  lemma ReadFrameGot(script: seq<ReadOutcome>, p: seq<Byte>, rest: seq<ReadOutcome>, end: nat)
    requires ReadChunk(script, Capacity) == ReadStep(Got(p), rest)
    requires FirstCrlf(p) == Some(end)
    ensures ReadFrame([], script) == TakeLine(p, end, rest)
  {
    assert [] + p == p;
  }

  /** Bytes without a CR LF pair, followed by CR LF: the first pair is the
      appended one. */
  lemma FirstCrlfOfTerminated(e: seq<Byte>)
    requires forall j :: !CrlfAt(e, j)
    ensures FirstCrlf(e + [13, 10]) == Some(|e|)
  {
    var p := e + [13, 10];
    forall j | 0 <= j < |e|
      ensures !CrlfAt(p, j)
    {
      if j + 1 < |e| {
        assert !CrlfAt(e, j);
      }
    }
    assert CrlfAt(p, |e|);
  }

  /** A line that arrives in two reads is lost: the first read finds no CR LF,
      so the call reports MessageTooLong and discards the first part, however
      much room the buffer still had. */
  lemma SplitLineLost(a: seq<Byte>, b: seq<Byte>, more: seq<ReadOutcome>)
    requires 0 < |a| <= Capacity
    requires forall j :: !CrlfAt(a, j)
    ensures ReadFrame([], [Bytes(a), Bytes(b)] + more) == Frame(Failure(MessageTooLong), [], [Bytes(b)] + more)
  {
    var script := [Bytes(a), Bytes(b)] + more;
    assert script[1..] == [Bytes(b)] + more;
    assert [] + a == a;
  }

  // ---------------------------------------------------------------------------
  // ConnectionRead
  // ---------------------------------------------------------------------------

  /** `ConnectionRead`: the socket, a 512-byte buffer and the count of buffered
      bytes. */
  class ConnectionRead {
    var incoming: seq<ReadOutcome>
    var buffer: array<Byte>
    var buflen: nat

    ghost predicate Valid()
      reads this
    {
      buffer.Length == Capacity && buflen <= Capacity
    }

    /** The bytes buffered but not yet returned. */
    ghost function Pending(): seq<Byte>
      reads this, buffer
      requires Valid()
    {
      buffer[..buflen]
    }

    /** `from_reader`: a zeroed buffer holding nothing. */
    constructor FromReader(incoming: seq<ReadOutcome>)
      ensures Valid() && fresh(buffer)
      ensures buflen == 0 && Pending() == [] && this.incoming == incoming
    {
      this.incoming := incoming;
      buffer := new Byte[Capacity](_ => 0);
      buflen := 0;
    }

    /** `buffer_crlf`: scans the buffered bytes for the first CR LF pair. */
    method BufferCrlf() returns (r: Option<nat>)
      requires Valid()
      ensures r.Some? ==> r.value + 1 < buflen && buffer[r.value] == 13 && buffer[r.value + 1] == 10
      ensures r.Some? ==> forall j | 0 <= j < r.value :: !CrlfAt(buffer[..buflen], j)
      ensures r.None? ==> forall j :: !CrlfAt(buffer[..buflen], j)
      ensures r == FirstCrlf(Pending())
    {
      var i := 0;
      while i + 1 < buflen
        invariant 0 <= i
        invariant forall j | 0 <= j < i :: !CrlfAt(buffer[..buflen], j)
      {
        if buffer[i] == 13 && buffer[i + 1] == 10 {
          assert CrlfAt(buffer[..buflen], i);
          return Some(i);
        }
        i := i + 1;
      }
      return None;
    }

    /** The retrying read loop: interrupted reads are retried; the bytes read
        are not yet placed in the buffer. */
    method ReadRetrying(free: nat) returns (chunk: Chunk)
      modifies this`incoming
      ensures ReadStep(chunk, incoming) == ReadChunk(old(incoming), free)
    {
      while true
        invariant ReadChunk(incoming, free) == ReadChunk(old(incoming), free)
        decreases |incoming|
      {
        if incoming == [] {
          return Closed;
        }
        match incoming[0]
        case Interrupted =>
          incoming := incoming[1..];
        case OtherError =>
          incoming := incoming[1..];
          return Lost;
        case Bytes(d) =>
          var n := if |d| <= free then |d| else free;
          if n == 0 {
            if d == [] {
              incoming := incoming[1..];
            }
            return Closed;
          } else if n == |d| {
            incoming := incoming[1..];
            return Got(d);
          } else {
            incoming := [Bytes(d[n..])] + incoming[1..];
            return Got(d[..n]);
          }
      }
    }

    /** Copies what a read delivered into the free part of the buffer and
        counts it (`read` into `buffer[buflen..]`, then `buflen += n`). */
    method Append(bytes: seq<Byte>)
      requires Valid() && buflen + |bytes| <= Capacity
      modifies buffer, this`buflen
      ensures Valid() && Pending() == old(Pending()) + bytes
    {
      ghost var pending := Pending();
      var k := 0;
      while k < |bytes|
        invariant 0 <= k <= |bytes|
        invariant Valid() && buflen == |pending| && buflen + |bytes| <= Capacity
        invariant buffer[..buflen + k] == pending + bytes[..k]
      {
        buffer[buflen + k] := bytes[k];
        k := k + 1;
        assert buffer[..buflen + k] == buffer[..buflen + k - 1] + [bytes[k - 1]];
      }
      buflen := buflen + |bytes|;
    }

    /** Takes out the bytes before the CR LF at `end` and moves everything after
        the CR LF to the front of the buffer (`copy_within`). */
    method TakeFront(end: nat) returns (line: seq<Byte>)
      requires Valid() && CrlfAt(Pending(), end)
      modifies buffer, this`buflen
      ensures Valid()
      ensures line == old(Pending())[..end] && Pending() == old(Pending())[end + 2..]
    {
      ghost var p := Pending();
      line := buffer[0..end];
      var after := end + 2;
      var k := 0;
      while k < buflen - after
        invariant 0 <= k <= buflen - after
        invariant Valid() && buflen == |p|
        invariant buffer[..k] == p[after..after + k]
        invariant buffer[after + k..buflen] == p[after + k..]
      {
        buffer[k] := buffer[after + k];
        k := k + 1;
        assert buffer[..k] == buffer[..k - 1] + [p[after + k - 1]];
      }
      buflen := buflen - after;
    }

    /** `read_message`. */
    method ReadMessage() returns (r: Result<string, ConnectionError>)
      requires Valid()
      modifies this, buffer
      ensures Valid() && buffer == old(buffer)
      ensures var f := ReadFrame(old(Pending()), old(incoming));
        r == f.result && Pending() == f.pending && incoming == f.rest
    {
      ghost var pending := Pending();
      var found := BufferCrlf();
      if found.None? {
        var chunk := ReadRetrying(Capacity - buflen);
        match chunk
        case Closed =>
          return Failure(ConnectionClosed);
        case Lost =>
          return Failure(ConnectionLost);
        case Got(bytes) =>
          Append(bytes);
          found := BufferCrlf();
          if found.None? {
            buflen := 0;
            return Failure(MessageTooLong);
          }
      }
      ghost var p := Pending();
      var line := TakeFront(found.value);
      var decoded := Decode(line);
      if decoded.Some? {
        r := Success(decoded.value);
      } else {
        r := Failure(MessageInvalidUtf8);
      }
    }
  }
}
