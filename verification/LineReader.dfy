/** The bounded line reader of the node-to-gateway hop.

    Chunks of any size are cut into lines as they arrive. The results say that
    the cutting does not show: whatever the chunking, the lines handed to the
    parser are those of the whole byte stream up to its first over-long line. */
module LineReader {
  import opened Prelude

  const MAX_LINE_BYTES := 256 * 1024
  const MAX_TRANSPORT_CHUNK := 1024 * 1024
  const NEWLINE: byte := 10

  datatype Error = StreamInvalid | IdleTimeout

  /** One answer of the transport. After the last one the stream has ended. */
  datatype Arrival = Data(bytes: seq<byte>) | Broken | Idle

  predicate Usable(a: Arrival) {
    a.Data? && |a.bytes| <= 1_048_576
  }

  // ---- The whole stream ----

  /** The bytes that arrive before the first answer the reader cannot use. */
  function Bytes(input: seq<Arrival>): seq<byte> {
    if input == [] || !Usable(input[0]) then [] else input[0].bytes + Bytes(input[1..])
  }

  /** How the stream stops. */
  function Stop(input: seq<Arrival>): Error {
    if input == [] then StreamInvalid
    else if Usable(input[0]) then Stop(input[1..])
    else if input[0].Idle? then IdleTimeout
    else StreamInvalid
  }

  /** The answer at `k` is the first the reader cannot use. */
  predicate StopsAt(input: seq<Arrival>, k: nat) {
    k < |input| && !Usable(input[k]) && forall i :: 0 <= i < k ==> Usable(input[i])
  }

  /** The stream times out exactly when the first answer that cannot be used is
      silence; the end, a broken or an oversized answer make it invalid. */
  lemma {:induction false} StopsExactly(input: seq<Arrival>)
    ensures Stop(input) == IdleTimeout <==> exists k: nat :: StopsAt(input, k) && input[k] == Idle
  {
    if input != [] {
      if Usable(input[0]) {
        StopsExactly(input[1..]);
        if k: nat :| StopsAt(input[1..], k) && input[1..][k] == Idle {
          assert StopsAt(input, k + 1) && input[k + 1] == Idle;
        }
        if k: nat :| StopsAt(input, k) && input[k] == Idle {
          assert StopsAt(input[1..], k - 1) && input[1..][k - 1] == Idle;
        }
      } else {
        assert StopsAt(input, 0);
      }
    }
  }

  function FirstNewline(bytes: seq<byte>): (at: Option<nat>)
    ensures at.Some? ==> at.value < |bytes| && bytes[at.value] == 10
    ensures forall i :: 0 <= i < (if at.Some? then at.value else |bytes|) ==> bytes[i] != 10
  {
    if bytes == [] then None
    else if bytes[0] == NEWLINE then Some(0)
    else
      var at := FirstNewline(bytes[1..]);
      if at.None? then None else Some(at.value + 1)
  }

  /** Splitting the whole stream at newlines: its complete lines, without their newline. */
  function Lines(bytes: seq<byte>): seq<seq<byte>>
    decreases |bytes|
  {
    var at := FirstNewline(bytes);
    if at.None? then [] else [bytes[..at.value]] + Lines(bytes[at.value + 1..])
  }

  /** What follows the last newline. */
  function Tail(bytes: seq<byte>): seq<byte>
    decreases |bytes|
  {
    var at := FirstNewline(bytes);
    if at.None? then bytes else Tail(bytes[at.value + 1..])
  }

  function UpToOverlong(lines: seq<seq<byte>>): (r: seq<seq<byte>>)
    ensures |r| <= |lines| && r == lines[..|r|]
    ensures forall i :: 0 <= i < |r| ==> |r[i]| <= MAX_LINE_BYTES
    ensures |r| < |lines| ==> |lines[|r|]| > MAX_LINE_BYTES
  {
    if lines == [] || |lines[0]| > MAX_LINE_BYTES then [] else [lines[0]] + UpToOverlong(lines[1..])
  }

  /** How reading ends: on an over-long line or tail, or as the stream stops. */
  function EndOf(bytes: seq<byte>, stop: Error): Error {
    if |UpToOverlong(Lines(bytes))| < |Lines(bytes)| || |Tail(bytes)| > MAX_LINE_BYTES + 1 then StreamInvalid else stop
  }

  /** The first line of the stream and what is left, or why there is none. */
  function FirstLine(bytes: seq<byte>, stop: Error): Result<(seq<byte>, seq<byte>), Error> {
    var at := FirstNewline(bytes);
    if at.Some? then
      if at.value <= MAX_LINE_BYTES then Ok((bytes[..at.value], bytes[at.value + 1..])) else Err(StreamInvalid)
    else Err(if |bytes| > MAX_LINE_BYTES + 1 then StreamInvalid else stop)
  }

  lemma {:induction false} NewlineIn(a: seq<byte>, b: seq<byte>)
    ensures FirstNewline(a + b) ==
      if FirstNewline(a).Some? then FirstNewline(a)
      else if FirstNewline(b).None? then None
      else Some(|a| + FirstNewline(b).value)
  {
    if a == [] {
      assert a + b == b;
    } else {
      assert (a + b)[1..] == a[1..] + b;
      NewlineIn(a[1..], b);
    }
  }

  /** A first line of `k` bytes is what stands before its newline. */
  lemma FirstLineAt(line: seq<byte>, rest: seq<byte>, stop: Error)
    requires NEWLINE !in line
    ensures FirstLine(line + [NEWLINE] + rest, stop) ==
            if |line| > MAX_LINE_BYTES then Err(StreamInvalid) else Ok((line, rest))
  {
    var bytes := line + [NEWLINE] + rest;
    var at := FirstNewline(bytes);
    assert bytes[|line|] == NEWLINE;
    assert at.Some? && at.value == |line| by {
      assert forall i :: 0 <= i < |line| ==> bytes[i] == line[i];
    }
    assert bytes[..|line|] == line && bytes[|line| + 1..] == rest;
  }

  lemma Regrouped(buffer: seq<byte>, pending: seq<byte>, later: seq<byte>, k: nat)
    requires k < |pending| && pending[k] == NEWLINE
    ensures buffer + pending + later == (buffer + pending[..k]) + [NEWLINE] + (pending[k + 1..] + later)
    ensures (buffer + pending[..k + 1])[..|buffer| + k] == buffer + pending[..k]
  {
    assert pending == pending[..k] + [NEWLINE] + pending[k + 1..];
  }

  /** A newline in the pending chunk ends the buffered line. */
  lemma LineCompletes(buffer: seq<byte>, pending: seq<byte>, later: seq<byte>, stop: Error)
    requires NEWLINE !in buffer && FirstNewline(pending).Some?
    ensures
      var k := FirstNewline(pending).value;
      FirstLine(buffer + pending + later, stop) ==
      if |buffer| + k > MAX_LINE_BYTES then Err(StreamInvalid)
      else Ok(((buffer + pending[..k + 1])[..|buffer| + k], pending[k + 1..] + later))
  {
    var k := FirstNewline(pending).value;
    Regrouped(buffer, pending, later, k);
    FirstLineAt(buffer + pending[..k], pending[k + 1..] + later, stop);
  }

  /** Without one, a line past the limit is refused and an ended stream has no line. */
  lemma LineGrows(buffer: seq<byte>, pending: seq<byte>, later: seq<byte>, stop: Error)
    requires NEWLINE !in buffer && FirstNewline(pending).None?
    ensures |buffer| + |pending| > MAX_LINE_BYTES + 1 ==>
      FirstLine(buffer + pending + later, stop) == Err(StreamInvalid)
    ensures later == [] && |buffer| + |pending| <= MAX_LINE_BYTES + 1 ==>
      FirstLine(buffer + pending + later, stop) == Err(stop)
  {
    NewlineIn(buffer, pending);
    NewlineIn(buffer + pending, later);
  }

  /** Reading line by line to the first error. */
  function Reading(bytes: seq<byte>, stop: Error): (seq<seq<byte>>, Error)
    decreases |bytes|
  {
    match FirstLine(bytes, stop)
    case Err(e) => ([], e)
    case Ok((line, rest)) =>
      var (lines, end) := Reading(rest, stop);
      ([line] + lines, end)
  }

  lemma {:induction false} ReadingIsSplitting(bytes: seq<byte>, stop: Error)
    ensures
      var (lines, end) := Reading(bytes, stop);
      && lines == UpToOverlong(Lines(bytes))
      && end == EndOf(bytes, stop)
    decreases |bytes|
  {
    var at := FirstNewline(bytes);
    if at.Some? {
      var line, rest := bytes[..at.value], bytes[at.value + 1..];
      OverlongStep(line, Lines(rest));
      if at.value <= MAX_LINE_BYTES {
        ReadingIsSplitting(rest, stop);
      }
    }
  }

  lemma OverlongStep(line: seq<byte>, lines: seq<seq<byte>>)
    ensures UpToOverlong([line] + lines) == if |line| > MAX_LINE_BYTES then [] else [line] + UpToOverlong(lines)
  {
    assert ([line] + lines)[1..] == lines;
  }

  class Reader {
    var input: seq<Arrival>
    var buffer: seq<byte>
    var pending: seq<byte>

    constructor (input: seq<Arrival>)
      ensures Valid() && Left() == Bytes(input) && StopsWith() == Stop(input)
    {
      this.input := input;
      buffer, pending := [], [];
    }

    /** The buffer never holds a newline, nor more than one line and its newline. */
    ghost predicate Valid()
      reads this
    {
      NEWLINE !in buffer && |buffer| <= MAX_LINE_BYTES + 1 && |pending| <= MAX_TRANSPORT_CHUNK
    }

    /** The bytes not yet handed out as lines. */
    ghost function Left(): seq<byte>
      reads this
    {
      buffer + pending + Bytes(input)
    }

    ghost function StopsWith(): Error
      reads this
    {
      Stop(input)
    }

    /** `r` is the first line of the `before` bytes, and the rest is left. */
    ghost predicate Answers(r: Result<seq<byte>, Error>, before: seq<byte>, stop: Error)
      reads this
    {
      match FirstLine(before, stop)
      case Ok((line, rest)) => r == Ok(line) && Valid() && Left() == rest && StopsWith() == stop
      case Err(e) => r == Err(e) && Valid()
    }

    /** One line of the stream, however it was cut into chunks. */
    method NextLine() returns (r: Result<seq<byte>, Error>)
      requires Valid()
      modifies this
      ensures Answers(r, old(Left()), old(StopsWith()))
    {
      while true
        invariant Valid() && Left() == old(Left()) && StopsWith() == old(StopsWith())
        decreases |input|
      {
        var line := TakePending();
        if line.Some? {
          return line.value;
        }
        var failure := Fetch();
        if failure.Some? {
          return Err(failure.value);
        }
      }
    }

    /** Move the pending bytes into the buffer, up to a newline if there is one. */
    method TakePending() returns (line: Option<Result<seq<byte>, Error>>)
      requires Valid()
      modifies this`buffer, this`pending
      ensures line.Some? ==> Answers(line.value, old(Left()), old(StopsWith()))
      ensures line.None? ==> Valid() && pending == [] && Left() == old(Left())
      ensures line.None? && Bytes(input) == [] ==> FirstLine(old(Left()), StopsWith()) == Err(StopsWith())
    {
      var newline := FirstNewline(pending);
      if newline.None? {
        LineGrows(buffer, pending, Bytes(input), StopsWith());
        if |buffer| + |pending| > MAX_LINE_BYTES + 1 {
          return Some(Err(StreamInvalid));
        }
        buffer := buffer + pending;
        pending := [];
        assert buffer + [] == buffer;
        return None;
      }
      var take := newline.value + 1;
      LineCompletes(buffer, pending, Bytes(input), StopsWith());
      if |buffer| + take > MAX_LINE_BYTES + 1 {
        return Some(Err(StreamInvalid));
      }
      buffer := buffer + pending[..take];
      pending := pending[take..];
      var whole := buffer;
      buffer := [];
      assert Left() == pending + Bytes(input);
      return Some(Ok(whole[..|whole| - 1]));
    }

    /** The next chunk of the transport becomes the pending one, or the stream stops. */
    method Fetch() returns (failure: Option<Error>)
      requires pending == []
      modifies this
      ensures buffer == old(buffer) && |pending| <= MAX_TRANSPORT_CHUNK
      ensures failure.Some? ==> pending == []
      ensures failure.Some? ==> failure.value == old(StopsWith()) && old(Bytes(input)) == []
      ensures failure.None? ==>
        pending + Bytes(input) == old(Bytes(input)) && StopsWith() == old(StopsWith()) && |input| < |old(input)|
    {
      if input == [] {
        return Some(StreamInvalid);
      }
      var arrival := input[0];
      input := input[1..];
      match arrival
      case Idle => return Some(IdleTimeout);
      case Broken => return Some(StreamInvalid);
      case Data(bytes) =>
        if |bytes| > MAX_TRANSPORT_CHUNK {
          return Some(StreamInvalid);
        }
        pending := bytes;
        return None;
    }
  }

  /** Main result: reading until the first error hands out exactly the lines of
      the whole stream up to its first over-long one, for every chunking. */
  method ReadAll(input: seq<Arrival>) returns (lines: seq<seq<byte>>, end: Error)
    ensures lines == UpToOverlong(Lines(Bytes(input)))
    ensures end == EndOf(Bytes(input), Stop(input))
  {
    ReadingIsSplitting(Bytes(input), Stop(input));
    ghost var all := Reading(Bytes(input), Stop(input));
    var reader := new Reader(input);
    lines := [];
    assert [] + all.0 == all.0;
    while true
      invariant reader.Valid() && reader.StopsWith() == Stop(input)
      invariant all == (lines + Reading(reader.Left(), Stop(input)).0, Reading(reader.Left(), Stop(input)).1)
      decreases |reader.Left()|
    {
      ghost var rest := Reading(reader.Left(), Stop(input)).0;
      var r := reader.NextLine();
      if r.Err? {
        return lines, r.error;
      }
      assert lines + rest == (lines + [r.value]) + rest[1..];
      lines := lines + [r.value];
    }
  }

  /** Splitting is what it should be: no line holds a newline, and the lines with
      their newlines and the tail are the whole stream. */
  lemma LinesAreLines(bytes: seq<byte>)
    ensures forall i :: 0 <= i < |Lines(bytes)| ==> NEWLINE !in Lines(bytes)[i]
    ensures NEWLINE !in Tail(bytes)
    ensures bytes == Rejoined(Lines(bytes)) + Tail(bytes)
  {
    NoNewlineInside(bytes);
    LinesRejoin(bytes);
  }

  lemma {:induction false} NoNewlineInside(bytes: seq<byte>)
    ensures forall i :: 0 <= i < |Lines(bytes)| ==> NEWLINE !in Lines(bytes)[i]
    ensures NEWLINE !in Tail(bytes)
    decreases |bytes|
  {
    var at := FirstNewline(bytes);
    if at.Some? {
      NoNewlineInside(bytes[at.value + 1..]);
    }
  }

  lemma {:induction false} LinesRejoin(bytes: seq<byte>)
    ensures bytes == Rejoined(Lines(bytes)) + Tail(bytes)
    decreases |bytes|
  {
    var at := FirstNewline(bytes);
    if at.Some? {
      var line, rest := bytes[..at.value], bytes[at.value + 1..];
      LinesRejoin(rest);
      RejoinStep(line, Lines(rest), Tail(rest));
      CutAt(bytes, at.value);
    }
  }

  lemma CutAt(bytes: seq<byte>, at: nat)
    requires at < |bytes| && bytes[at] == NEWLINE
    ensures bytes == bytes[..at] + [NEWLINE] + bytes[at + 1..]
  {
  }

  lemma RejoinStep(line: seq<byte>, lines: seq<seq<byte>>, tail: seq<byte>)
    ensures Rejoined([line] + lines) + tail == line + [NEWLINE] + (Rejoined(lines) + tail)
  {
    assert ([line] + lines)[1..] == lines;
  }

  function Rejoined(lines: seq<seq<byte>>): seq<byte> {
    if lines == [] then [] else lines[0] + [NEWLINE] + Rejoined(lines[1..])
  }

  // ---- Chunkings ----

  function Joined(input: seq<Arrival>): seq<byte>
    requires forall i :: 0 <= i < |input| ==> Usable(input[i])
  {
    if input == [] then [] else assert Usable(input[0]); input[0].bytes + Joined(input[1..])
  }

  lemma {:induction false} ChunksThen(input: seq<Arrival>, later: seq<Arrival>)
    requires forall i :: 0 <= i < |input| ==> Usable(input[i])
    ensures Bytes(input + later) == Joined(input) + Bytes(later) && Stop(input + later) == Stop(later)
  {
    if input == [] {
      assert input + later == later;
    } else {
      assert (input + later)[1..] == input[1..] + later;
      ChunksThen(input[1..], later);
    }
  }

  /** Main result: two chunkings of the same bytes, with anything after them,
      cannot be told apart by what the reader hands out or how it stops. */
  method ReadBoth(a: seq<Arrival>, b: seq<Arrival>, later: seq<Arrival>)
    returns (lines: seq<seq<byte>>, end: Error, lines': seq<seq<byte>>, end': Error)
    requires forall i :: 0 <= i < |a| ==> Usable(a[i])
    requires forall i :: 0 <= i < |b| ==> Usable(b[i])
    requires Joined(a) == Joined(b)
    ensures lines == lines' && end == end'
    ensures lines == UpToOverlong(Lines(Joined(a) + Bytes(later)))
  {
    ChunksThen(a, later);
    ChunksThen(b, later);
    lines, end := ReadAll(a + later);
    lines', end' := ReadAll(b + later);
  }
}
