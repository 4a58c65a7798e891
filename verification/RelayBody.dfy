/** The two bodies of an accepted relay call. The request body goes upstream line
    by line, each line re-checked as it arrives; the response comes back cut into
    numbered lines of at most 32 KiB. */
module RelayBody {
  import opened Prelude
  import opened Chunks

  const MAX_CHUNK_BYTES := 32 * 1024
  const MAX_REQUEST_BODY := 8 * 1024 * 1024

  /** Why a relay call stops; a re-check fails with whatever the lease or the vault said. */
  datatype RelayError = StreamInvalid | IdleTimeout | Rechecked(reason: string)

  // ---- The request ----

  /** A parsed node line; `payload` is what its base64 decodes to, if it does. */
  datatype NodeLine =
    | GatewayOpen
    | RequestBody(id: string, number: nat, payload: Option<seq<byte>>)
    | RequestEnd(id: string, last: nat)

  /** Everything a request body stream meets: the lines the node sends and the
      reader's error after them, and the outcome of the re-check at each line. */
  datatype Exchange = Exchange(
    id: string, lines: seq<Result<NodeLine, RelayError>>, stop: RelayError, recheck: nat -> Option<RelayError>)
  {
    function Line(n: nat): Result<NodeLine, RelayError> {
      if n < |lines| then lines[n] else Err(stop)
    }

    /** Line `n` is chunk `n + 1` of this request and passed its own re-check. */
    predicate Chunk(n: nat) {
      && Line(n).Ok? && Line(n).value.RequestBody?
      && Line(n).value.id == id && Line(n).value.number == n + 1
      && recheck(n).None?
      && Line(n).value.payload.Some? && 1 <= |Line(n).value.payload.value| <= 32768
    }

    /** Line `n` ends the request, naming `n` chunks, and passed its own re-check. */
    predicate End(n: nat) {
      && Line(n).Ok? && Line(n).value.RequestEnd?
      && Line(n).value.id == id && Line(n).value.last == n
      && recheck(n).None?
    }

    /** Line `n` is in order and of this request, chunk or end. */
    predicate InOrder(n: nat)
      requires Line(n).Ok?
    {
      match Line(n).value
      case GatewayOpen => false
      case RequestBody(rid, number, _) => rid == id && number == n + 1
      case RequestEnd(rid, last) => rid == id && last == n
    }

    /** Why a line that is neither released nor the end stops the request: the
        reader's own error, a line out of order, the re-check, or its contents. */
    function Fault(n: nat): RelayError {
      if Line(n).Err? then Line(n).error
      else if InOrder(n) && recheck(n).Some? then recheck(n).value
      else StreamInvalid
    }

    /** The payloads of the first `n` lines, when those are the chunks `1..n`. */
    function Payloads(n: nat): seq<seq<byte>>
      requires forall i :: 0 <= i < n ==> Chunk(i)
    {
      seq(n, i requires 0 <= i < n => assert Chunk(i); Line(i).value.payload.value)
    }

    /** The first `n` lines are chunks `1..n` within the size limit. */
    predicate Upload(n: nat) {
      (forall i :: 0 <= i < n ==> Chunk(i)) && |Concat(Payloads(n))| <= 8_388_608
    }

    /** A whole, gap-free request of `n` chunks. */
    predicate Complete(n: nat) {
      Upload(n) && End(n)
    }
  }

  datatype Item = Bytes(chunk: seq<byte>) | Refused

  class RequestStream {
    const exchange: Exchange
    var read: nat
    var expected: nat
    var total: nat
    var done: bool
    var failure: Option<RelayError>

    constructor (exchange: Exchange)
      ensures this.exchange == exchange && !done && read == 0 && failure.None? && Valid()
    {
      this.exchange := exchange;
      read, expected, total, done, failure := 0, 1, 0, false, None;
      new;
      assert exchange.Payloads(0) == [];
    }

    /** While lines are still taken, every line so far was released as a chunk. */
    ghost predicate Valid()
      reads this
    {
      && (done ==> failure.Some?)
      && (!done ==>
            && exchange.Upload(read) && expected == read + 1
            && total == |Concat(exchange.Payloads(read))| && read <= total)
    }

    /** One line: a chunk to release, the clean end, or the reason to stop. */
    method NextChunk() returns (r: Result<Option<seq<byte>>, RelayError>)
      requires Valid() && !done
      modifies this
      ensures done == old(done) && failure == old(failure) && read == old(read) + 1
      ensures r.Ok? && r.value.Some? <==> exchange.Upload(old(read) + 1)
      ensures r.Ok? && r.value.Some? ==>
        Valid() && r.value.value == exchange.Payloads(read)[old(read)]
      ensures r.Ok? && r.value.None? <==> exchange.End(old(read))
      ensures r.Err? ==> r.error == exchange.Fault(old(read))
    {
      ghost var n := read;
      assert exchange.Upload(n + 1) ==> exchange.Chunk(n);
      var line := exchange.Line(read);
      var checked := exchange.recheck(read);
      read := read + 1;
      if line.Err? {
        return Err(line.error);
      }
      match line.value
      case GatewayOpen => return Err(StreamInvalid);
      case RequestBody(id, number, payload) =>
        if id != exchange.id || number != expected {
          return Err(StreamInvalid);
        }
        if checked.Some? {
          return Err(checked.value);
        }
        if payload.None? || !(1 <= |payload.value| <= MAX_CHUNK_BYTES) {
          return Err(StreamInvalid);
        }
        total := total + |payload.value|;
        assert exchange.Chunk(n);
        assert exchange.Payloads(n + 1)[..n] == exchange.Payloads(n);
        if total > MAX_REQUEST_BODY {
          return Err(StreamInvalid);
        }
        expected := expected + 1;
        return Ok(Some(payload.value));
      case RequestEnd(id, last) =>
        if id != exchange.id || last + 1 != expected {
          return Err(StreamInvalid);
        }
        if checked.Some? {
          return Err(checked.value);
        }
        return Ok(None);
    }

    /** One item of the upstream body. `None` ends it; after a refusal it is over. */
    method Poll() returns (item: Option<Item>)
      requires Valid()
      modifies this
      ensures !done && item.Some? ==> Valid()
      ensures old(done) ==> item.None? && done
      ensures !old(done) ==>
        && (item.Some? && item.value.Bytes? <==> exchange.Upload(old(read) + 1))
        && (item.None? <==> exchange.End(old(read)))
        && (item.Some? && item.value.Bytes? ==>
              !done && read == old(read) + 1 && item.value.chunk == exchange.Payloads(read)[old(read)])
        && (item == Some(Refused) <==> done)
        && (!done ==> failure == old(failure))
        && (done ==> failure == Some(exchange.Fault(old(read))))
    {
      if done {
        return None;
      }
      var r := NextChunk();
      match r
      case Ok(Some(chunk)) => return Some(Bytes(chunk));
      case Ok(None) => return None;
      case Err(e) =>
        failure := Some(e);
        done := true;
        return Some(Refused);
    }
  }

  /** Main result, request: what goes upstream is exactly the gap-free chunks
      `1..n`, as far as they are in order, re-checked at their own line and within
      8 MiB; and the body ends cleanly if and only if the node sent a whole
      request and named its length. */
  method Upstream(exchange: Exchange) returns (sent: seq<seq<byte>>, clean: bool, failure: Option<RelayError>)
    ensures exchange.Upload(|sent|) && sent == exchange.Payloads(|sent|)
    ensures !exchange.Upload(|sent| + 1)
    ensures |Concat(sent)| <= 8_388_608
    ensures clean <==> exchange.Complete(|sent|)
    ensures clean <==> exists n: nat :: exchange.Complete(n)
    ensures failure == if clean then None else Some(exchange.Fault(|sent|))
  {
    var stream := new RequestStream(exchange);
    sent := [];
    while true
      invariant stream.exchange == exchange && stream.Valid() && !stream.done && stream.failure.None?
      invariant |sent| == stream.read && exchange.Upload(|sent|) && sent == exchange.Payloads(|sent|)
      decreases MAX_REQUEST_BODY - stream.total, MAX_REQUEST_BODY - |sent|
    {
      ghost var n := |sent|;
      var item := stream.Poll();
      if item.None? || item.value.Refused? {
        clean, failure := item.None?, stream.failure;
        OnlyOneLength(exchange, n);
        return;
      }
      PayloadsSnoc(exchange, n);
      sent := sent + [item.value.chunk];
    }
  }

  lemma PayloadsSnoc(x: Exchange, n: nat)
    requires forall i :: 0 <= i < n + 1 ==> x.Chunk(i)
    ensures x.Payloads(n + 1) == x.Payloads(n) + [x.Payloads(n + 1)[n]]
  {
  }

  lemma OnlyOneLength(x: Exchange, n: nat)
    requires x.Upload(n) && !x.Upload(n + 1)
    ensures (exists m: nat :: x.Complete(m)) <==> x.Complete(n)
  {
    forall i | 0 <= i < n ensures !x.End(i) {
      assert x.Chunk(i);
    }
    if m: nat :| x.Complete(m) {
      if n < m {
        UploadPrefix(x, m, n + 1);
      }
    }
  }

  lemma {:induction false} UploadPrefix(x: Exchange, m: nat, n: nat)
    requires x.Upload(m) && n <= m
    ensures x.Upload(n)
    decreases m
  {
    if n < m {
      assert x.Payloads(m)[..m - 1] == x.Payloads(m - 1);
      UploadPrefix(x, m - 1, n);
    }
  }

  // ---- The response ----

  /** One answer of the provider's body stream; it ends after the last. */
  datatype Provided = Chunk(bytes: seq<byte>) | Failed | Stalled

  datatype GatewayLine = ResponseBody(number: nat, bytes: seq<byte>) | ResponseEnd(last: nat)

  function Cut(chunks: seq<Provided>): (r: seq<seq<byte>>)
    ensures forall i :: 0 <= i < |r| ==> 1 <= |r[i]| <= 32768
  {
    if chunks == [] || !chunks[0].Chunk? then [] else Pieces(chunks[0].bytes, MAX_CHUNK_BYTES) + Cut(chunks[1..])
  }

  /** The provider's bytes up to its first failure. */
  function Body(chunks: seq<Provided>): seq<byte> {
    if chunks == [] || !chunks[0].Chunk? then [] else chunks[0].bytes + Body(chunks[1..])
  }

  predicate EndsWell(chunks: seq<Provided>) {
    forall i :: 0 <= i < |chunks| ==> chunks[i].Chunk?
  }

  function Numbered(pieces: seq<seq<byte>>): seq<GatewayLine> {
    seq(|pieces|, i requires 0 <= i < |pieces| => ResponseBody(i + 1, pieces[i]))
  }

  lemma {:induction false} CutRejoins(chunks: seq<Provided>)
    ensures Concat(Cut(chunks)) == Body(chunks)
  {
    if chunks != [] && chunks[0].Chunk? {
      PiecesRejoin(chunks[0].bytes, MAX_CHUNK_BYTES);
      CutRejoins(chunks[1..]);
      ConcatAppend(Pieces(chunks[0].bytes, MAX_CHUNK_BYTES), Cut(chunks[1..]));
    }
  }

  /** Nothing stands in the way of line `n`: the re-check before it and its sending. */
  predicate Passes(recheck: nat -> Option<RelayError>, send: nat -> Option<RelayError>, n: nat) {
    recheck(n).None? && send(n).None?
  }

  predicate Clear(recheck: nat -> Option<RelayError>, send: nat -> Option<RelayError>, m: nat) {
    forall n :: 1 <= n <= m ==> Passes(recheck, send, n)
  }

  /** What holds line `n` back: its re-check is made before it is sent. */
  function Held(recheck: nat -> Option<RelayError>, send: nat -> Option<RelayError>, n: nat): Option<RelayError> {
    if recheck(n).Some? then recheck(n) else send(n)
  }

  /** The error of the first answer of the provider that is no chunk. */
  function Broken(chunks: seq<Provided>): Option<RelayError> {
    if chunks == [] then None
    else if chunks[0].Chunk? then Broken(chunks[1..])
    else Some(if chunks[0].Failed? then StreamInvalid else IdleTimeout)
  }

  /** The answer at `k` is the first that is no chunk. */
  predicate BreaksAt(chunks: seq<Provided>, k: nat) {
    k < |chunks| && !chunks[k].Chunk? && forall i :: 0 <= i < k ==> chunks[i].Chunk?
  }

  lemma {:induction false} BreaksExactly(chunks: seq<Provided>)
    ensures Broken(chunks).None? <==> EndsWell(chunks)
    ensures Broken(chunks) == Some(StreamInvalid) <==> exists k: nat :: BreaksAt(chunks, k) && chunks[k] == Failed
    ensures Broken(chunks) == Some(IdleTimeout) <==> exists k: nat :: BreaksAt(chunks, k) && chunks[k] == Stalled
  {
    if chunks != [] {
      if chunks[0].Chunk? {
        BreaksExactly(chunks[1..]);
        forall k: nat ensures BreaksAt(chunks[1..], k) <==> BreaksAt(chunks, k + 1) {
        }
        if k: nat :| BreaksAt(chunks, k) {
          assert BreaksAt(chunks[1..], k - 1) && chunks[1..][k - 1] == chunks[k];
        }
        if k: nat :| BreaksAt(chunks[1..], k) {
          assert BreaksAt(chunks, k + 1) && chunks[1..][k] == chunks[k + 1];
        }
      } else {
        assert BreaksAt(chunks, 0);
      }
    }
  }

  /** The bytes response lines carry. */
  function Carried(lines: seq<GatewayLine>): seq<byte> {
    if lines == [] then []
    else
      var last := lines[|lines| - 1];
      Carried(lines[..|lines| - 1]) + if last.ResponseBody? then last.bytes else []
  }

  lemma {:induction false} CarriesPieces(pieces: seq<seq<byte>>)
    ensures Carried(Numbered(pieces)) == Concat(pieces)
  {
    if pieces != [] {
      var n := |pieces| - 1;
      CarriesPieces(pieces[..n]);
      assert Numbered(pieces)[..n] == Numbered(pieces[..n]);
    }
  }

  lemma ConcatPrefix(a: seq<seq<byte>>, b: seq<seq<byte>>)
    requires a <= b
    ensures Concat(a) <= Concat(b)
  {
    ConcatAppend(a, b[|a|..]);
    assert a + b[|a|..] == b;
  }

  /** Body lines, numbered from 1 without a gap, of 1 to 32768 bytes each. */
  predicate InSequence(lines: seq<GatewayLine>) {
    forall i :: 0 <= i < |lines| ==>
      lines[i].ResponseBody? && lines[i].number == i + 1 && 1 <= |lines[i].bytes| <= 32768
  }

  /** One provider chunk, sent as the lines after those already `sent`. */
  method SendChunk(bytes: seq<byte>, sent: seq<seq<byte>>, recheck: nat -> Option<RelayError>,
                   send: nat -> Option<RelayError>)
    returns (sent': seq<seq<byte>>, failure: Option<RelayError>)
    requires Clear(recheck, send, |sent|)
    ensures sent' <= sent + Pieces(bytes, MAX_CHUNK_BYTES) && Clear(recheck, send, |sent'|)
    ensures failure.None? ==> sent' == sent + Pieces(bytes, MAX_CHUNK_BYTES)
    ensures failure.Some? ==> |sent'| < |sent + Pieces(bytes, MAX_CHUNK_BYTES)| && !Passes(recheck, send, |sent'| + 1)
    ensures failure.Some? ==> failure == Held(recheck, send, |sent'| + 1)
  {
    sent' := sent;
    var rest := bytes;
    while rest != []
      invariant sent' + Pieces(rest, MAX_CHUNK_BYTES) == sent + Pieces(bytes, MAX_CHUNK_BYTES)
          && Clear(recheck, send, |sent'|)
      decreases |rest|
    {
      var size := if |rest| <= MAX_CHUNK_BYTES then |rest| else MAX_CHUNK_BYTES;
      var piece := rest[..size];
      assert Pieces(rest, MAX_CHUNK_BYTES) == [piece] + Pieces(rest[size..], MAX_CHUNK_BYTES) by {
        if |rest| <= MAX_CHUNK_BYTES {
          assert rest[..size] == rest && rest[size..] == [];
        }
      }
      var number := |sent'| + 1;
      if recheck(number).Some? {
        return sent', recheck(number);
      }
      if send(number).Some? {
        return sent', send(number);
      }
      sent' := sent' + [piece];
      rest := rest[size..];
    }
    failure := None;
  }

  lemma CutStep(chunks: seq<Provided>, i: nat, sent: seq<seq<byte>>)
    requires i < |chunks| && chunks[i].Chunk?
    ensures sent + Cut(chunks[i..]) == sent + Pieces(chunks[i].bytes, MAX_CHUNK_BYTES) + Cut(chunks[i + 1..])
  {
    assert chunks[i..][1..] == chunks[i + 1..];
  }

  /** The lines of a response before its end line. A failure leaves a prefix. */
  method SendBody(chunks: seq<Provided>, recheck: nat -> Option<RelayError>, send: nat -> Option<RelayError>)
    returns (sent: seq<seq<byte>>, failure: Option<RelayError>)
    ensures sent <= Cut(chunks) && Clear(recheck, send, |sent|)
    ensures failure.None? <==> EndsWell(chunks) && Clear(recheck, send, |Cut(chunks)|)
    ensures failure.None? ==> sent == Cut(chunks)
    ensures failure.None? ==> Broken(chunks).None?
    ensures failure.Some? ==>
      failure == if |sent| < |Cut(chunks)| then Held(recheck, send, |sent| + 1) else Broken(chunks)
  {
    sent := [];
    var i := 0;
    assert chunks[0..] == chunks;
    while i < |chunks|
      invariant 0 <= i <= |chunks| && (forall j :: 0 <= j < i ==> chunks[j].Chunk?)
      invariant sent + Cut(chunks[i..]) == Cut(chunks) && Clear(recheck, send, |sent|)
      invariant Broken(chunks[i..]) == Broken(chunks)
    {
      if !chunks[i].Chunk? {
        return sent, Some(if chunks[i].Failed? then StreamInvalid else IdleTimeout);
      }
      CutStep(chunks, i, sent);
      sent, failure := SendChunk(chunks[i].bytes, sent, recheck, send);
      if failure.Some? {
        return;
      }
      i := i + 1;
    }
    failure := None;
  }

  /** Main result, response: for every provider chunking the lines are numbered
      from 1 without a gap, carry 1 to 32768 bytes each, and run along the
      provider's bytes; the call succeeds if and only if the provider finished and
      no line was held back, and then they are all of its bytes and the end line
      names their number. */
  method Forward(chunks: seq<Provided>, recheck: nat -> Option<RelayError>, send: nat -> Option<RelayError>)
    returns (lines: seq<GatewayLine>, failure: Option<RelayError>)
    ensures failure.None? <==>
      EndsWell(chunks) && Clear(recheck, send, |Cut(chunks)|) && send(|Cut(chunks)| + 1).None?
    ensures failure.None? ==> lines == Numbered(Cut(chunks)) + [ResponseEnd(|Cut(chunks)|)]
    ensures failure.Some? ==> lines <= Numbered(Cut(chunks)) && Clear(recheck, send, |lines|)
    ensures failure.Some? ==>
      failure == if |lines| < |Cut(chunks)| then Held(recheck, send, |lines| + 1)
                 else if Broken(chunks).Some? then Broken(chunks) else send(|lines| + 1)
    ensures Concat(Cut(chunks)) == Body(chunks)
    ensures failure.None? ==>
      var n := |lines| - 1;
      n >= 0 && lines[n] == ResponseEnd(n) && InSequence(lines[..n]) && Carried(lines[..n]) == Body(chunks)
    ensures failure.Some? ==> InSequence(lines) && Carried(lines) <= Body(chunks)
  {
    CutRejoins(chunks);
    var sent;
    sent, failure := SendBody(chunks, recheck, send);
    lines := Numbered(sent);
    CarriesPieces(sent);
    ConcatPrefix(sent, Cut(chunks));
    if failure.None? {
      failure := send(|sent| + 1);
      if failure.None? {
        assert (lines + [ResponseEnd(|sent|)])[..|sent|] == lines;
        lines := lines + [ResponseEnd(|sent|)];
      }
    }
  }
}
