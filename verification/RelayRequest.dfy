/** A relayed request from the node's bytes to the provider: the line reader under
    the request body. */
module RelayRequest {
  import opened Prelude
  import LineReader
  import opened RelayBody

  /** `parse_node_line`. */
  type Parser = seq<byte> -> Result<NodeLine, RelayError>

  function ErrorOf(e: LineReader.Error): RelayError {
    match e
    case StreamInvalid => StreamInvalid
    case IdleTimeout => IdleTimeout
  }

  /** What a request meets whose lines the reader hands out before `end`. */
  function ExchangeOf(id: string, lines: seq<seq<byte>>, end: LineReader.Error, parse: Parser,
                      recheck: nat -> Option<RelayError>): Exchange
  {
    Exchange(id, seq(|lines|, i requires 0 <= i < |lines| => parse(lines[i])), ErrorOf(end), recheck)
  }

  /** `sent` is everything of the exchange that may go upstream, and the body ended as told. */
  ghost predicate Relayed(x: Exchange, sent: seq<seq<byte>>, failure: Option<RelayError>) {
    && x.Upload(|sent|) && sent == x.Payloads(|sent|) && !x.Upload(|sent| + 1)
    && failure == if x.Complete(|sent|) then None else Some(x.Fault(|sent|))
  }

  lemma RelayedOnce(x: Exchange, sent: seq<seq<byte>>, failure: Option<RelayError>, sent': seq<seq<byte>>,
                    failure': Option<RelayError>)
    requires Relayed(x, sent, failure) && Relayed(x, sent', failure')
    ensures sent == sent' && failure == failure'
  {
    if |sent| < |sent'| {
      UploadPrefix(x, |sent'|, |sent| + 1);
    } else if |sent'| < |sent| {
      UploadPrefix(x, |sent|, |sent'| + 1);
    }
  }

  /** The request of one node stream; `lines` and `end` are what its reader saw. */
  method Relay(input: seq<LineReader.Arrival>, id: string, parse: Parser, recheck: nat -> Option<RelayError>)
    returns (sent: seq<seq<byte>>, failure: Option<RelayError>, ghost lines: seq<seq<byte>>,
             ghost end: LineReader.Error)
    ensures lines == LineReader.UpToOverlong(LineReader.Lines(LineReader.Bytes(input)))
    ensures end == LineReader.EndOf(LineReader.Bytes(input), LineReader.Stop(input))
    ensures Relayed(ExchangeOf(id, lines, end, parse, recheck), sent, failure)
  {
    var read, stop := LineReader.ReadAll(input);
    var clean;
    sent, clean, failure := Upstream(ExchangeOf(id, read, stop, parse, recheck));
    lines, end := read, stop;
  }

  /** Main result: two chunkings of the node's bytes, with anything after them, send
      the same chunks upstream and end the request the same way. */
  method RelayBoth(a: seq<LineReader.Arrival>, b: seq<LineReader.Arrival>, later: seq<LineReader.Arrival>, id: string,
                   parse: Parser, recheck: nat -> Option<RelayError>)
    returns (sent: seq<seq<byte>>, failure: Option<RelayError>, sent': seq<seq<byte>>, failure': Option<RelayError>)
    requires forall i :: 0 <= i < |a| ==> LineReader.Usable(a[i])
    requires forall i :: 0 <= i < |b| ==> LineReader.Usable(b[i])
    requires LineReader.Joined(a) == LineReader.Joined(b)
    ensures sent == sent' && failure == failure'
  {
    LineReader.ChunksThen(a, later);
    LineReader.ChunksThen(b, later);
    ghost var lines, end, lines', end';
    sent, failure, lines, end := Relay(a + later, id, parse, recheck);
    sent', failure', lines', end' := Relay(b + later, id, parse, recheck);
    RelayedOnce(ExchangeOf(id, lines, end, parse, recheck), sent, failure, sent', failure');
  }
}
