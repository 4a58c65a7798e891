/** Answers to a push: the refusal sent before anything is unpacked, and the
    notices added to an answer git has already written. */
module Refusal {
  import opened Prelude
  import opened Chunks
  import opened Utf8
  import opened PktLine

  /** What goes on band 1 in one packet. */
  const STATUS_BYTES := 60000

  // ---- The report ----

  function Unpack(): seq<byte> {
    Encode(Ascii("unpack branch policy refused before unpacking\n"))
  }

  /** Why one ref was not updated. */
  function Reason(ref: Text, blocked: Text, message: Text): Text {
    if ref == blocked then Clean(message)
    else Ascii("batch not updated because ") + blocked + Ascii(" was refused; retry this ref separately")
  }

  function Prefix(ref: Text): Text {
    Ascii("ng ") + ref + Ascii(" ")
  }

  /** How much of a reason fits beside the ref in one packet. */
  function Budget(ref: Text): nat {
    Max(0, 65516 - (|Encode(Prefix(ref))| + 1))
  }

  function Shown(ref: Text, blocked: Text, message: Text): Text {
    Fit(Reason(ref, blocked, message), Budget(ref))
  }

  function Refused(ref: Text, blocked: Text, message: Text): seq<byte> {
    Encode(Prefix(ref)) + Encode(Shown(ref, blocked, message)) + [10]
  }

  function AllRefused(refs: seq<Text>, blocked: Text, message: Text): seq<seq<byte>> {
    seq(|refs|, i requires 0 <= i < |refs| => Refused(refs[i], blocked, message))
  }

  function Lines(refs: seq<Text>, blocked: Text, message: Text): seq<seq<byte>> {
    [Unpack()] + AllRefused(refs, blocked, message)
  }

  function Report(refs: seq<Text>, blocked: Text, message: Text): seq<byte> {
    PrintAll(Lines(refs, blocked, message)) + FLUSH
  }

  lemma {:induction false} AsciiLength(s: string)
    ensures |Encode(Ascii(s))| == |s|
  {
    if s != "" {
      AsciiLength(s[1..]);
      assert Ascii(s)[1..] == Ascii(s[1..]);
    }
  }

  lemma PrefixLength(ref: Text)
    ensures |Encode(Prefix(ref))| == |Encode(ref)| + 4
  {
    EncodeAppend(Ascii("ng ") + ref, Ascii(" "));
    EncodeAppend(Ascii("ng "), ref);
    AsciiLength("ng ");
    AsciiLength(" ");
  }

  lemma RefusedFits(ref: Text, blocked: Text, message: Text)
    ensures |Refused(ref, blocked, message)| + 4 <= MAX_PACKET <==> |Encode(ref)| <= 65511
  {
    PrefixLength(ref);
    EncodeFit(Reason(ref, blocked, message), Budget(ref));
  }

  lemma UnpackFits()
    ensures |Unpack()| + 4 <= MAX_PACKET
  {
    AsciiLength("unpack branch policy refused before unpacking\n");
  }

  /** Every ref name leaves room for its line. */
  predicate NamesFit(refs: seq<Text>) {
    forall i :: 0 <= i < |refs| ==> |Encode(refs[i])| <= 65511
  }

  lemma FitBehind(first: seq<byte>, rest: seq<seq<byte>>)
    ensures AllFit([first] + rest) <==> |first| + 4 <= MAX_PACKET && AllFit(rest)
  {
    var all := [first] + rest;
    assert all[0] == first && forall i :: 0 <= i < |rest| ==> all[i + 1] == rest[i];
  }

  lemma LinesFit(refs: seq<Text>, blocked: Text, message: Text)
    ensures AllFit(Lines(refs, blocked, message)) <==> NamesFit(refs)
  {
    UnpackFits();
    var refused := AllRefused(refs, blocked, message);
    FitBehind(Unpack(), refused);
    forall i | 0 <= i < |refs|
      ensures |refused[i]| + 4 <= MAX_PACKET <==> |Encode(refs[i])| <= 65511
    {
      RefusedFits(refs[i], blocked, message);
    }
  }

  /** Main result: the report reads back as one line per ref, in order, exactly
      when every ref name leaves room for its line. */
  lemma ReportReadsBack(refs: seq<Text>, blocked: Text, message: Text)
    ensures Parse(Report(refs, blocked, message)) == Some(Datas(Lines(refs, blocked, message)) + [Flush])
            <==> NamesFit(refs)
  {
    ReadsBackExactlyWhenAllFit(Lines(refs, blocked, message));
    LinesFit(refs, blocked, message);
  }

  /** A push command as a packet carries it: two object ids and the ref name,
      each behind a space, under a length of four hexadecimal digits. */
  predicate Carried(packet: seq<byte>, ref: Text) {
    && |packet| >= 86 && HexValue(packet[..4]) == Some(|packet|)
    && Encode(ref) <= packet[86..]
  }

  /** Every name came out of such a packet. */
  predicate Received(refs: seq<Text>, packets: seq<seq<byte>>) {
    |packets| == |refs| && forall i :: 0 <= i < |refs| ==> Carried(packets[i], refs[i])
  }

  /** Main result: the report of every push that could be received reads back. */
  lemma ReceivedReportReadsBack(refs: seq<Text>, packets: seq<seq<byte>>, blocked: Text, message: Text)
    requires Received(refs, packets)
    ensures Parse(Report(refs, blocked, message)) == Some(Datas(Lines(refs, blocked, message)) + [Flush])
  {
    forall i | 0 <= i < |refs|
      ensures |Encode(refs[i])| <= 65511
    {
      assert Carried(packets[i], refs[i]);
    }
    ReportReadsBack(refs, blocked, message);
  }

  // ---- Side-band ----

  /** One line the client prints. */
  function Notice(line: Text): seq<byte> {
    Encode(Clean(line)) + [10]
  }

  function Notices(lines: seq<Text>): (r: seq<seq<byte>>)
    ensures |r| == |lines| && forall i :: 0 <= i < |r| ==> r[i] == Notice(lines[i])
  {
    seq(|lines|, i requires 0 <= i < |lines| => Notice(lines[i]))
  }

  lemma NoticeFits(line: Text)
    ensures |Notice(line)| <= 16001
    ensures 10 !in Notice(line)[..|Notice(line)| - 1]
  {
    EncodeLength(Clean(line));
    NoNewline(Clean(line));
  }

  /** The message, then each refused ref with its reason, 64 of them at most. */
  function Progress(refs: seq<Text>, blocked: Text, message: Text): seq<Text> {
    [Clean(message)] + Entries(if |refs| <= 64 then refs else refs[..64], blocked, message)
  }

  function Entries(refs: seq<Text>, blocked: Text, message: Text): (r: seq<Text>)
    ensures |r| == |refs|
  {
    seq(|refs|, i requires 0 <= i < |refs| => Entry(refs[i], blocked, message))
  }

  function Entry(ref: Text, blocked: Text, message: Text): Text {
    ref + Ascii(": ") + Shown(ref, blocked, message)
  }

  lemma EntriesSnoc(refs: seq<Text>, ref: Text, blocked: Text, message: Text)
    ensures Entries(refs + [ref], blocked, message) == Entries(refs, blocked, message) + [Entry(ref, blocked, message)]
  {
  }

  lemma ProgressGrows(refs: seq<Text>, blocked: Text, message: Text, i: nat)
    requires i < |refs| && i < 64
    ensures Progress(refs[..i + 1], blocked, message) ==
            Progress(refs[..i], blocked, message) + [Entry(refs[i], blocked, message)]
  {
    EntriesSnoc(refs[..i], refs[i], blocked, message);
    assert refs[..i + 1] == refs[..i] + [refs[i]];
  }

  lemma ProgressStops(refs: seq<Text>, blocked: Text, message: Text, i: nat)
    requires 64 <= i < |refs|
    ensures Progress(refs[..i + 1], blocked, message) == Progress(refs[..i], blocked, message)
  {
    assert refs[..i + 1][..64] == refs[..64];
    if i == 64 {
      assert refs[..i] == refs[..64];
    } else {
      assert refs[..i][..64] == refs[..64];
    }
  }

  lemma ProgressStep(refs: seq<Text>, blocked: Text, message: Text, i: nat)
    requires i < |refs|
    ensures |Progress(refs[..i], blocked, message)| == 1 + Min(i, 64)
    ensures Progress(refs[..i + 1], blocked, message) ==
            if i < 64 then Progress(refs[..i], blocked, message) + [Entry(refs[i], blocked, message)]
            else Progress(refs[..i], blocked, message)
  {
    if i < 64 {
      ProgressGrows(refs, blocked, message, i);
    } else {
      ProgressStops(refs, blocked, message, i);
    }
  }

  function Multiplexed(progress: seq<Text>, report: seq<byte>): seq<byte> {
    PrintAll(On(2, Notices(progress))) + PrintAll(On(1, Pieces(report, STATUS_BYTES))) + FLUSH
  }

  lemma NoticesFit(lines: seq<Text>)
    ensures AllFit(On(2, Notices(lines)))
  {
    forall i | 0 <= i < |lines|
      ensures |On(2, Notices(lines))[i]| + 4 <= MAX_PACKET
    {
      NoticeFits(lines[i]);
    }
  }

  /** Main result: whatever is refused, the answer is packets within the limit
      and a final flush; band 1 gives back the report and band 2 the lines. */
  lemma RefusalDemultiplexes(progress: seq<Text>, report: seq<byte>)
    ensures
      var packets := Datas(On(2, Notices(progress))) + Datas(On(1, Pieces(report, STATUS_BYTES))) + [Flush];
      && Parse(Multiplexed(progress, report)) == Some(packets)
      && Band(1, packets) == report
      && Band(2, packets) == Concat(Notices(progress))
  {
    var two, one := On(2, Notices(progress)), On(1, Pieces(report, STATUS_BYTES));
    NoticesFit(progress);
    ParsePrinted(two);
    ParsePrinted(one);
    ParseFlush();
    ParseAppend(PrintAll(two), PrintAll(one));
    ParseAppend(PrintAll(two) + PrintAll(one), FLUSH);
    BandsOf(1, Notices(progress), Pieces(report, STATUS_BYTES));
    BandsOf(2, Notices(progress), Pieces(report, STATUS_BYTES));
    PiecesRejoin(report, STATUS_BYTES);
  }

  lemma BandsOf(n: byte, two: seq<seq<byte>>, one: seq<seq<byte>>)
    requires n == 1 || n == 2
    ensures Band(n, Datas(On(2, two)) + Datas(On(1, one)) + [Flush]) == if n == 1 then Concat(one) else Concat(two)
  {
    BandOf(n, 2, two);
    BandOf(n, 1, one);
    BandAppend(n, Datas(On(2, two)), Datas(On(1, one)));
    BandFlush(n, Datas(On(2, two)) + Datas(On(1, one)));
  }

  // ---- Building the answer ----

  method Truncated(reason: Text, ref: Text) returns (shown: seq<byte>)
    ensures shown == Encode(Fit(reason, Budget(ref)))
  {
    var bytes := Encode(reason);
    var end := Truncate(bytes, Budget(ref), reason);
    shown := bytes[..end];
  }

  method BuildLine(ref: Text, blocked: Text, message: Text) returns (line: seq<byte>)
    ensures line == Refused(ref, blocked, message)
  {
    var shown := Truncated(Reason(ref, blocked, message), ref);
    line := Encode(Prefix(ref)) + shown + [10];
  }

  lemma LineAt(refs: seq<Text>, blocked: Text, message: Text, i: nat)
    requires i < |refs|
    ensures Lines(refs, blocked, message)[i + 1] == Refused(refs[i], blocked, message)
  {
  }

  /** `report` is the lines up to and with the `i`th ref's. */
  ghost predicate Reported(report: seq<byte>, refs: seq<Text>, blocked: Text, message: Text, i: nat) {
    i <= |refs| && report == PrintAll(Lines(refs, blocked, message)[..i + 1])
  }

  lemma ReportedNext(report: seq<byte>, refs: seq<Text>, blocked: Text, message: Text, i: nat)
    requires i < |refs| && Reported(report, refs, blocked, message, i)
    ensures Reported(report + Print(Refused(refs[i], blocked, message)), refs, blocked, message, i + 1)
  {
    LineAt(refs, blocked, message, i);
    PrintSnoc(Lines(refs, blocked, message), i + 1);
  }

  lemma ReportedEnds(report: seq<byte>, refs: seq<Text>, blocked: Text, message: Text)
    ensures Reported(Print(Unpack()), refs, blocked, message, 0)
    ensures Reported(report, refs, blocked, message, |refs|) ==> report + FLUSH == Report(refs, blocked, message)
  {
    var all := Lines(refs, blocked, message);
    PrintSnoc(all, 0);
    assert PrintAll(all[..0]) == [];
    assert all[..|refs| + 1] == all;
  }

  method BuildReport(refs: seq<Text>, blocked: Text, message: Text) returns (report: seq<byte>)
    ensures report == Report(refs, blocked, message)
  {
    report := Print(Unpack());
    ReportedEnds(report, refs, blocked, message);
    for i := 0 to |refs|
      invariant Reported(report, refs, blocked, message, i)
    {
      var line := BuildLine(refs[i], blocked, message);
      ReportedNext(report, refs, blocked, message, i);
      report := report + Print(line);
    }
    ReportedEnds(report, refs, blocked, message);
    report := report + FLUSH;
  }

  method BuildProgress(refs: seq<Text>, blocked: Text, message: Text) returns (progress: seq<Text>)
    ensures progress == Progress(refs, blocked, message)
  {
    progress := [Clean(message)];
    for i := 0 to |refs|
      invariant progress == Progress(refs[..i], blocked, message)
    {
      ProgressStep(refs, blocked, message, i);
      if |progress| <= 64 {
        progress := progress + [Entry(refs[i], blocked, message)];
      }
    }
    assert refs[..|refs|] == refs;
  }

  function NoticePacket(line: Text): seq<byte> {
    Print([2] + Notice(line))
  }

  lemma NoticesSnoc(lines: seq<Text>, i: nat)
    requires i < |lines|
    ensures PrintAll(On(2, Notices(lines[..i + 1]))) == PrintAll(On(2, Notices(lines[..i]))) + NoticePacket(lines[i])
  {
    var all := On(2, Notices(lines[..i + 1]));
    PrintSnoc(all, i);
    assert all[..i + 1] == all && all[..i] == On(2, Notices(lines[..i])) && all[i] == [2] + Notice(lines[i]);
  }

  /** `out` is `body` and the notices before the `i`th. */
  ghost predicate Noticed(out: seq<byte>, body: seq<byte>, lines: seq<Text>, i: nat) {
    i <= |lines| && out == body + PrintAll(On(2, Notices(lines[..i])))
  }

  lemma NoticedAll(out: seq<byte>, body: seq<byte>, lines: seq<Text>)
    ensures Noticed(body, body, lines, 0)
    ensures Noticed(out, body, lines, |lines|) <==> out == body + PrintAll(On(2, Notices(lines)))
  {
    assert lines[..|lines|] == lines;
    assert On(2, Notices(lines[..0])) == [];
  }

  lemma NoticedNext(out: seq<byte>, lines: seq<Text>, i: nat, body: seq<byte>)
    requires i < |lines| && Noticed(out, body, lines, i)
    ensures Noticed(out + NoticePacket(lines[i]), body, lines, i + 1)
  {
    NoticesSnoc(lines, i);
    Regroup(body, PrintAll(On(2, Notices(lines[..i]))), NoticePacket(lines[i]));
  }

  method AddNotice(out: seq<byte>, lines: seq<Text>, i: nat, ghost body: seq<byte>) returns (longer: seq<byte>)
    requires i < |lines| && Noticed(out, body, lines, i)
    ensures Noticed(longer, body, lines, i + 1)
  {
    NoticedNext(out, lines, i, body);
    longer := out + NoticePacket(lines[i]);
  }

  method AddNotices(body: seq<byte>, lines: seq<Text>) returns (out: seq<byte>)
    ensures out == body + PrintAll(On(2, Notices(lines)))
  {
    NoticedAll(body, body, lines);
    out := body;
    for i := 0 to |lines|
      invariant Noticed(out, body, lines, i)
    {
      out := AddNotice(out, lines, i, body);
    }
    NoticedAll(out, body, lines);
  }

  /** `out` is `body` and the first `i` pieces on band 1. */
  ghost predicate Banded(out: seq<byte>, body: seq<byte>, pieces: seq<seq<byte>>, i: nat) {
    i <= |pieces| && out == body + PrintAll(On(1, pieces)[..i])
  }

  lemma BandedNext(out: seq<byte>, body: seq<byte>, pieces: seq<seq<byte>>, i: nat)
    requires i < |pieces| && Banded(out, body, pieces, i)
    ensures Banded(out + Print([1] + pieces[i]), body, pieces, i + 1)
  {
    PrintSnoc(On(1, pieces), i);
    Regroup(body, PrintAll(On(1, pieces)[..i]), Print([1] + pieces[i]));
  }

  method AddStatus(body: seq<byte>, report: seq<byte>) returns (out: seq<byte>)
    ensures out == body + PrintAll(On(1, Pieces(report, STATUS_BYTES)))
  {
    out := body;
    var chunks := Pieces(report, STATUS_BYTES);
    assert PrintAll(On(1, chunks)[..0]) == [];
    for i := 0 to |chunks|
      invariant Banded(out, body, chunks, i)
    {
      BandedNext(out, body, chunks, i);
      out := out + Print([1] + chunks[i]);
    }
    assert On(1, chunks)[..|chunks|] == On(1, chunks);
  }

  method ReceivePackRefusal(refs: seq<Text>, blocked: Text, message: Text, sideband: bool) returns (body: seq<byte>)
    ensures !sideband ==> body == Report(refs, blocked, message)
    ensures sideband ==> body == Multiplexed(Progress(refs, blocked, message), Report(refs, blocked, message))
    ensures !sideband && NamesFit(refs) ==> Parse(body).Some? && SaysWhy(Parse(body).value, refs, blocked, message)
    ensures sideband ==> Parse(body).Some? && Prints(Parse(body).value, refs, blocked, message)
    ensures sideband && NamesFit(refs) ==>
              var report := Parse(Band(1, Parse(body).value));
              report.Some? && SaysWhy(report.value, refs, blocked, message)
  {
    body := BuildReport(refs, blocked, message);
    if sideband {
      var progress := BuildProgress(refs, blocked, message);
      var notices := AddNotices([], progress);
      assert notices == PrintAll(On(2, Notices(progress)));
      body := AddStatus(notices, body);
      body := body + FLUSH;
      RefusalSays(refs, blocked, message, body);
    }
    if NamesFit(refs) {
      ReportSaysWhy(refs, blocked, message);
    }
  }

  // ---- What the answer says ----

  /** `kept` is the longest run of whole characters of `full` within the budget. */
  predicate LongestWithin(kept: Text, full: Text, budget: nat) {
    && kept <= full && |Encode(kept)| <= budget
    && forall k :: |kept| < k <= |full| ==> |Encode(full[..k])| > budget
  }

  /** As much as a line of 65516 bytes has room for: of the message if the ref is
      the blocked one, and of which one was blocked if not. */
  predicate Explains(kept: Text, ref: Text, blocked: Text, message: Text) {
    var room := Max(0, 65516 - 3 - |Encode(ref)| - 1 - 1);
    && (ref == blocked ==> LongestWithin(kept, Clean(message), room))
    && (ref != blocked ==> LongestWithin(kept,
          Ascii("batch not updated because ") + blocked + Ascii(" was refused; retry this ref separately"), room))
  }

  lemma FitIsLongestWithin(full: Text, budget: nat)
    ensures LongestWithin(Fit(full, budget), full, budget)
  {
    EncodeFit(full, budget);
    forall k | |Fit(full, budget)| < k <= |full| ensures |Encode(full[..k])| > budget {
      if |Encode(full[..k])| <= budget {
        FitIsLongest(full, budget, k);
      }
    }
  }

  lemma ShownExplains(ref: Text, blocked: Text, message: Text)
    ensures Explains(Shown(ref, blocked, message), ref, blocked, message)
  {
    PrefixLength(ref);
    FitIsLongestWithin(Reason(ref, blocked, message), Budget(ref));
  }

  /** The line that refuses one ref. */
  ghost predicate SaysNo(payload: seq<byte>, ref: Text, blocked: Text, message: Text) {
    exists kept :: Explains(kept, ref, blocked, message)
      && payload == Encode(Ascii("ng ") + ref + Ascii(" ") + kept) + [10]
  }

  lemma RefusedSaysNo(ref: Text, blocked: Text, message: Text)
    ensures SaysNo(Refused(ref, blocked, message), ref, blocked, message)
  {
    ShownExplains(ref, blocked, message);
    EncodeAppend(Prefix(ref), Shown(ref, blocked, message));
  }

  /** The unpack line, one line for each ref in order, and a flush. */
  ghost predicate SaysWhy(packets: seq<Packet>, refs: seq<Text>, blocked: Text, message: Text) {
    && |packets| == |refs| + 2 && packets[|refs| + 1] == Flush
    && packets[0] == Data(Encode(Ascii("unpack branch policy refused before unpacking\n")))
    && forall i :: 0 <= i < |refs| ==> SaysNoAt(packets, refs, blocked, message, i)
  }

  ghost predicate SaysNoAt(packets: seq<Packet>, refs: seq<Text>, blocked: Text, message: Text, i: nat) {
    i < |refs| && i + 1 < |packets| && packets[i + 1].Data? && SaysNo(packets[i + 1].payload, refs[i], blocked, message)
  }

  /** Main result: what the client reads in the report. */
  lemma ReportSaysWhy(refs: seq<Text>, blocked: Text, message: Text)
    requires NamesFit(refs)
    ensures Parse(Report(refs, blocked, message)).Some?
    ensures SaysWhy(Parse(Report(refs, blocked, message)).value, refs, blocked, message)
  {
    ReportReadsBack(refs, blocked, message);
    LinesSayWhy(Datas(Lines(refs, blocked, message)) + [Flush], refs, blocked, message);
  }

  lemma LineSaysNo(lines: seq<seq<byte>>, refs: seq<Text>, blocked: Text, message: Text, i: nat)
    requires i < |refs| && |lines| == |refs| + 1 && lines[i + 1] == Refused(refs[i], blocked, message)
    ensures SaysNoAt(Datas(lines) + [Flush], refs, blocked, message, i)
  {
    RefusedSaysNo(refs[i], blocked, message);
    assert (Datas(lines) + [Flush])[i + 1] == Data(lines[i + 1]);
  }

  lemma LinesSayWhy(packets: seq<Packet>, refs: seq<Text>, blocked: Text, message: Text)
    requires packets == Datas(Lines(refs, blocked, message)) + [Flush]
    ensures SaysWhy(packets, refs, blocked, message)
  {
    var lines := Lines(refs, blocked, message);
    forall i | 0 <= i < |refs| ensures SaysNoAt(packets, refs, blocked, message, i) {
      LineAt(refs, blocked, message, i);
      LineSaysNo(lines, refs, blocked, message, i);
    }
    Ends(lines, packets);
  }

  lemma Ends(lines: seq<seq<byte>>, packets: seq<Packet>)
    requires lines != [] && packets == Datas(lines) + [Flush]
    ensures |packets| == |lines| + 1 && packets[0] == Data(lines[0]) && packets[|lines|] == Flush
  {
  }

  /** A band 2 packet with that line, cleaned. */
  predicate PrintsLine(packet: Packet, line: Text) {
    packet == Data([2] + Encode(Clean(line)) + [10])
  }

  /** The line names the ref and says why. */
  ghost predicate PrintsWhy(packet: Packet, ref: Text, blocked: Text, message: Text) {
    exists kept :: Explains(kept, ref, blocked, message) && PrintsLine(packet, ref + Ascii(": ") + kept)
  }

  ghost predicate PrintsWhyAt(packets: seq<Packet>, refs: seq<Text>, blocked: Text, message: Text, i: nat) {
    i < |refs| && i + 1 < |packets| && PrintsWhy(packets[i + 1], refs[i], blocked, message)
  }

  /** First the message, then a line for each of the first 64 refs, then band 1 alone. */
  ghost predicate Prints(packets: seq<Packet>, refs: seq<Text>, blocked: Text, message: Text) {
    var n := Min(|refs|, 64);
    && |packets| >= n + 2 && packets[|packets| - 1] == Flush && PrintsLine(packets[0], message)
    && (forall i :: 0 <= i < n ==> PrintsWhyAt(packets, refs, blocked, message, i))
    && (forall i :: n < i < |packets| - 1 ==> OnBandOne(packets[i]))
    && forall i :: n < i < |packets| - 2 ==> packets[i].Data? && |packets[i].payload| == 60001
  }

  /** At most 60000 bytes of the report, behind the number of its band. */
  predicate OnBandOne(packet: Packet) {
    packet.Data? && 1 < |packet.payload| <= 60001 && packet.payload[0] == 1
  }

  lemma CleanTwice(message: Text)
    ensures Clean(Clean(message)) == Clean(message)
  {
    var once := Clean(message);
    forall c | c in once ensures !IsControl(c) {
      assert c in Printable(message);
    }
  }

  lemma NoticeAt(progress: seq<Text>, parts: seq<seq<byte>>, i: nat)
    requires i < |progress|
    ensures
      var packets := Datas(On(2, Notices(progress))) + Datas(On(1, parts)) + [Flush];
      i < |packets| && PrintsLine(packets[i], progress[i])
  {
    var packets := Datas(On(2, Notices(progress))) + Datas(On(1, parts)) + [Flush];
    assert packets[i] == Data([2] + Notice(progress[i]));
    assert [2] + (Encode(Clean(progress[i])) + [10]) == [2] + Encode(Clean(progress[i])) + [10];
  }

  /** Main result: what the client reads on each band of the refusal. */
  lemma RefusalSays(refs: seq<Text>, blocked: Text, message: Text, body: seq<byte>)
    requires body == Multiplexed(Progress(refs, blocked, message), Report(refs, blocked, message))
    ensures Parse(body).Some? && Prints(Parse(body).value, refs, blocked, message)
    ensures Band(1, Parse(body).value) == Report(refs, blocked, message)
  {
    var progress, report := Progress(refs, blocked, message), Report(refs, blocked, message);
    RefusalDemultiplexes(progress, report);
    ProgressPrints(refs, blocked, message, Pieces(report, STATUS_BYTES));
  }

  /** Pieces of 60000 bytes, the last one perhaps shorter. */
  predicate InPieces(parts: seq<seq<byte>>) {
    && (forall i :: 0 <= i < |parts| ==> 1 <= |parts[i]| <= 60000)
    && forall i :: 0 <= i < |parts| - 1 ==> |parts[i]| == 60000
  }

  lemma ProgressPrints(refs: seq<Text>, blocked: Text, message: Text, parts: seq<seq<byte>>)
    requires InPieces(parts)
    ensures Prints(Datas(On(2, Notices(Progress(refs, blocked, message)))) + Datas(On(1, parts)) + [Flush],
                   refs, blocked, message)
  {
    var progress := Progress(refs, blocked, message);
    var packets := Datas(On(2, Notices(progress))) + Datas(On(1, parts)) + [Flush];
    NoticeAt(progress, parts, 0);
    CleanTwice(message);
    forall i | 0 <= i < Min(|refs|, 64) ensures PrintsWhyAt(packets, refs, blocked, message, i) {
      NoticeAt(progress, parts, i + 1);
      ShownExplains(refs[i], blocked, message);
      assert progress[i + 1] == Entry(refs[i], blocked, message);
    }
  }

  // ---- Adding to an answer ----

  predicate EndsInZeros(body: seq<byte>) {
    |body| >= 4 && body[|body| - 4..] == FLUSH
  }

  function Appended(body: seq<byte>, lines: seq<Text>): seq<byte> {
    if lines == [] || !EndsInZeros(body) then body
    else body[..|body| - 4] + PrintAll(On(2, Notices(lines))) + FLUSH
  }

  method AppendSideband(body: seq<byte>, lines: seq<Text>) returns (out: seq<byte>)
    ensures out == Appended(body, lines)
  {
    if lines == [] || !EndsInZeros(body) {
      return body;
    }
    out := AddNotices(body[..|body| - 4], lines);
    out := out + FLUSH;
  }

  predicate EndsInFlush(packets: seq<Packet>) {
    packets != [] && packets[|packets| - 1].Flush?
  }

  /** `k` is where the last packet of the stream starts. */
  predicate LastAt(s: seq<byte>, k: nat) {
    && k < |s| && First(s[k..]).Some? && First(s[k..]).value.1 == |s| - k
    && Parse(s[..k]).Some? && Parse(s) == Some(Parse(s[..k]).value + [First(s[k..]).value.0])
  }

  /** The stream is well-formed up to `k` and from there on. */
  predicate CutAt(s: seq<byte>, k: nat) {
    k < |s| && Parse(s[..k]).Some? && Parse(s[k..]).Some?
  }

  /** The first packet of a well-formed stream, and what is left. */
  lemma ReadsOn(s: seq<byte>) returns (n: nat)
    requires Parse(s).Some? && s != []
    ensures First(s).Some? && n == First(s).value.1 && 0 < n <= |s| && Parse(s[n..]).Some?
  {
    n := First(s).value.1;
  }

  /** The cut can be moved behind the next packet. */
  lemma CutNext(s: seq<byte>, k: nat, n: nat)
    requires CutAt(s, k) && First(s[k..]).Some? && n == First(s[k..]).value.1 && k + n < |s|
    requires Parse(s[k..][n..]).Some?
    ensures CutAt(s, k + n)
  {
    FirstOfPrefix(s[k..], n);
    JoinLast(s[..k], s[k..][..n]);
    Slices(s, k, n);
  }

  lemma CutIsLast(s: seq<byte>, k: nat)
    requires CutAt(s, k) && First(s[k..]).Some? && First(s[k..]).value.1 == |s| - k
    ensures LastAt(s, k)
  {
    JoinedIsLast(s[..k], s[k..]);
    assert s[..k] + s[k..] == s;
  }

  lemma JoinedIsLast(front: seq<byte>, packet: seq<byte>)
    requires Parse(front).Some? && First(packet).Some? && First(packet).value.1 == |packet|
    ensures LastAt(front + packet, |front|)
  {
    JoinLast(front, packet);
    assert (front + packet)[..|front|] == front && (front + packet)[|front|..] == packet;
  }

  lemma JoinLast(front: seq<byte>, packet: seq<byte>)
    requires Parse(front).Some? && First(packet).Some? && First(packet).value.1 == |packet|
    ensures Parse(front + packet) == Some(Parse(front).value + [First(packet).value.0])
  {
    OnlyPacket(packet);
    ParseAppend(front, packet);
  }

  lemma LastFrom(s: seq<byte>, k: nat) returns (last: nat)
    requires CutAt(s, k)
    ensures LastAt(s, last)
  {
    last := k;
    while true
      invariant CutAt(s, last)
      decreases |s| - last
    {
      var n := ReadsOn(s[last..]);
      if last + n == |s| {
        CutIsLast(s, last);
        return;
      }
      CutNext(s, last, n);
      last := last + n;
    }
  }

  /** Every well-formed stream has a last packet, and is well-formed before it. */
  lemma LastPacket(s: seq<byte>) returns (k: nat)
    requires Parse(s).Some? && s != []
    ensures LastAt(s, k)
  {
    assert s[0..] == s && s[..0] == [];
    k := LastFrom(s, 0);
  }

  lemma Slices(s: seq<byte>, n: nat, j: nat)
    requires n + j <= |s|
    ensures s[n..][j..] == s[n + j..] && s[..n + j] == s[..n] + s[n..][..j]
  {
  }

  lemma FirstOfPrefix(s: seq<byte>, k: nat)
    requires First(s).Some? && First(s).value.1 <= k <= |s|
    ensures First(s[..k]) == First(s)
  {
    assert s[..k][..4] == s[..4];
    var n := HexValue(s[..4]).value;
    assert n > 0 ==> s[..k][4..n] == s[4..n];
  }

  lemma ZeroHex(s: seq<byte>)
    requires |s| == 4 && HexValue(s) == Some(0)
    ensures s == FLUSH
  {
  }

  /** A data packet that ends in zeros holds them in its payload. */
  lemma ZerosAreData(t: seq<byte>)
    requires EndsInZeros(t) && First(t).Some? && First(t).value.0.Data? && First(t).value.1 == |t|
    ensures |t| >= 8
  {
  }

  lemma {:induction false} StartsWithFirst(payloads: seq<seq<byte>>)
    requires payloads != []
    ensures Print(payloads[0]) <= PrintAll(payloads)
  {
    var n := |payloads| - 1;
    if n > 0 {
      StartsWithFirst(payloads[..n]);
    } else {
      assert PrintAll(payloads[..n]) == [];
    }
  }

  /** Four bytes into the added text comes the band number, which is no digit. */
  lemma AddedText(lines: seq<Text>)
    requires lines != []
    ensures |PrintAll(On(2, Notices(lines)))| > 4 && PrintAll(On(2, Notices(lines)))[4] == 2
  {
    var all := On(2, Notices(lines));
    StartsWithFirst(all);
    NoticeFits(lines[0]);
    HexBack(|all[0]| + 4);
    assert Print(all[0])[4] == all[0][0];
  }

  /** Text in place of the last four bytes of a data packet cannot be read. */
  lemma BrokenPacket(t: seq<byte>, added: seq<byte>)
    requires EndsInZeros(t) && First(t).Some? && First(t).value.0.Data? && First(t).value.1 == |t|
    requires |added| > 4 && added[4] == 2
    ensures Parse(t[..|t| - 4] + added).None?
  {
    ZerosAreData(t);
    var x, n := t[..|t| - 4] + added, |t|;
    assert x[..4] == t[..4];
    assert First(x) == Some((Data(x[4..n]), n));
    var rest := x[n..];
    assert rest[0] == 2 && (|rest| >= 4 ==> rest[..4][0] == 2);
    assert First(rest).None?;
  }

  lemma FlushIsLast(body: seq<byte>, k: nat)
    requires k < |body| && First(body[k..]) == Some((Flush, |body| - k))
    ensures EndsInZeros(body) && k == |body| - 4
  {
    assert body[k..][..4] == body[k..];
    ZeroHex(body[k..]);
  }

  /** The packets before the flush stay, the parts follow on band 2, the flush ends it. */
  ghost predicate AddsOnly(before: seq<Packet>, after: Option<seq<Packet>>, parts: seq<seq<byte>>) {
    && before != []
    && after == Some(before[..|before| - 1] + Datas(On(2, parts)) + [Flush])
    && Band(1, after.value) == Band(1, before)
    && Band(2, after.value) == Band(2, before) + Concat(parts)
  }

  lemma BandsAdded(n: byte, front: seq<Packet>, added: seq<Packet>)
    ensures Band(n, front + added + [Flush]) == Band(n, front + [Flush]) + Band(n, added)
  {
    BandAppend(n, front, added);
    BandFlush(n, front + added);
    BandFlush(n, front);
  }

  lemma BandFlush(n: byte, front: seq<Packet>)
    ensures Band(n, front + [Flush]) == Band(n, front)
  {
    BandAppend(n, front, [Flush]);
    assert Band(n, [Flush]) == Carries(n, Flush) + Band(n, []);
  }

  lemma PacketsAdded(front: seq<byte>, printed: seq<byte>, packets: seq<Packet>)
    requires Parse(front).Some? && Parse(printed) == Some(packets)
    ensures Parse(front + (printed + FLUSH)) == Some(Parse(front).value + packets + [Flush])
  {
    ParseFlush();
    ParseAppend(printed, FLUSH);
    ParseAppend(front, printed + FLUSH);
    Regroup(Parse(front).value, packets, [Flush]);
  }

  lemma Regroup<T>(a: seq<T>, b: seq<T>, c: seq<T>)
    ensures a + (b + c) == a + b + c
  {
  }

  lemma AppendToFlush(front: seq<byte>, parts: seq<seq<byte>>)
    requires Parse(front).Some? && AllFit(On(2, parts))
    ensures AddsOnly(Parse(front).value + [Flush], Parse(front + (PrintAll(On(2, parts)) + FLUSH)), parts)
  {
    var before, added := Parse(front).value, Datas(On(2, parts));
    ParsePrinted(On(2, parts));
    PacketsAdded(front, PrintAll(On(2, parts)), added);
    BandOf(1, 2, parts);
    BandOf(2, 2, parts);
    BandsAdded(1, before, added);
    BandsAdded(2, before, added);
    assert (before + [Flush])[..|before|] == before;
  }

  lemma Rejoin(body: seq<byte>, added: seq<byte>, k: nat)
    requires k + 4 <= |body|
    ensures body[..|body| - 4] + added == body[..k] + (body[k..][..|body[k..]| - 4] + added)
  {
  }

  /** Nor can the stream that packet ends. */
  lemma Spliced(body: seq<byte>, added: seq<byte>, k: nat)
    requires Parse(body).Some? && EndsInZeros(body) && |added| > 4 && added[4] == 2
    requires k < |body| && First(body[k..]).Some? && First(body[k..]).value.1 == |body| - k
    requires Parse(body[..k]).Some? && First(body[k..]).value.0.Data?
    ensures Parse(body[..|body| - 4] + added).None?
  {
    var t := body[k..];
    assert t[|t| - 4..] == body[|body| - 4..];
    BrokenPacket(t, added);
    ParseAppend(body[..k], t[..|t| - 4] + added);
    Rejoin(body, added, k);
  }

  /** The same for any parts put on band 2. */
  lemma AppendReads(body: seq<byte>, parts: seq<seq<byte>>)
    requires Parse(body).Some? && EndsInZeros(body) && AllFit(On(2, parts))
    requires |PrintAll(On(2, parts))| > 4 && PrintAll(On(2, parts))[4] == 2
    ensures
      var after := Parse(body[..|body| - 4] + (PrintAll(On(2, parts)) + FLUSH));
      && (after.Some? <==> EndsInFlush(Parse(body).value))
      && (EndsInFlush(Parse(body).value) ==> AddsOnly(Parse(body).value, after, parts))
  {
    var k := LastPacket(body);
    if First(body[k..]).value.0.Flush? {
      FlushIsLast(body, k);
      AppendToFlush(body[..k], parts);
    } else {
      Spliced(body, PrintAll(On(2, parts)) + FLUSH, k);
    }
  }

  /** Main result: lines added to a well-formed answer that ends in a flush leave
      what was there, band 1 included, and are one band 2 packet each. An answer
      whose last bytes only look like a flush is broken by the addition. */
  lemma AppendReadsExactlyWhen(body: seq<byte>, lines: seq<Text>)
    requires Parse(body).Some? && lines != [] && EndsInZeros(body)
    ensures Parse(Appended(body, lines)).Some? <==> EndsInFlush(Parse(body).value)
    ensures EndsInFlush(Parse(body).value) ==>
              AddsOnly(Parse(body).value, Parse(Appended(body, lines)), Notices(lines))
  {
    NoticesFit(lines);
    AddedText(lines);
    AppendReads(body, Notices(lines));
    Regroup(body[..|body| - 4], PrintAll(On(2, Notices(lines))), FLUSH);
  }

  /** A report whose own flush ends the stream, because the flush of the stream
      itself was never written, is such an answer: it can be read, and no longer
      once lines are added. */
  lemma UnendedReportBreaks(report: seq<byte>, lines: seq<Text>)
    requires EndsInZeros(report) && |report| + 5 <= MAX_PACKET && lines != []
    ensures
      var body := Print([1] + report);
      && Parse(body) == Some([Data([1] + report)]) && Band(1, [Data([1] + report)]) == report
      && EndsInZeros(body) && Parse(Appended(body, lines)).None?
  {
    var payload := [1] + report;
    var body := Print(payload);
    ParseOne(payload);
    assert Band(1, [Data(payload)]) == Carries(1, Data(payload)) + Band(1, []);
    assert body[|body| - 4..] == report[|report| - 4..];
    AppendReadsExactlyWhen(body, lines);
  }

  /** An answer that ends in a flush is taken for one. */
  lemma FlushTakesLines(body: seq<byte>)
    requires Parse(body).Some? && EndsInFlush(Parse(body).value)
    ensures EndsInZeros(body)
  {
    var k := LastPacket(body);
    FlushIsLast(body, k);
  }
}
