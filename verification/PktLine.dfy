/** Git's pkt-line format (gitprotocol-common, "pkt-line Format") and the
    side-band multiplexing of receive-pack answers (gitprotocol-capabilities,
    "side-band, side-band-64k"). */
module PktLine {
  import opened Prelude
  import opened Chunks

  /** The longest packet, its four-byte length included. */
  const MAX_PACKET := 65520

  const FLUSH: seq<byte> := [48, 48, 48, 48]

  datatype Packet = Flush | Data(payload: seq<byte>)

  function Digit(n: nat): byte
    requires n < 16
  {
    if n < 10 then (48 + n) as byte else (87 + n) as byte
  }

  function DigitValue(b: byte): Option<nat> {
    if 48 <= b <= 57 then Some(b as int - 48)
    else if 97 <= b <= 102 then Some(b as int - 87)
    else if 65 <= b <= 70 then Some(b as int - 55)
    else None
  }

  function Two(n: nat): (r: seq<byte>)
    requires n < 256
    ensures |r| == 2
  {
    [Digit(n / 16), Digit(n % 16)]
  }

  /** `{:04x}`: at least four digits, more when the number needs them. */
  function Hex(n: nat): seq<byte> {
    if n < 65536 then Two(n / 256) + Two(n % 256)
    else Hex(n / 16) + [Digit(n % 16)]
  }

  function HexValue(s: seq<byte>): (n: Option<nat>)
    requires |s| == 4
    ensures n.Some? ==> n.value < 65536
  {
    var a, b, c, d := DigitValue(s[0]), DigitValue(s[1]), DigitValue(s[2]), DigitValue(s[3]);
    if a.Some? && b.Some? && c.Some? && d.Some?
    then Some(4096 * a.value + 256 * b.value + 16 * c.value + d.value) else None
  }

  function Print(payload: seq<byte>): seq<byte> {
    Hex(|payload| + 4) + payload
  }

  function PrintAll(payloads: seq<seq<byte>>): seq<byte> {
    if payloads == [] then [] else PrintAll(payloads[..|payloads| - 1]) + Print(payloads[|payloads| - 1])
  }

  lemma PrintSnoc(payloads: seq<seq<byte>>, i: nat)
    requires i < |payloads|
    ensures PrintAll(payloads[..i + 1]) == PrintAll(payloads[..i]) + Print(payloads[i])
  {
    assert payloads[..i + 1][..i] == payloads[..i];
  }

  // ---- Reading ----

  /** The first packet of a stream and how many bytes it takes. */
  function First(s: seq<byte>): (r: Option<(Packet, nat)>)
    ensures r.Some? ==> 4 <= r.value.1 <= |s|
  {
    if |s| < 4 || HexValue(s[..4]).None? then None
    else
      var n := HexValue(s[..4]).value;
      if n == 0 then Some((Flush, 4))
      else if 4 <= n <= MAX_PACKET && n <= |s| then Some((Data(s[4..n]), n))
      else None
  }

  /** A stream as its packets, or nothing if any of it is malformed. */
  function Parse(s: seq<byte>): Option<seq<Packet>>
    decreases |s|
  {
    if s == [] then Some([])
    else
      var first := First(s);
      if first.None? then None
      else
        var rest := Parse(s[first.value.1..]);
        if rest.None? then None else Some([first.value.0] + rest.value)
  }

  function Datas(payloads: seq<seq<byte>>): seq<Packet> {
    seq(|payloads|, i requires 0 <= i < |payloads| => Data(payloads[i]))
  }

  /** What a receiver collects from one band. */
  function Band(n: byte, packets: seq<Packet>): seq<byte> {
    if packets == [] then []
    else Carries(n, packets[0]) + Band(n, packets[1..])
  }

  function Carries(n: byte, packet: Packet): seq<byte> {
    if packet.Data? && packet.payload != [] && packet.payload[0] == n then packet.payload[1..] else []
  }

  // ---- Printing is undone by reading ----

  lemma DigitBack(n: nat)
    requires n < 16
    ensures DigitValue(Digit(n)) == Some(n)
  {
  }

  lemma TwoBack(n: nat)
    requires n < 256
    ensures DigitValue(Two(n)[0]) == Some(n / 16) && DigitValue(Two(n)[1]) == Some(n % 16)
  {
    DigitBack(n / 16);
    DigitBack(n % 16);
  }

  lemma HexBack(n: nat)
    requires n < 65536
    ensures |Hex(n)| == 4 && HexValue(Hex(n)) == Some(n)
  {
    var high, low := n / 256, n % 256;
    TwoBack(high);
    TwoBack(low);
    FourBack(Two(high), Two(low), high, low);
  }

  /** The number hexadecimal digits of any length stand for. */
  function Number(s: seq<byte>): Option<nat> {
    if s == [] then Some(0)
    else
      var init, digit := Number(s[..|s| - 1]), DigitValue(s[|s| - 1]);
      if init.Some? && digit.Some? then Some(16 * init.value + digit.value) else None
  }

  lemma NumberSnoc(s: seq<byte>, d: byte)
    ensures Number(s + [d]) ==
            if Number(s).Some? && DigitValue(d).Some? then Some(16 * Number(s).value + DigitValue(d).value) else None
  {
    assert (s + [d])[..|s|] == s;
  }

  lemma NumberTwo(s: seq<byte>, n: nat, m: nat)
    requires n < 256 && Number(s) == Some(m)
    ensures Number(s + Two(n)) == Some(256 * m + n)
  {
    TwoBack(n);
    NumberSnoc(s, Digit(n / 16));
    NumberSnoc(s + [Digit(n / 16)], Digit(n % 16));
    assert s + Two(n) == s + [Digit(n / 16)] + [Digit(n % 16)];
  }

  /** Main result: a length is printed as at least four digits of that number. */
  lemma {:induction false} HexIsNumber(n: nat)
    ensures |Hex(n)| >= 4 && Number(Hex(n)) == Some(n)
  {
    if n < 65536 {
      NumberTwo([], n / 256, 0);
      assert [] + Two(n / 256) == Two(n / 256);
      NumberTwo(Two(n / 256), n % 256, n / 256);
    } else {
      HexIsNumber(n / 16);
      DigitBack(n % 16);
      NumberSnoc(Hex(n / 16), Digit(n % 16));
    }
  }

  /** Digits are read in either case, and nothing else is. */
  lemma DigitReadsExactly(b: byte)
    ensures DigitValue(b) == if 48 <= b < 58 then Some(b as int - 48)
                             else if b in [97, 65] then Some(10) else if b in [98, 66] then Some(11)
                             else if b in [99, 67] then Some(12) else if b in [100, 68] then Some(13)
                             else if b in [101, 69] then Some(14) else if b in [102, 70] then Some(15) else None
  {
  }

  lemma FourBack(a: seq<byte>, b: seq<byte>, high: nat, low: nat)
    requires |a| == |b| == 2 && high < 256 && low < 256
    requires DigitValue(a[0]) == Some(high / 16) && DigitValue(a[1]) == Some(high % 16)
    requires DigitValue(b[0]) == Some(low / 16) && DigitValue(b[1]) == Some(low % 16)
    ensures HexValue(a + b) == Some(256 * high + low)
  {
  }

  lemma FirstPrinted(payload: seq<byte>, rest: seq<byte>)
    requires |payload| + 4 <= MAX_PACKET
    ensures First(Print(payload) + rest) == Some((Data(payload), |Print(payload)|))
    ensures (Print(payload) + rest)[|Print(payload)|..] == rest
  {
    HexBack(|payload| + 4);
    assert (Print(payload) + rest)[..4] == Hex(|payload| + 4);
    assert (Print(payload) + rest)[4..|payload| + 4] == payload;
  }

  /** What the first packet of a stream is does not depend on what follows it. */
  lemma FirstExtends(a: seq<byte>, b: seq<byte>)
    requires First(a).Some?
    ensures First(a + b) == First(a) && (a + b)[First(a).value.1..] == a[First(a).value.1..] + b
  {
    assert (a + b)[..4] == a[..4];
    var n := HexValue(a[..4]).value;
    assert n > 0 ==> (a + b)[4..n] == a[4..n];
  }

  lemma Prepend<T>(x: T, a: seq<T>, b: seq<T>)
    ensures [x] + (a + b) == ([x] + a) + b
  {
  }

  lemma OnlyPacket(s: seq<byte>)
    requires First(s).Some? && First(s).value.1 == |s|
    ensures Parse(s) == Some([First(s).value.0])
  {
    var rest := s[First(s).value.1..];
    assert rest == [] && Parse(rest) == Some([]);
    assert [First(s).value.0] + [] == [First(s).value.0];
  }

  /** A well-formed stream followed by another is read as both, one after the other. */
  lemma {:induction false} ParseAppend(a: seq<byte>, b: seq<byte>)
    requires Parse(a).Some?
    ensures Parse(a + b) == if Parse(b).None? then None else Some(Parse(a).value + Parse(b).value)
    decreases |a|
  {
    if a == [] {
      assert a + b == b;
      assert Parse(b).Some? ==> [] + Parse(b).value == Parse(b).value;
    } else {
      var n := First(a).value.1;
      FirstExtends(a, b);
      ParseAppend(a[n..], b);
      if Parse(b).Some? {
        Prepend(First(a).value.0, Parse(a[n..]).value, Parse(b).value);
      }
    }
  }

  predicate AllFit(payloads: seq<seq<byte>>) {
    forall i :: 0 <= i < |payloads| ==> |payloads[i]| + 4 <= MAX_PACKET
  }

  lemma ParseOne(payload: seq<byte>)
    requires |payload| + 4 <= MAX_PACKET
    ensures Parse(Print(payload)) == Some([Data(payload)])
  {
    FirstPrinted(payload, []);
    assert Print(payload) + [] == Print(payload);
    OnlyPacket(Print(payload));
  }

  lemma ParseThen(front: seq<byte>, packets: seq<Packet>, payload: seq<byte>)
    requires Parse(front) == Some(packets) && |payload| + 4 <= MAX_PACKET
    ensures Parse(front + Print(payload)) == Some(packets + [Data(payload)])
  {
    ParseOne(payload);
    ParseAppend(front, Print(payload));
  }

  lemma DatasSnoc(payloads: seq<seq<byte>>, n: nat)
    requires |payloads| == n + 1
    ensures Datas(payloads) == Datas(payloads[..n]) + [Data(payloads[n])]
  {
  }

  lemma {:induction false} ParsePrinted(payloads: seq<seq<byte>>)
    requires AllFit(payloads)
    ensures Parse(PrintAll(payloads)) == Some(Datas(payloads))
  {
    if payloads == [] {
      assert Datas(payloads) == [];
    } else {
      var n := |payloads| - 1;
      ParsePrinted(payloads[..n]);
      DatasSnoc(payloads, n);
      ParseThen(PrintAll(payloads[..n]), Datas(payloads[..n]), payloads[n]);
    }
  }

  lemma ParseFlush()
    ensures Parse(FLUSH) == Some([Flush])
  {
    assert FLUSH[..4] == FLUSH && HexValue(FLUSH) == Some(0);
    OnlyPacket(FLUSH);
  }

  /** A reader never returns a packet over the limit. */
  lemma {:induction false} ParsedFit(s: seq<byte>, i: nat)
    requires Parse(s).Some? && i < |Parse(s).value| && Parse(s).value[i].Data?
    ensures |Parse(s).value[i].payload| + 4 <= MAX_PACKET
    decreases |s|
  {
    if i > 0 {
      ParsedFit(s[First(s).value.1..], i - 1);
    }
  }

  /** Packets and a flush read back as printed exactly when every packet is
      within the limit. */
  lemma ReadsBackExactlyWhenAllFit(payloads: seq<seq<byte>>)
    ensures Parse(PrintAll(payloads) + FLUSH) == Some(Datas(payloads) + [Flush]) <==> AllFit(payloads)
  {
    var s := PrintAll(payloads) + FLUSH;
    if AllFit(payloads) {
      ParsePrinted(payloads);
      ParseFlush();
      ParseAppend(PrintAll(payloads), FLUSH);
    } else if Parse(s) == Some(Datas(payloads) + [Flush]) {
      var i :| 0 <= i < |payloads| && |payloads[i]| + 4 > MAX_PACKET;
      assert Parse(s).value[i] == Data(payloads[i]);
      ParsedFit(s, i);
    }
  }

  // ---- Bands ----

  lemma {:induction false} BandAppend(n: byte, a: seq<Packet>, b: seq<Packet>)
    ensures Band(n, a + b) == Band(n, a) + Band(n, b)
  {
    if a == [] {
      assert a + b == b;
    } else {
      assert (a + b)[1..] == a[1..] + b;
      BandAppend(n, a[1..], b);
    }
  }

  /** Every payload with the band's number in front. */
  function On(n: byte, parts: seq<seq<byte>>): (r: seq<seq<byte>>)
    ensures |r| == |parts| && forall i :: 0 <= i < |r| ==> r[i] == [n] + parts[i]
  {
    seq(|parts|, i requires 0 <= i < |parts| => [n] + parts[i])
  }

  /** A band carries what was put on it, and nothing of the other. */
  lemma {:induction false} BandOf(m: byte, n: byte, parts: seq<seq<byte>>)
    ensures Band(m, Datas(On(n, parts))) == if m == n then Concat(parts) else []
  {
    if parts == [] {
      assert Datas(On(n, parts)) == [];
    } else {
      var k := |parts| - 1;
      BandOf(m, n, parts[..k]);
      var last := Data([n] + parts[k]);
      assert Datas(On(n, parts)) == Datas(On(n, parts[..k])) + [last];
      BandAppend(m, Datas(On(n, parts[..k])), [last]);
      assert Band(m, [last]) == Carries(m, last) + Band(m, []);
    }
  }
}
