/** The protobuf form of a bundle and the two conversions (src/network/protobuf.rs,
    src/network/bundle.proto). UUIDs travel as text, section 4 of RFC 9562. */
module Wire {
  import opened Model

  // ---- UUID text -----------------------------------------------------------------------------

  function Power16(k: nat): (p: nat)
    ensures p > 0
  {
    if k == 0 then 1 else 16 * Power16(k - 1)
  }

  lemma {:induction false} PowerAdd(a: nat, b: nat)
    ensures Power16(a + b) == Power16(a) * Power16(b)
  {
    if a > 0 {
      PowerAdd(a - 1, b);
    }
  }

  lemma {:induction false} Power16Of32()
    ensures Power16(32) == 0x1_00000000_00000000_00000000_00000000
  {
    assert Power16(4) == 0x1_0000;
    PowerAdd(4, 4);
    PowerAdd(8, 8);
    PowerAdd(16, 16);
  }

  function Digit(n: nat): char
    requires n < 16
  {
    if n < 10 then '0' + n as char else 'a' + (n - 10) as char
  }

  function DigitValue(c: char): Option<nat> {
    if '0' <= c <= '9' then Some((c - '0') as nat)
    else if 'a' <= c <= 'f' then Some((c - 'a') as nat + 10)
    else if 'A' <= c <= 'F' then Some((c - 'A') as nat + 10)
    else None
  }

  /** The last `k` hexadecimal digits of `n`. */
  function Hex(n: nat, k: nat): (s: string)
    ensures |s| == k
  {
    if k == 0 then [] else Hex(n / 16, k - 1) + [Digit(n % 16)]
  }

  function HexValue(s: string): (r: Option<nat>)
    ensures r.Some? ==> r.value < Power16(|s|)
  {
    if s == [] then Some(0)
    else
      var high, low := HexValue(s[..|s| - 1]), DigitValue(s[|s| - 1]);
      if high.None? || low.None? then None else Some(16 * high.value + low.value)
  }

  lemma {:induction false} HexRoundTrip(n: nat, k: nat)
    requires n < Power16(k)
    ensures HexValue(Hex(n, k)) == Some(n)
  {
    if k > 0 {
      HexRoundTrip(n / 16, k - 1);
      assert Hex(n, k)[..k - 1] == Hex(n / 16, k - 1);
    }
  }

  /** Uuid::to_string: groups of 8, 4, 4, 4 and 12 digits. */
  function UuidText(u: Uuid): (s: string)
    ensures |s| == 36
  {
    var h := Hex(u, 32);
    h[..8] + "-" + h[8..12] + "-" + h[12..16] + "-" + h[16..20] + "-" + h[20..]
  }

  /** The text read off position by position: lower-case hexadecimal digits, highest first, and four hyphens. */
  lemma {:induction false} UuidTextDigits(u: Uuid, i: nat)
    requires i < 32
    ensures var s := UuidText(u);
            && s[8] == s[13] == s[18] == s[23] == '-'
            && s[i + (if i < 8 then 0 else if i < 12 then 1 else if i < 16 then 2 else if i < 20 then 3 else 4)]
               == "0123456789abcdef"[u / Power16(31 - i) % 16]
  {
    HexDigit(u, 32, 31 - i);
  }

  lemma {:induction false} HexDigit(n: nat, k: nat, i: nat)
    requires i < k
    ensures Hex(n, k)[k - 1 - i] == "0123456789abcdef"[n / Power16(i) % 16]
  {
    if i > 0 {
      HexDigit(n / 16, k - 1, i - 1);
      DivideTwice(n, 16, Power16(i - 1));
    }
  }

  lemma {:induction false} DivideTwice(n: nat, a: nat, b: nat)
    requires a > 0 && b > 0
    ensures a * b > 0 && n / a / b == n / (a * b)
  {
    var q, r, c := n / a / b, n / a % b * a + n % a, a * b;
    assert n == n / a * a + n % a;
    assert n / a == q * b + n / a % b;
    assert n / a * a == (q * b) * a + n / a % b * a;
    assert (q * b) * a == q * c;
    assert n / a % b * a <= (b - 1) * a;
    assert (b - 1) * a + a == c;
    QuotientIs(n, c, q, r);
  }

  lemma {:induction false} QuotientIs(n: nat, c: nat, q: nat, r: nat)
    requires c > 0 && n == q * c + r && r < c
    ensures n / c == q
  {
    MultiplesApart(n / c, q, c);
    MultiplesApart(q, n / c, c);
  }

  lemma {:induction false} MultiplesApart(x: nat, y: nat, c: nat)
    ensures x < y ==> x * c + c <= y * c
  {
    if x < y {
      assert y * c == (y - 1) * c + c;
      MultiplesApart(x, y - 1, c);
    }
  }

  /** Uuid::parse_str(..).unwrap_or_default() on the grouped form; anything else is the nil UUID. */
  function ParseUuid(s: string): Uuid {
    if |s| == 36 && s[8] == '-' && s[13] == '-' && s[18] == '-' && s[23] == '-' then
      var v := HexValue(s[..8] + s[9..13] + s[14..18] + s[19..23] + s[24..]);
      Power16Of32();
      if v.Some? then v.value else 0
    else 0
  }

  lemma {:induction false} UuidRoundTrip(u: Uuid)
    ensures ParseUuid(UuidText(u)) == u
  {
    var h, s := Hex(u, 32), UuidText(u);
    Power16Of32();
    HexRoundTrip(u, 32);
    assert s[..8] == h[..8] && s[9..13] == h[8..12] && s[14..18] == h[12..16];
    assert s[19..23] == h[16..20] && s[24..] == h[20..];
    assert s[..8] + s[9..13] + s[14..18] + s[19..23] + s[24..] == h;
  }

  function Texts(ids: seq<Uuid>): seq<string> {
    if ids == [] then [] else [UuidText(ids[0])] + Texts(ids[1..])
  }

  function ParseAll(texts: seq<string>): seq<Uuid> {
    if texts == [] then [] else [ParseUuid(texts[0])] + ParseAll(texts[1..])
  }

  lemma {:induction false} TextsRoundTrip(ids: seq<Uuid>)
    ensures ParseAll(Texts(ids)) == ids
  {
    if ids != [] {
      UuidRoundTrip(ids[0]);
      TextsRoundTrip(ids[1..]);
      assert Texts(ids)[1..] == Texts(ids[1..]);
    }
  }

  function Join(texts: seq<string>): string {
    if texts == [] then ""
    else if |texts| == 1 then texts[0]
    else texts[0] + "," + Join(texts[1..])
  }

  // ---- Conversions ---------------------------------------------------------------------------

  const DATA: int := 0
  const ACK: int := 1
  const REQUESTSV: int := 2
  const SUMMARYVEC: int := 3

  const PENDING: int := 0

  /** The fields of the protobuf message; enums are their numbers, unknown ones included. */
  datatype ProtobufBundle = ProtobufBundle(
    id: string,
    sourceId: string, sourceName: string, sourceAddress: string, sourcePort: nat, sourcePeers: seq<string>,
    destinationId: string, destinationName: string, destinationAddress: string, destinationPort: nat,
    destinationPeers: seq<string>,
    timestamp: int,
    ttl: U64,
    kind: int,
    kindData: string,
    shipmentStatus: int)

  function KindNumber(k: BundleKind): int {
    match k
    case Data(_) => DATA
    case Ack(_) => ACK
    case RequestSV(_) => REQUESTSV
    case SummaryVector(_) => SUMMARYVEC
  }

  function KindText(k: BundleKind): string {
    match k
    case Data(msg) => msg
    case Ack(id) => UuidText(id)
    case RequestSV(from) => UuidText(from)
    case SummaryVector(ids) => Join(Texts(ids))
  }

  function ToProtobuf(b: Bundle): ProtobufBundle {
    ProtobufBundle(
      UuidText(b.id),
      UuidText(b.source.id), b.source.name, b.source.address, b.source.port, Texts(b.source.peers),
      UuidText(b.destination.id), b.destination.name, b.destination.address, b.destination.port,
      Texts(b.destination.peers),
      b.timestamp / TICKS_PER_SECOND,
      b.ttl,
      KindNumber(b.kind),
      KindText(b.kind),
      PENDING)
  }

  function NodeFrom(id: string, name: string, address: string, port: nat, peers: seq<string>): Node {
    Node(ParseUuid(id), name, address, port % 0x1_0000, ParseAll(peers))
  }

  function FromProtobuf(p: ProtobufBundle): Bundle {
    Bundle(
      ParseUuid(p.id),
      NodeFrom(p.sourceId, p.sourceName, p.sourceAddress, p.sourcePort, p.sourcePeers),
      NodeFrom(p.destinationId, p.destinationName, p.destinationAddress, p.destinationPort, p.destinationPeers),
      p.timestamp * TICKS_PER_SECOND,
      p.ttl,
      if p.kind == ACK then Ack(ParseUuid(p.kindData)) else Data(p.kindData),
      Pending)
  }

  /** One trip over the wire. */
  function Carry(b: Bundle): Bundle {
    FromProtobuf(ToProtobuf(b))
  }

  lemma {:induction false} NodeRoundTrip(n: Node)
    ensures NodeFrom(UuidText(n.id), n.name, n.address, n.port, Texts(n.peers)) == n
  {
    UuidRoundTrip(n.id);
    TextsRoundTrip(n.peers);
  }

  lemma {:induction false} NodesSurvive(b: Bundle)
    ensures Carry(b).source == b.source && Carry(b).destination == b.destination && Carry(b).id == b.id
  {
    NodeRoundTrip(b.source);
    NodeRoundTrip(b.destination);
    UuidRoundTrip(b.id);
  }

  /** A bundle crosses the wire as its Pending copy cut to whole seconds exactly when it is Data or an ACK;
      the two control kinds come out as Data that carries their text. */
  lemma {:induction false} WireRoundTrip(b: Bundle)
    ensures Carry(b) == WireCopy(b) <==> b.kind.Data? || b.kind.Ack?
    ensures !(b.kind.Data? || b.kind.Ack?) ==> Carry(b) == WireCopy(b).(kind := Data(KindText(b.kind)))
  {
    NodesSurvive(b);
    if b.kind.Ack? {
      UuidRoundTrip(b.kind.ackBundleId);
    }
  }

  /** The message of a bundle in the terms of src/network/bundle.proto: field by field, and with the numbers of its
      enums. */
  lemma {:induction false} MessageOf(b: Bundle)
    ensures var p := ToProtobuf(b);
            && ParseUuid(p.id) == b.id
            && ParseUuid(p.sourceId) == b.source.id && p.sourceName == b.source.name
            && p.sourceAddress == b.source.address && p.sourcePort == b.source.port
            && ParseUuid(p.destinationId) == b.destination.id && p.destinationName == b.destination.name
            && p.destinationAddress == b.destination.address && p.destinationPort == b.destination.port
            && p.timestamp * 1_000_000_000 <= b.timestamp < (p.timestamp + 1) * 1_000_000_000
            && p.ttl == b.ttl && p.shipmentStatus == 0
            && (b.kind.Data? ==> p.kind == 0 && p.kindData == b.kind.msg)
            && (b.kind.Ack? ==> p.kind == 1 && ParseUuid(p.kindData) == b.kind.ackBundleId)
            && (b.kind.RequestSV? ==> p.kind == 2 && ParseUuid(p.kindData) == b.kind.from)
            && (b.kind.SummaryVector? ==> p.kind == 3)
  {
    UuidRoundTrip(b.id);
    UuidRoundTrip(b.source.id);
    UuidRoundTrip(b.destination.id);
    match b.kind
    case Ack(id) => UuidRoundTrip(id);
    case RequestSV(from) => UuidRoundTrip(from);
    case _ =>
  }

  /** Any message whatever: kind 1 decodes to an ACK, every other kind to Data, always Pending; what is not a UUID
      becomes the nil UUID, and ports keep their low 16 bits. */
  lemma {:induction false} BundleOf(p: ProtobufBundle)
    ensures var b := FromProtobuf(p);
            && (p.kind == 1 <==> b.kind.Ack?) && (p.kind != 1 <==> b.kind == Data(p.kindData))
            && b.status == Pending && b.ttl == p.ttl && b.timestamp == p.timestamp * 1_000_000_000
            && (|p.id| != 36 ==> b.id == 0)
            && (b.source.port - p.sourcePort) % 65536 == 0 && (b.destination.port - p.destinationPort) % 65536 == 0
  {
  }

  /** The fixed points of the wire: Pending Data and ACK bundles stamped at a whole second. */
  lemma {:induction false} CarryFixes(c: Bundle)
    ensures Carry(c) == c <==>
              (c.kind.Data? || c.kind.Ack?) && c.status == Pending && c.timestamp == Cut(c.timestamp)
  {
    WireRoundTrip(c);
    var d := Carry(c);
    assert d.status == Pending && (d.kind.Data? || d.kind.Ack?) && d.timestamp == Cut(c.timestamp);
  }

  lemma {:induction false} CutTwice(t: int)
    ensures Cut(Cut(t)) == Cut(t)
  {
  }

  /** A second trip changes nothing, whatever the kind was. */
  lemma {:induction false} CarryIsIdempotent(b: Bundle, c: Bundle)
    requires c == Carry(b)
    ensures Carry(c) == c
  {
    WireRoundTrip(b);
    CutTwice(b.timestamp);
    CarryFixes(c);
  }

  /** The copy expires never later than the original, and less than one second earlier. */
  lemma {:induction false} CarryExpiry(b: Bundle, now: int)
    ensures IsExpired(b, now) ==> IsExpired(Carry(b), now)
    ensures IsExpired(Carry(b), now) ==> IsExpired(b, now + TICKS_PER_SECOND - 1)
  {
    WireRoundTrip(b);
    WireCopyDeadline(b);
    ExpiryIsADeadline(b, now);
    ExpiryIsADeadline(b, now + TICKS_PER_SECOND - 1);
    ExpiryIsADeadline(Carry(b), now);
  }
}
