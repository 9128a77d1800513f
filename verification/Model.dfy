/** Bundles, their clock and their acknowledgements (src/routing/model.rs, src/routing/ack.rs).
    Time is an integer count of nanosecond ticks; a bundle's TTL is the source's u64 number of seconds. */
module Model {

  datatype Option<+T> = None | Some(value: T)

  /** A UUID is 128 bits; its text form is in module Wire. */
  type Uuid = u: nat | u < 0x1_00000000_00000000_00000000_00000000 witness 0
  type U64 = n: nat | n < 0x1_00000000_00000000 witness 0
  type U16 = n: nat | n < 0x1_0000 witness 0

  datatype Node = Node(id: Uuid, name: string, address: string, port: U16, peers: seq<Uuid>)

  datatype MsgStatus = Pending | InTransit | Delivered | Expired

  datatype BundleKind =
    | Data(msg: string)
    | Ack(ackBundleId: Uuid)
    | RequestSV(from: Uuid)
    | SummaryVector(ids: seq<Uuid>)

  datatype Bundle = Bundle(
    id: Uuid,
    source: Node,
    destination: Node,
    timestamp: int,
    ttl: U64,
    kind: BundleKind,
    status: MsgStatus)

  const TICKS_PER_SECOND: int := 1_000_000_000

  /** Division truncating toward zero, as chrono's `num_seconds` does. */
  function TruncDiv(a: int, b: int): int
    requires b > 0
  {
    if a >= 0 then a / b else -((-a) / b)
  }

  /** Rust's `as i64` on a u64: the upper half of the range wraps to negative numbers. */
  function AsI64(n: U64): int {
    if n < 0x8000_0000_0000_0000 then n else n - 0x1_00000000_00000000
  }

  predicate IsExpired(b: Bundle, now: int) {
    TruncDiv(now - b.timestamp, TICKS_PER_SECOND) > AsI64(b.ttl)
  }

  /** Rounds a time down to a whole second: all the wire keeps of a timestamp. */
  function Cut(t: int): int {
    t / TICKS_PER_SECOND * TICKS_PER_SECOND
  }

  /** What the far end of a connection rebuilds from a Data or Ack bundle; module Wire
      proves this is the composition of the two protobuf conversions. */
  function WireCopy(b: Bundle): Bundle {
    b.(timestamp := Cut(b.timestamp), status := Pending)
  }

  /** A Data bundle is live while its wire copy has not expired. */
  predicate Live(b: Bundle, now: int) {
    !IsExpired(WireCopy(b), now)
  }

  /** The bundle without its status, the only field that changes after creation. */
  function Core(b: Bundle): Bundle {
    b.(status := Pending)
  }

  function NewData(source: Node, destination: Node, msg: string, ttl: U64, id: Uuid, now: int): Bundle {
    Bundle(id, source, destination, now, ttl, Data(msg), Pending)
  }

  function NewAck(delivered: Bundle, id: Uuid, now: int): Bundle {
    Bundle(id, delivered.destination, delivered.source, now, delivered.ttl, Ack(delivered.id), Pending)
  }

  predicate IsAckFor(b: Bundle, dataId: Uuid) {
    b.kind.Ack? && b.kind.ackBundleId == dataId
  }

  // ---- Expiry --------------------------------------------------------------------------------

  /** The clock reading from which a bundle counts as expired, in one linear comparison. */
  function Deadline(b: Bundle): int {
    var t := AsI64(b.ttl);
    b.timestamp + (if t >= 0 then (t + 1) * TICKS_PER_SECOND else t * TICKS_PER_SECOND + 1)
  }

  /** Expiry is a deadline, also for the TTLs that the cast makes negative. */
  lemma ExpiryIsADeadline(b: Bundle, now: int)
    ensures IsExpired(b, now) <==> now >= Deadline(b)
  {
  }

  /** Expiry in plain numbers. A TTL below 2^63 counts seconds after the timestamp, the last one included; a larger TTL
      wraps to a negative age, which every bundle stamped in the past exceeds. */
  lemma ExpiryInSeconds(b: Bundle, now: int)
    ensures b.ttl < 0x8000_0000_0000_0000 ==>
              (IsExpired(b, now) <==> now - b.timestamp >= (b.ttl + 1) * 1_000_000_000)
    ensures b.ttl >= 0x8000_0000_0000_0000 ==>
              (IsExpired(b, now) <==> now - b.timestamp > (b.ttl - 0x1_0000_0000_0000_0000) * 1_000_000_000)
    ensures b.ttl >= 0x8000_0000_0000_0000 && b.timestamp <= now ==> IsExpired(b, now)
  {
    ExpiryIsADeadline(b, now);
  }

  /** The cut keeps whole seconds and loses less than one. */
  lemma CutToSeconds(t: int)
    ensures Cut(t) <= t < Cut(t) + 1_000_000_000 && Cut(t) % 1_000_000_000 == 0
  {
  }

  /** Once expired, a bundle stays expired. */
  lemma ExpiryIsPermanent(b: Bundle, now: int, later: int)
    requires now <= later
    ensures IsExpired(b, now) ==> IsExpired(b, later)
  {
    ExpiryIsADeadline(b, now);
    ExpiryIsADeadline(b, later);
  }

  /** With equal TTLs, `a` outlives `d` at every clock reading exactly when it is not stamped earlier. */
  lemma OutlivesIff(a: Bundle, d: Bundle)
    requires a.ttl == d.ttl
    ensures (forall now :: IsExpired(a, now) ==> IsExpired(d, now)) <==> d.timestamp <= a.timestamp
  {
    forall now
      ensures IsExpired(a, now) <==> now >= Deadline(a)
      ensures IsExpired(d, now) <==> now >= Deadline(d)
    {
      ExpiryIsADeadline(a, now);
      ExpiryIsADeadline(d, now);
    }
    assert IsExpired(a, Deadline(a));
  }

  /** The wire copy expires never later than the original and less than one second earlier. */
  lemma WireCopyDeadline(b: Bundle)
    ensures Deadline(b) - TICKS_PER_SECOND < Deadline(WireCopy(b)) <= Deadline(b)
  {
  }

  /** No ACK, whole or cut by the wire, expires while the Data bundle it answers is live.
      The ACK is made from the wire copy that reached the destination, at or after the Data's creation. */
  lemma TombstoneOrder(d: Bundle, ackId: Uuid, created: int, now: int)
    requires d.timestamp <= created
    requires Live(d, now)
    ensures !IsExpired(NewAck(WireCopy(d), ackId, created), now)
    ensures !IsExpired(WireCopy(NewAck(WireCopy(d), ackId, created)), now)
    ensures !IsExpired(d, now)
  {
    var ack := NewAck(WireCopy(d), ackId, created);
    ExpiryIsADeadline(WireCopy(d), now);
    ExpiryIsADeadline(ack, now);
    ExpiryIsADeadline(WireCopy(ack), now);
    ExpiryIsADeadline(d, now);
  }

  /** Against the whole Data bundle kept by its source the order holds exactly when the
      cut did not move the ACK's stamp before the Data's. */
  lemma WireAckOutlivesWholeDataIff(d: Bundle, ackId: Uuid, created: int)
    ensures (forall now :: !IsExpired(d, now) ==> !IsExpired(WireCopy(NewAck(WireCopy(d), ackId, created)), now))
            <==> d.timestamp <= Cut(created)
  {
    OutlivesIff(WireCopy(NewAck(WireCopy(d), ackId, created)), d);
  }

  /** A run of that failure: Data stamped 0.9 s, ACK made at 0.95 s, TTL 0, clock at 1.85 s. */
  lemma WireAckCanExpireFirst(d: Bundle, ackId: Uuid)
    requires d.timestamp == 900_000_000 && d.ttl == 0
    ensures !IsExpired(d, 1_850_000_000)
    ensures IsExpired(WireCopy(NewAck(WireCopy(d), ackId, 950_000_000)), 1_850_000_000)
  {
  }
}
