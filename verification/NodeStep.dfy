/** What one engine call does to its node's store and what it sends (src/routing/engine.rs,
    the receive guard of src/network/client.rs), as functions of the store and of the answers
    the outside world gives during the call. */
module NodeStep {
  import opened Model
  import opened Store
  import opened Registry

  /** The outside world during one call: the clock, the registry's records ([] when it cannot be reached),
      the summary vectors of the peers that answer, the sends that report success, and the next random id. */
  datatype World = World(
    now: int,
    registry: seq<PeerRecord>,
    vectors: map<Uuid, seq<Uuid>>,
    answered: set<(Uuid, Uuid)>,
    freshId: Uuid)

  /** A bundle handed to send_bundle for a peer. */
  datatype Message = Message(to: Uuid, bundle: Bundle)

  /** What a call leaves behind; `minted` is an ACK this call created and stored. */
  datatype Outcome = Outcome(store: seq<Bundle>, bundle: Bundle, sent: seq<Message>, minted: Option<Bundle>)

  // ---- Peers ---------------------------------------------------------------------------------

  function Others(peers: seq<PeerRecord>, self: Uuid): (r: seq<PeerRecord>)
    ensures forall p :: p in r <==> p in peers && p.node.id != self
  {
    if peers == [] then []
    else
      assert forall p :: p in peers <==> p == peers[0] || p in peers[1..];
      (if peers[0].node.id != self then [peers[0]] else []) + Others(peers[1..], self)
  }

  /** The connected peers a node gets back for a request, itself left out. */
  function Reachable(w: World, self: Uuid, ids: seq<Uuid>): seq<PeerRecord> {
    Others(ConnectedPeers(w.registry, ids), self)
  }

  function Including(peers: seq<Uuid>, id: Uuid): seq<Uuid> {
    if id in peers then peers else peers + [id]
  }

  /** A peer's summary vector; a failed request counts as an empty one. */
  function Vector(w: World, peer: Uuid): seq<Uuid> {
    if peer in w.vectors then w.vectors[peer] else []
  }

  // ---- Sending -------------------------------------------------------------------------------

  /** The bundles, in order, whose ids a summary vector lacks. */
  function Missing(bundles: seq<Bundle>, vector: seq<Uuid>): seq<Bundle> {
    Filter(bundles, NotAmong(vector))
  }

  function Offers(bundles: seq<Bundle>, to: Uuid): seq<Message> {
    if bundles == [] then []
    else Offers(bundles[..|bundles| - 1], to) + [Message(to, bundles[|bundles| - 1])]
  }

  /** Every peer is offered what it lacks. */
  function Flood(bundles: seq<Bundle>, peers: seq<PeerRecord>, w: World): seq<Message> {
    if peers == [] then []
    else
      var p := peers[|peers| - 1].node.id;
      Flood(bundles, peers[..|peers| - 1], w) + Offers(Missing(bundles, Vector(w, p)), p)
  }

  /** Some send of `b` to a peer that lacks it reports success. */
  predicate Confirmed(b: Bundle, peers: seq<PeerRecord>, w: World) {
    exists p :: p in peers && b.id !in Vector(w, p.node.id) && (p.node.id, b.id) in w.answered
  }

  /** The ids sent so far, followed by those newly confirmed by one peer. */
  function AddSent(ids: seq<Uuid>, bundles: seq<Bundle>, peer: Uuid, w: World): seq<Uuid> {
    if bundles == [] then ids
    else
      var before := AddSent(ids, bundles[..|bundles| - 1], peer, w);
      var id := bundles[|bundles| - 1].id;
      if (peer, id) in w.answered && id !in before then before + [id] else before
  }

  function SentIds(bundles: seq<Bundle>, peers: seq<PeerRecord>, w: World): seq<Uuid> {
    if peers == [] then []
    else
      var p := peers[|peers| - 1].node.id;
      AddSent(SentIds(bundles, peers[..|peers| - 1], w), Missing(bundles, Vector(w, p)), p, w)
  }

  // ---- route_bundle --------------------------------------------------------------------------

  function IsPending(): Bundle -> bool {
    (b: Bundle) => b.status == Pending
  }

  function IsRetryable(): Bundle -> bool {
    (b: Bundle) => b.status == Pending || b.status == InTransit
  }

  function RouteAck(self: Uuid, peers: seq<Uuid>, s: seq<Bundle>, b: Bundle, w: World, capacity: nat): Outcome
    requires b.kind.Ack?
  {
    var (t, firstSeen) := AbsorbAck(s, b, w.now, capacity);
    if self == b.destination.id then
      var delivered := b.(status := Delivered);
      Outcome(Upsert(t, delivered, w.now, capacity).0, delivered, [], None)
    else if !firstSeen then
      Outcome(t, b, [], None)
    else
      var targets := Reachable(w, self, Including(peers, b.destination.id));
      var sent := Flood([b], targets, w);
      if Confirmed(b, targets, w) then
        var moving := b.(status := InTransit);
        Outcome(Upsert(t, moving, w.now, capacity).0, moving, sent, None)
      else Outcome(t, b, sent, None)
  }

  function RouteExpired(s: seq<Bundle>, b: Bundle): Outcome {
    Outcome(Delete(s, b.id).0, b.(status := Expired), [], None)
  }

  function RouteAtDestination(self: Uuid, peers: seq<Uuid>, s: seq<Bundle>, b: Bundle, w: World, capacity: nat)
    : Outcome
  {
    var delivered := b.(status := Delivered);
    var t := Upsert(s, delivered, w.now, capacity).0;
    var ack := NewAck(delivered, w.freshId, w.now);
    var (u, created) := if Has(t, ack.id) then (t, false) else Save(t, ack, w.now, capacity);
    if !created then Outcome(u, delivered, [], None)
    else
      var targets := Reachable(w, self, Including(peers, b.source.id));
      var sent := Flood([ack], targets, w);
      var v := if Confirmed(ack, targets, w) then Upsert(u, ack.(status := InTransit), w.now, capacity).0 else u;
      Outcome(v, delivered, sent, Some(ack))
  }

  function RouteAtRelay(self: Uuid, peers: seq<Uuid>, s: seq<Bundle>, b: Bundle, w: World, capacity: nat): Outcome {
    var t := Save(s, b, w.now, capacity).0;
    var sent := Flood(Filter(t, IsPending()), Reachable(w, self, Including(peers, b.source.id)), w);
    if sent != [] then
      var moving := b.(status := InTransit);
      Outcome(Upsert(t, moving, w.now, capacity).0, moving, sent, None)
    else Outcome(t, b, sent, None)
  }

  function Route(self: Uuid, peers: seq<Uuid>, s: seq<Bundle>, b: Bundle, w: World, capacity: nat): Outcome {
    if b.kind.Ack? then RouteAck(self, peers, s, b, w, capacity)
    else if IsExpired(b, w.now) then RouteExpired(s, b)
    else if self == b.destination.id then RouteAtDestination(self, peers, s, b, w, capacity)
    else RouteAtRelay(self, peers, s, b, w, capacity)
  }

  /** The same while no write of the store succeeds: what comes back and what is sent; the store stays as it is. */
  function RouteUnsaved(self: Uuid, peers: seq<Uuid>, s: seq<Bundle>, b: Bundle, w: World): (Bundle, seq<Message>) {
    if !b.kind.Ack? && IsExpired(b, w.now) then (b.(status := Expired), [])
    else if self == b.destination.id then (b.(status := Delivered), [])
    else if b.kind.Ack? then (b, [])
    else RelayUnsaved(self, peers, s, b, w)
  }

  function RelayUnsaved(self: Uuid, peers: seq<Uuid>, s: seq<Bundle>, b: Bundle, w: World): (Bundle, seq<Message>) {
    var sent := Flood(Filter(s, IsPending()), Reachable(w, self, Including(peers, b.source.id)), w);
    (if sent != [] then b.(status := InTransit) else b, sent)
  }

  /** One received bundle: a known id is ignored, anything else is routed. */
  function Receive(self: Uuid, peers: seq<Uuid>, s: seq<Bundle>, b: Bundle, w: World, capacity: nat): Outcome {
    if Has(s, b.id) then Outcome(s, b, [], None) else Route(self, peers, s, b, w, capacity)
  }

  /** Receiving bundles one after another. */
  function ReceiveAll(self: Uuid, peers: seq<Uuid>, s: seq<Bundle>, bundles: seq<Bundle>, worlds: nat -> World,
                      capacity: nat): (seq<Bundle>, seq<Message>)
  {
    if bundles == [] then (s, [])
    else
      var k := |bundles| - 1;
      var (t, sent) := ReceiveAll(self, peers, s, bundles[..k], worlds, capacity);
      var o := Receive(self, peers, t, bundles[k], worlds(k), capacity);
      (o.store, sent + o.sent)
  }

  function ReceiveAllUnsaved(self: Uuid, peers: seq<Uuid>, s: seq<Bundle>, bundles: seq<Bundle>,
                             worlds: nat -> World): seq<Message>
  {
    if bundles == [] then []
    else
      var k := |bundles| - 1;
      ReceiveAllUnsaved(self, peers, s, bundles[..k], worlds)
      + (if Has(s, bundles[k].id) then [] else RouteUnsaved(self, peers, s, bundles[k], worlds(k)).1)
  }

  // ---- retry_unsynced_bundles ----------------------------------------------------------------

  /** Sets a stored bundle InTransit, unless an ACK blocks the update. */
  function Mark(s: seq<Bundle>, id: Uuid): seq<Bundle> {
    match Find(s, id)
    case None => s
    case Some(b) => Update(s, b.(status := InTransit)).0
  }

  function MarkAll(s: seq<Bundle>, ids: seq<Uuid>): seq<Bundle> {
    if ids == [] then s else Mark(MarkAll(s, ids[..|ids| - 1]), ids[|ids| - 1])
  }

  function Retry(self: Uuid, peers: seq<Uuid>, s: seq<Bundle>, w: World): (seq<Bundle>, seq<Message>) {
    var targets := Reachable(w, self, peers);
    var retryable := Filter(s, IsRetryable());
    (MarkAll(s, SentIds(retryable, targets, w)), Flood(retryable, targets, w))
  }
}
