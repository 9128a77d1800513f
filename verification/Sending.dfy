/** Exactly what a call of the engine sends, and to whom, said without its loops: by the store before the call and the
    answers of the outside world. */
module Sending {
  import opened Model
  import opened Store
  import opened Registry
  import opened NodeStep
  import opened NodeFacts

  /** The registry reports node `to`, not the node itself, as connected. */
  predicate Up(w: World, self: Uuid, to: Uuid) {
    to != self && exists r :: r in w.registry && r.status == Connected && r.node.id == to
  }

  /** The registry reports `to` when the node asks about its peers and the bundle's far end. */
  predicate Contact(w: World, self: Uuid, peers: seq<Uuid>, farEnd: Uuid, to: Uuid) {
    Up(w, self, to) && (to in peers || to == farEnd)
  }

  /** No ACK for this Data is stored, save one that leaves with it, and there is a slot for this one. */
  predicate NewHere(s: seq<Bundle>, ack: Bundle, now: int, capacity: nat)
    requires ack.kind.Ack?
  {
    var id := ack.kind.ackBundleId;
    (forall x :: x in s && IsAckFor(x, id) ==> x.id == id) && (Has(s, id) || |Cleanup(s, now)| < capacity)
  }

  /** The bundles route_bundle has to offer: a relay its new ACK, a destination the ACK it mints, a relay of Data
      everything it then stores as Pending. */
  predicate Offered(self: Uuid, s: seq<Bundle>, b: Bundle, w: World, capacity: nat, x: Bundle) {
    var kept := Cleanup(s, w.now);
    if b.kind.Ack? then x == b && self != b.destination.id && NewHere(s, b, w.now, capacity)
    else if IsExpired(b, w.now) then false
    else if self == b.destination.id then
      x == NewAck(b, w.freshId, w.now) && |kept| + (if HasAck(kept, b.id) then 1 else 2) <= capacity
    else x.status == Pending && (x in kept || (x == b && !HasAck(kept, b.id) && |kept| < capacity))
  }

  function FarEnd(b: Bundle): Uuid {
    if b.kind.Ack? then b.destination.id else b.source.id
  }

  lemma {:induction false} ContactsAreReachable(w: World, self: Uuid, peers: seq<Uuid>, farEnd: Uuid, to: Uuid)
    ensures (exists p :: p in Reachable(w, self, Including(peers, farEnd)) && p.node.id == to)
            <==> Contact(w, self, peers, farEnd, to)
  {
    var ids := Including(peers, farEnd);
    assert to in ids <==> to in peers || to == farEnd;
    assert farEnd in ids;
    if Contact(w, self, peers, farEnd, to) {
      var r :| r in w.registry && r.status == Connected && r.node.id == to;
      assert r in Reachable(w, self, ids);
    }
  }

  /** A flood to the contacts, said pointwise. */
  lemma {:induction false} FloodToContacts(bundles: seq<Bundle>, w: World, self: Uuid, peers: seq<Uuid>, farEnd: Uuid,
                                           m: Message)
    ensures m in Flood(bundles, Reachable(w, self, Including(peers, farEnd)), w) <==>
              && m.bundle in bundles && Contact(w, self, peers, farEnd, m.to)
              && (m.to !in w.vectors || m.bundle.id !in w.vectors[m.to])
  {
    FloodMembers(bundles, Reachable(w, self, Including(peers, farEnd)), w);
    ContactsAreReachable(w, self, peers, farEnd, m.to);
  }

  lemma {:induction false} FirstSeenIff(s: seq<Bundle>, ack: Bundle, now: int, capacity: nat)
    requires ack.kind.Ack? && WellFormed(s, capacity) && !Has(s, ack.id)
    ensures AbsorbAck(s, ack, now, capacity).1 <==> NewHere(s, ack, now, capacity)
  {
    var id := ack.kind.ackBundleId;
    var rest := Without(s, id);
    WithoutFacts(s, id);
    CleanupFacts(rest, now);
  }

  /** route_bundle sends a bundle to a node if and only if it has that bundle to offer, the node is a contact, and
      the node's summary vector lacks it. */
  lemma {:induction false} RouteSendsExactly(self: Uuid, peers: seq<Uuid>, s: seq<Bundle>, b: Bundle, w: World,
                                             capacity: nat, m: Message)
    requires Acceptable(self, s, b, w, capacity)
    ensures m in Route(self, peers, s, b, w, capacity).sent <==>
              && Offered(self, s, b, w, capacity, m.bundle)
              && Contact(w, self, peers, FarEnd(b), m.to)
              && (m.to !in w.vectors || m.bundle.id !in w.vectors[m.to])
  {
    if b.kind.Ack? {
      FirstSeenIff(s, b, w.now, capacity);
      FloodToContacts([b], w, self, peers, b.destination.id, m);
    } else if IsExpired(b, w.now) {
    } else if self == b.destination.id {
      DestinationSends(self, peers, s, b, w, capacity, m);
    } else {
      RelaySends(self, peers, s, b, w, capacity, m);
    }
  }

  lemma {:induction false} DestinationSends(self: Uuid, peers: seq<Uuid>, s: seq<Bundle>, b: Bundle, w: World,
                                            capacity: nat, m: Message)
    requires Acceptable(self, s, b, w, capacity) && b.kind.Data? && !IsExpired(b, w.now) && self == b.destination.id
    ensures m in RouteAtDestination(self, peers, s, b, w, capacity).sent <==>
              && Offered(self, s, b, w, capacity, m.bundle)
              && Contact(w, self, peers, b.source.id, m.to)
              && (m.to !in w.vectors || m.bundle.id !in w.vectors[m.to])
  {
    var ack := NewAck(b, w.freshId, w.now);
    assert ack == NewAck(b.(status := Delivered), w.freshId, w.now);
    DestinationAdmission(self, peers, s, b, w, capacity);
    FloodToContacts([ack], w, self, peers, b.source.id, m);
  }

  lemma {:induction false} RelaySends(self: Uuid, peers: seq<Uuid>, s: seq<Bundle>, b: Bundle, w: World,
                                      capacity: nat, m: Message)
    requires Acceptable(self, s, b, w, capacity) && b.kind.Data? && !IsExpired(b, w.now) && self != b.destination.id
    ensures m in RouteAtRelay(self, peers, s, b, w, capacity).sent <==>
              && Offered(self, s, b, w, capacity, m.bundle)
              && Contact(w, self, peers, b.source.id, m.to)
              && (m.to !in w.vectors || m.bundle.id !in w.vectors[m.to])
  {
    var t := Save(s, b, w.now, capacity).0;
    SaveMembers(s, b, w.now, capacity);
    FloodToContacts(Filter(t, IsPending()), w, self, peers, b.source.id, m);
  }

  // ---- Status --------------------------------------------------------------------------------

  /** Some send of `x` in `sent` reported success. */
  predicate Reported(sent: seq<Message>, x: Bundle, w: World) {
    exists m :: m in sent && m.bundle == x && (m.to, x.id) in w.answered
  }

  /** The status route_bundle gives its bundle: a relay of Data goes by what it sent, anything else by what arrived. */
  function StatusAfter(self: Uuid, b: Bundle, sent: seq<Message>, w: World): MsgStatus {
    if b.kind.Data? && IsExpired(b, w.now) then Expired
    else if self == b.destination.id then Delivered
    else if if b.kind.Ack? then Reported(sent, b, w) else sent != [] then InTransit
    else Pending
  }

  lemma {:induction false} ConfirmedIffReported(b: Bundle, targets: seq<PeerRecord>, w: World)
    ensures Confirmed(b, targets, w) <==> Reported(Flood([b], targets, w), b, w)
  {
    FloodMembers([b], targets, w);
    if Confirmed(b, targets, w) {
      var p :| p in targets && b.id !in Vector(w, p.node.id) && (p.node.id, b.id) in w.answered;
      assert Message(p.node.id, b) in Flood([b], targets, w);
    }
  }

  /** The bundle comes back with that status, and if it is stored it is stored so. */
  lemma {:induction false} RouteSetsStatus(self: Uuid, peers: seq<Uuid>, s: seq<Bundle>, b: Bundle, w: World,
                                           capacity: nat)
    requires Acceptable(self, s, b, w, capacity)
    ensures var o := Route(self, peers, s, b, w, capacity);
            && o.bundle == b.(status := StatusAfter(self, b, o.sent, w))
            && (Has(o.store, b.id) ==> o.bundle in o.store)
  {
    var o := Route(self, peers, s, b, w, capacity);
    RouteIsLawful(self, peers, s, b, w, capacity);
    if b.kind.Ack? && self != b.destination.id {
      AckRelayStore(self, peers, s, b, w, capacity);
      ConfirmedIffReported(b, Reachable(w, self, Including(peers, b.destination.id)), w);
    } else if b.kind.Data? && !IsExpired(b, w.now) && self != b.destination.id {
      DataRelayStore(self, peers, s, b, w, capacity);
    }
    if Has(o.store, b.id) {
      StoredAsReturned(self, peers, s, b, w, capacity);
    }
  }

  /** InTransit at a relay does not mean that any peer confirmed anything: one peer that lacks the Data is enough, even
      if every send fails. */
  lemma {:induction false} InTransitUnconfirmed(self: Uuid, peers: seq<Uuid>, s: seq<Bundle>, b: Bundle, w: World,
                                                capacity: nat, to: Uuid)
    requires Acceptable(self, s, b, w, capacity) && b.kind.Data? && !IsExpired(b, w.now) && self != b.destination.id
    requires Offered(self, s, b, w, capacity, b) && Contact(w, self, peers, b.source.id, to)
    requires (to !in w.vectors || b.id !in w.vectors[to]) && w.answered == {}
    ensures var o := Route(self, peers, s, b, w, capacity);
            o.bundle == b.(status := InTransit) && o.bundle in o.store && forall x :: !Reported(o.sent, x, w)
  {
    RouteSendsExactly(self, peers, s, b, w, capacity, Message(to, b));
    RouteSetsStatus(self, peers, s, b, w, capacity);
    DataAdmission(self, peers, s, b, w, capacity);
  }

  lemma {:induction false} StoredAsReturned(self: Uuid, peers: seq<Uuid>, s: seq<Bundle>, b: Bundle, w: World,
                                            capacity: nat)
    requires Acceptable(self, s, b, w, capacity)
    requires Has(Route(self, peers, s, b, w, capacity).store, b.id)
    ensures var o := Route(self, peers, s, b, w, capacity); o.bundle in o.store
  {
    var o := Route(self, peers, s, b, w, capacity);
    if self == b.destination.id {
      StoredAtDestination(self, peers, s, b, w, capacity);
    } else if b.kind.Ack? {
      AckRelayStore(self, peers, s, b, w, capacity);
      AbsorbMembers(s, b, w.now, capacity);
    } else if !IsExpired(b, w.now) {
      DataRelayStore(self, peers, s, b, w, capacity);
    }
  }

  lemma {:induction false} StoredAtDestination(self: Uuid, peers: seq<Uuid>, s: seq<Bundle>, b: Bundle, w: World,
                                               capacity: nat)
    requires Acceptable(self, s, b, w, capacity) && self == b.destination.id
    requires Has(Route(self, peers, s, b, w, capacity).store, b.id)
    ensures var o := Route(self, peers, s, b, w, capacity); o.bundle in o.store
  {
    var o := Route(self, peers, s, b, w, capacity);
    RouteIsLawful(self, peers, s, b, w, capacity);
    var x :| x in o.store && x.id == b.id;
    assert Sprung(x, s, News(b, o.minted));
    if y :| y in s && Core(y) == Core(x) {
      SameCore(x, y);
    }
    assert Core(x) == Core(b) && StatusFits(self, x);
  }

  // ---- The whole store -----------------------------------------------------------------------

  /** The store that routing leaves, branch by branch, in order; `sent` are the messages of the call. */
  function StoreAfter(self: Uuid, s: seq<Bundle>, b: Bundle, sent: seq<Message>, w: World, capacity: nat)
    : seq<Bundle>
  {
    var routed := b.(status := StatusAfter(self, b, sent, w));
    if b.kind.Ack? then
      var rest := Without(s, b.kind.ackBundleId);
      if self != b.destination.id && HasAck(rest, b.kind.ackBundleId) then rest
      else Appended(Cleanup(rest, w.now), routed, capacity)
    else if IsExpired(b, w.now) then s
    else
      var kept := Cleanup(s, w.now);
      var withData := if HasAck(kept, b.id) then kept else Appended(kept, routed, capacity);
      if self == b.destination.id then Appended(withData, AckLeft(b, sent, w), capacity) else withData
  }

  function Appended(s: seq<Bundle>, b: Bundle, capacity: nat): seq<Bundle> {
    if |s| < capacity then s + [b] else s
  }

  /** The ACK a destination keeps: InTransit once some peer confirmed it, Pending until then. */
  function AckLeft(b: Bundle, sent: seq<Message>, w: World): Bundle {
    var ack := NewAck(b, w.freshId, w.now);
    ack.(status := if Reported(sent, ack, w) then InTransit else Pending)
  }

  lemma {:induction false} AckAtDestinationStore(self: Uuid, peers: seq<Uuid>, s: seq<Bundle>, b: Bundle, w: World,
                                                 capacity: nat)
    requires Acceptable(self, s, b, w, capacity) && b.kind.Ack? && self == b.destination.id
    ensures RouteAck(self, peers, s, b, w, capacity).store
            == Appended(Cleanup(Without(s, b.kind.ackBundleId), w.now), b.(status := Delivered), capacity)
  {
    var id := b.kind.ackBundleId;
    var rest := Without(s, id);
    var left, delivered := Cleanup(rest, w.now), b.(status := Delivered);
    WithoutFacts(s, id);
    CleanupFacts(rest, w.now);
    assert !Has(rest, b.id) && !Has(left, b.id);
    if AbsorbAck(s, b, w.now, capacity).1 {
      UpsertLast(left, b, delivered, w.now, capacity);
    }
  }

  lemma {:induction false} DestinationStore(self: Uuid, peers: seq<Uuid>, s: seq<Bundle>, b: Bundle, w: World,
                                            capacity: nat)
    requires Acceptable(self, s, b, w, capacity) && b.kind.Data? && self == b.destination.id && !IsExpired(b, w.now)
    ensures var o := RouteAtDestination(self, peers, s, b, w, capacity);
            var kept, delivered := Cleanup(s, w.now), b.(status := Delivered);
            var t := if HasAck(kept, b.id) then kept else Appended(kept, delivered, capacity);
            && o.store == Appended(t, AckLeft(b, o.sent, w), capacity)
            && o.minted == if |t| < capacity then Some(NewAck(b, w.freshId, w.now)) else None
  {
    var kept, delivered, ack := Cleanup(s, w.now), b.(status := Delivered), NewAck(b, w.freshId, w.now);
    assert ack == NewAck(delivered, w.freshId, w.now);
    CleanupFacts(s, w.now);
    var t := Save(s, delivered, w.now, capacity).0;
    SaveMembers(s, delivered, w.now, capacity);
    AllUnexpired(t, w.now);
    assert !Has(t, ack.id);
    ConfirmedIffReported(ack, Reachable(w, self, Including(peers, b.source.id)), w);
    if |t| < capacity {
      UpsertLast(t, ack, ack.(status := InTransit), w.now, capacity);
    }
  }

  /** Routing leaves exactly this store; in particular a minted ACK is stored InTransit if some send of it reported
      success, and Pending, to be offered again, if none did. */
  lemma {:induction false} RouteStoresExactly(self: Uuid, peers: seq<Uuid>, s: seq<Bundle>, b: Bundle, w: World,
                                              capacity: nat)
    requires Acceptable(self, s, b, w, capacity)
    ensures var o := Route(self, peers, s, b, w, capacity);
            && o.store == StoreAfter(self, s, b, o.sent, w, capacity)
            && (o.minted.Some? ==>
                  var a := o.minted.value;
                  a.(status := if Reported(o.sent, a, w) then InTransit else Pending) in o.store)
  {
    RouteSetsStatus(self, peers, s, b, w, capacity);
    if b.kind.Ack? {
      if self == b.destination.id {
        AckAtDestinationStore(self, peers, s, b, w, capacity);
      } else {
        WithoutFacts(s, b.kind.ackBundleId);
        AckRelayStore(self, peers, s, b, w, capacity);
      }
    } else if IsExpired(b, w.now) {
      WithoutFacts(s, b.id);
    } else if self == b.destination.id {
      DestinationStore(self, peers, s, b, w, capacity);
    } else {
      DataRelayStore(self, peers, s, b, w, capacity);
    }
  }

  // ---- retry_unsynced_bundles ----------------------------------------------------------------

  lemma {:induction false} PeersAreReachable(w: World, self: Uuid, peers: seq<Uuid>, to: Uuid)
    ensures (exists p :: p in Reachable(w, self, peers) && p.node.id == to)
            <==> Up(w, self, to) && (peers == [] || to in peers)
  {
    if Up(w, self, to) && (peers == [] || to in peers) {
      var r :| r in w.registry && r.status == Connected && r.node.id == to;
      assert r in Reachable(w, self, peers);
    }
  }

  /** A retry offers each connected peer, every node for an empty peer list, exactly the stored Pending and InTransit
      bundles it lacks. */
  lemma {:induction false} RetrySendsExactly(self: Uuid, peers: seq<Uuid>, s: seq<Bundle>, w: World, m: Message)
    ensures m in Retry(self, peers, s, w).1 <==>
              && m.bundle in s && (m.bundle.status == Pending || m.bundle.status == InTransit)
              && Up(w, self, m.to) && (peers == [] || m.to in peers)
              && (m.to !in w.vectors || m.bundle.id !in w.vectors[m.to])
  {
    FloodMembers(Filter(s, IsRetryable()), Reachable(w, self, peers), w);
    PeersAreReachable(w, self, peers, m.to);
  }

  lemma {:induction false} RecordedIffReported(s: seq<Bundle>, x: Bundle, targets: seq<PeerRecord>, w: World)
    requires Distinct(s) && x in s
    ensures var retryable := Filter(s, IsRetryable());
            x.id in SentIds(retryable, targets, w)
            <==> IsRetryable()(x) && Reported(Flood(retryable, targets, w), x, w)
  {
    var retryable := Filter(s, IsRetryable());
    FloodMembers(retryable, targets, w);
    SentIdsMembers(retryable, targets, w, x.id);
    if x.id in SentIds(retryable, targets, w) {
      var y :| y in retryable && y.id == x.id;
      SameId(s, x, y);
      var p :| p in targets && (p.node.id !in w.vectors || x.id !in w.vectors[p.node.id])
               && (p.node.id, x.id) in w.answered;
      assert Message(p.node.id, x) in Flood(retryable, targets, w);
    }
  }

  /** Away from its destination no ACK blocks a stored bundle. */
  lemma {:induction false} RetryableIsUnblocked(self: Uuid, s: seq<Bundle>, capacity: nat, b: Bundle)
    requires NodeInv(self, s, capacity) && b in s && IsRetryable()(b)
    ensures !Blocked(s, b)
  {
    assert StatusFits(self, b);
  }

  /** And it marks exactly the bundles that some peer confirmed, in place. */
  lemma {:induction false} RetryMarksExactly(self: Uuid, peers: seq<Uuid>, s: seq<Bundle>, w: World, capacity: nat,
                                             i: nat)
    requires NodeInv(self, s, capacity) && i < |s|
    ensures var (t, sent) := Retry(self, peers, s, w);
            |t| == |s| && t[i] == if Reported(sent, s[i], w) then s[i].(status := InTransit) else s[i]
  {
    var targets := Reachable(w, self, peers);
    var retryable := Filter(s, IsRetryable());
    assert s[i] in s;
    MarkAllPointwise(s, SentIds(retryable, targets, w));
    RecordedIffReported(s, s[i], targets, w);
    if IsRetryable()(s[i]) {
      RetryableIsUnblocked(self, s, capacity, s[i]);
    } else if Reported(Flood(retryable, targets, w), s[i], w) {
      FloodMembers(retryable, targets, w);
    }
  }
}
