/** What every engine call keeps in its own node's store, whatever the outside world answers. */
module NodeFacts {
  import opened Model
  import opened Store
  import opened NodeStep
  import Registry

  // ---- Invariants of one store ---------------------------------------------------------------

  /** Only Data and ACK bundles are stored. */
  predicate Plain(s: seq<Bundle>) {
    forall b :: b in s ==> b.kind.Data? || b.kind.Ack?
  }

  /** A stored bundle is Delivered exactly at its destination; elsewhere it is Pending or InTransit. */
  predicate StatusFits(self: Uuid, b: Bundle) {
    if b.destination.id == self then b.status == Delivered else b.status == Pending || b.status == InTransit
  }

  predicate StatusesFit(self: Uuid, s: seq<Bundle>) {
    forall b :: b in s ==> StatusFits(self, b)
  }

  /** Data and an ACK for it are stored together only at the Data's destination. */
  predicate Exclusive(self: Uuid, s: seq<Bundle>) {
    forall d, a :: d in s && a in s && d.kind.Data? && IsAckFor(a, d.id) ==> d.destination.id == self
  }

  predicate NodeInv(self: Uuid, s: seq<Bundle>, capacity: nat) {
    WellFormed(s, capacity) && Plain(s) && StatusesFit(self, s) && Exclusive(self, s)
  }

  // ---- What a call may change ----------------------------------------------------------------

  /** Up to status, `x` is a bundle of `s` or one of `news`. */
  predicate Sprung(x: Bundle, s: seq<Bundle>, news: set<Bundle>) {
    Core(x) in news || exists y :: y in s && Core(y) == Core(x)
  }

  predicate AllSprung(t: seq<Bundle>, s: seq<Bundle>, news: set<Bundle>) {
    forall x :: x in t ==> Sprung(x, s, news)
  }

  predicate SentSprung(sent: seq<Message>, s: seq<Bundle>, news: set<Bundle>) {
    forall m :: m in sent ==> Sprung(m.bundle, s, news)
  }

  /** Up to status, `b` is stored. */
  predicate Holds(t: seq<Bundle>, b: Bundle) {
    exists x :: x in t && Core(x) == Core(b)
  }

  /** Nothing unexpired leaves the store, save the bundles named in `dropped`. */
  predicate KeptExcept(s: seq<Bundle>, t: seq<Bundle>, now: int, dropped: set<Uuid>) {
    forall y :: y in s && !IsExpired(y, now) && y.id !in dropped ==> Holds(t, y)
  }

  function News(b: Bundle, minted: Option<Bundle>): set<Bundle> {
    {Core(b)} + (if minted.Some? then {Core(minted.value)} else {})
  }

  function Dropped(b: Bundle): set<Uuid> {
    if b.kind.Ack? then {b.kind.ackBundleId} else {}
  }

  /** A bundle that the receive guard lets through, and a world whose random id is new to the node. */
  predicate Acceptable(self: Uuid, s: seq<Bundle>, b: Bundle, w: World, capacity: nat) {
    && NodeInv(self, s, capacity)
    && b.status == Pending
    && (b.kind.Data? || b.kind.Ack?)
    && b.source.id != b.destination.id
    && !Has(s, b.id)
    && !Has(s, w.freshId)
    && w.freshId != b.id
  }

  /** An ACK is minted only at the destination of unexpired Data. */
  predicate MintedRightly(self: Uuid, s: seq<Bundle>, b: Bundle, o: Outcome, w: World) {
    o.minted.Some? ==>
      && b.kind.Data? && self == b.destination.id && !IsExpired(b, w.now)
      && o.minted.value == NewAck(b, w.freshId, w.now)
      && Holds(o.store, o.minted.value)
      && (!HasAck(s, b.id) ==> Holds(o.store, b))
  }

  /** A node that holds Data and receives an ACK for it ends with an ACK. */
  predicate Displaces(s: seq<Bundle>, b: Bundle, o: Outcome) {
    b.kind.Ack? && Has(s, b.kind.ackBundleId) && !HasAck(s, b.kind.ackBundleId)
    ==> HasAck(o.store, b.kind.ackBundleId)
  }

  predicate Lawful(self: Uuid, s: seq<Bundle>, b: Bundle, o: Outcome, w: World, capacity: nat) {
    && NodeInv(self, o.store, capacity)
    && AllSprung(o.store, s, News(b, o.minted))
    && SentSprung(o.sent, s, News(b, o.minted))
    && KeptExcept(s, o.store, w.now, Dropped(b))
    && MintedRightly(self, s, b, o, w)
    && Displaces(s, b, o)
  }

  // ---- Membership after each operation -------------------------------------------------------

  lemma {:induction false} SaveMembers(s: seq<Bundle>, b: Bundle, now: int, capacity: nat)
    requires WellFormed(s, capacity)
    ensures var (t, ok) := Save(s, b, now, capacity);
            && WellFormed(t, capacity)
            && forall x :: x in t <==> (x in s && !IsExpired(x, now)) || (ok && x == b)
  {
    SaveKeeps(s, b, now, capacity);
  }

  lemma {:induction false} UpsertMembers(s: seq<Bundle>, b: Bundle, now: int, capacity: nat)
    requires WellFormed(s, capacity)
    ensures var (t, ok) := Upsert(s, b, now, capacity);
            && WellFormed(t, capacity)
            && (Has(s, b.id) && !Blocked(s, b) ==> ok)
            && (forall x :: x in t ==> x in s || x == b)
            && (forall x :: x in s && x.id != b.id && (!IsExpired(x, now) || Has(s, b.id)) ==> x in t)
            && (ok ==> b in t && forall x :: x in t && x.id == b.id ==> x == b)
            && (!ok ==> forall x :: x in s && !IsExpired(x, now) ==> x in t)
  {
    if Has(s, b.id) {
      ReplaceMembers(s, b);
    } else {
      SaveMembers(s, b, now, capacity);
      var (t, ok) := Save(s, b, now, capacity);
      forall x | x in t && x.id == b.id ensures x == b {
        assert x in s ==> Has(s, b.id);
      }
    }
  }

  lemma {:induction false} AbsorbMembers(s: seq<Bundle>, ack: Bundle, now: int, capacity: nat)
    requires ack.kind.Ack? && WellFormed(s, capacity)
    ensures var (t, firstSeen) := AbsorbAck(s, ack, now, capacity);
            && WellFormed(t, capacity)
            && (forall x :: x in t ==> (x in s && x.id != ack.kind.ackBundleId) || (firstSeen && x == ack))
            && (forall x :: x in s && x.id != ack.kind.ackBundleId && !IsExpired(x, now) ==> x in t)
            && (firstSeen ==> ack in t)
  {
    AbsorbKeeps(s, ack, now, capacity);
    WithoutFacts(s, ack.kind.ackBundleId);
    SaveMembers(Without(s, ack.kind.ackBundleId), ack, now, capacity);
  }

  lemma {:induction false} OffersMembers(bundles: seq<Bundle>, to: Uuid)
    ensures forall m :: m in Offers(bundles, to) <==> m.to == to && m.bundle in bundles
  {
    if bundles != [] {
      OffersMembers(bundles[..|bundles| - 1], to);
      assert bundles == bundles[..|bundles| - 1] + [bundles[|bundles| - 1]];
    }
  }

  /** Every peer is offered exactly the bundles its summary vector lacks. */
  lemma {:induction false} FloodMembers(bundles: seq<Bundle>, peers: seq<Registry.PeerRecord>, w: World)
    ensures forall m :: m in Flood(bundles, peers, w) <==>
              && m.bundle in bundles && (m.to !in w.vectors || m.bundle.id !in w.vectors[m.to])
              && exists p :: p in peers && p.node.id == m.to
  {
    if peers != [] {
      var init, last := peers[..|peers| - 1], peers[|peers| - 1];
      assert peers == init + [last];
      FloodMembers(bundles, init, w);
      OffersMembers(Missing(bundles, Vector(w, last.node.id)), last.node.id);
    }
  }

  // ---- The branches of route_bundle ----------------------------------------------------------

  lemma {:induction false} AckAtDestination(self: Uuid, peers: seq<Uuid>, s: seq<Bundle>, b: Bundle, w: World,
                                            capacity: nat)
    requires Acceptable(self, s, b, w, capacity) && b.kind.Ack? && self == b.destination.id
    ensures Lawful(self, s, b, RouteAck(self, peers, s, b, w, capacity), w, capacity)
  {
    var o := RouteAck(self, peers, s, b, w, capacity);
    var (t, firstSeen) := AbsorbAck(s, b, w.now, capacity);
    var delivered := b.(status := Delivered);
    AbsorbMembers(s, b, w.now, capacity);
    UpsertMembers(t, delivered, w.now, capacity);
    forall x | x in o.store ensures Sprung(x, s, News(b, None)) && StatusFits(self, x) {
      assert x in t || x == delivered;
    }
    forall y | y in s && !IsExpired(y, w.now) && y.id !in Dropped(b) ensures Holds(o.store, y) {
      assert y in t;
      assert y.id != b.id;
      assert y in o.store;
    }
    AckDisplaces(s, b, w.now, capacity);
    if firstSeen {
      assert Has(t, b.id);
      assert IsAckFor(delivered, b.kind.ackBundleId);
    }
  }

  lemma {:induction false} AckDisplaces(s: seq<Bundle>, ack: Bundle, now: int, capacity: nat)
    requires ack.kind.Ack? && WellFormed(s, capacity) && !Has(s, ack.id)
    ensures Has(s, ack.kind.ackBundleId) && !HasAck(s, ack.kind.ackBundleId) ==> AbsorbAck(s, ack, now, capacity).1
  {
    if Has(s, ack.kind.ackBundleId) && !HasAck(s, ack.kind.ackBundleId) {
      AckDisplacesData(s, ack, now, capacity);
    }
  }

  lemma {:induction false} ReplaceLast(s: seq<Bundle>, b: Bundle, again: Bundle)
    requires again.id == b.id && !Has(s, b.id)
    ensures Replace(s + [b], again) == s + [again]
  {
    if s == [] {
      assert s + [b] == [b];
    } else {
      assert s[0] in s && (s + [b])[0] == s[0] && (s + [b])[1..] == s[1..] + [b];
      assert forall x :: x in s[1..] ==> x in s;
      ReplaceLast(s[1..], b, again);
    }
  }

  /** Upserting the bundle just appended, with another status, changes the last entry. */
  lemma {:induction false} UpsertLast(s: seq<Bundle>, b: Bundle, again: Bundle, now: int, capacity: nat)
    requires Core(again) == Core(b) && !Has(s, b.id)
    requires !Blocked(s, b)
    ensures Upsert(s + [b], again, now, capacity) == (s + [again], true)
  {
    assert b in s + [b];
    assert forall x :: x in s + [b] <==> x in s || x == b;
    ReplaceLast(s, b, again);
  }

  /** A relay's store after a new ACK: its Data gone, the expired bundles gone, the ACK at the end. */
  lemma {:induction false} AckRelayStore(self: Uuid, peers: seq<Uuid>, s: seq<Bundle>, b: Bundle, w: World,
                                         capacity: nat)
    requires b.kind.Ack? && self != b.destination.id
    ensures var o := RouteAck(self, peers, s, b, w, capacity);
            var (t, firstSeen) := AbsorbAck(s, b, w.now, capacity);
            && (!firstSeen ==> o.store == t && o.sent == [])
            && (firstSeen ==> o.store == Cleanup(Without(s, b.kind.ackBundleId), w.now) + [o.bundle])
            && (o.bundle == b || (firstSeen && o.bundle == b.(status := InTransit)))
            && o.minted.None?
            && (forall m :: m in o.sent ==> m.bundle == b)
  {
    var rest := Cleanup(Without(s, b.kind.ackBundleId), w.now);
    if AbsorbAck(s, b, w.now, capacity).1 {
      UpsertLast(rest, b, b.(status := InTransit), w.now, capacity);
      FloodMembers([b], Reachable(w, self, Including(peers, b.destination.id)), w);
    }
  }

  lemma {:induction false} AckAtRelay(self: Uuid, peers: seq<Uuid>, s: seq<Bundle>, b: Bundle, w: World,
                                      capacity: nat)
    requires Acceptable(self, s, b, w, capacity) && b.kind.Ack? && self != b.destination.id
    ensures Lawful(self, s, b, RouteAck(self, peers, s, b, w, capacity), w, capacity)
  {
    var o := RouteAck(self, peers, s, b, w, capacity);
    var (t, firstSeen) := AbsorbAck(s, b, w.now, capacity);
    AbsorbMembers(s, b, w.now, capacity);
    AckDisplaces(s, b, w.now, capacity);
    AckRelayStore(self, peers, s, b, w, capacity);
    var rest := Cleanup(Without(s, b.kind.ackBundleId), w.now);
    if firstSeen {
      AppendKeeps(rest, o.bundle, capacity);
      assert o.bundle in o.store && IsAckFor(o.bundle, b.kind.ackBundleId);
    }
    forall y | y in s && !IsExpired(y, w.now) && y.id !in Dropped(b) ensures Holds(o.store, y) {
      assert y in t && (firstSeen ==> y in rest);
      assert y in o.store;
    }
    forall d, a | d in o.store && a in o.store && d.kind.Data? && IsAckFor(a, d.id)
      ensures d.destination.id == self
    {
      assert d in s && d.id != b.kind.ackBundleId;
      assert a in s;
    }
  }

  lemma {:induction false} AppendKeeps(s: seq<Bundle>, b: Bundle, capacity: nat)
    requires WellFormed(s + [b.(status := Pending)], capacity)
    ensures WellFormed(s + [b], capacity)
    ensures forall x :: x in s + [b] <==> x in s || x == b
  {
    var t := s + [b.(status := Pending)];
    forall i, j | 0 <= i < j < |s| + 1 ensures (s + [b])[i].id != (s + [b])[j].id {
      assert t[i].id != t[j].id;
    }
  }

  lemma {:induction false} ExpiredData(self: Uuid, s: seq<Bundle>, b: Bundle, w: World, capacity: nat)
    requires Acceptable(self, s, b, w, capacity) && b.kind.Data?
    ensures Lawful(self, s, b, RouteExpired(s, b), w, capacity)
  {
    WithoutFacts(s, b.id);
  }

  /** A relay's store after new Data: the expired bundles gone, and the Data at the end if it was saved. */
  lemma {:induction false} DataRelayStore(self: Uuid, peers: seq<Uuid>, s: seq<Bundle>, b: Bundle, w: World,
                                          capacity: nat)
    requires !Has(s, b.id)
    ensures var o := RouteAtRelay(self, peers, s, b, w, capacity);
            var kept := Cleanup(s, w.now);
            && (o.bundle == b || o.bundle == b.(status := InTransit))
            && o.store == (if Admissible(kept, b, capacity) then kept + [o.bundle] else kept)
            && o.minted.None?
            && (forall m :: m in o.sent ==> m.bundle in s || m.bundle == b)
  {
    var kept := Cleanup(s, w.now);
    var (t, ok) := Save(s, b, w.now, capacity);
    assert !Has(kept, b.id);
    FloodMembers(Filter(t, IsPending()), Reachable(w, self, Including(peers, b.source.id)), w);
    CleanupFacts(s, w.now);
    if ok {
      UpsertLast(kept, b, b.(status := InTransit), w.now, capacity);
    }
  }

  lemma {:induction false} DataAtRelay(self: Uuid, peers: seq<Uuid>, s: seq<Bundle>, b: Bundle, w: World,
                                       capacity: nat)
    requires Acceptable(self, s, b, w, capacity) && b.kind.Data? && self != b.destination.id
    ensures Lawful(self, s, b, RouteAtRelay(self, peers, s, b, w, capacity), w, capacity)
  {
    var o := RouteAtRelay(self, peers, s, b, w, capacity);
    DataRelayStore(self, peers, s, b, w, capacity);
    SaveKeeps(s, b, w.now, capacity);
    SavedIsLawful(self, s, b, o, w, capacity);
  }

  lemma {:induction false} SavedIsLawful(self: Uuid, s: seq<Bundle>, b: Bundle, o: Outcome, w: World, capacity: nat)
    requires Acceptable(self, s, b, w, capacity) && b.kind.Data? && self != b.destination.id
    requires WellFormed(Save(s, b, w.now, capacity).0, capacity)
    requires Core(o.bundle) == b && StatusFits(self, o.bundle)
    requires var kept := Cleanup(s, w.now);
             o.store == (if Admissible(kept, b, capacity) then kept + [o.bundle] else kept)
    requires o.minted.None? && forall m :: m in o.sent ==> m.bundle in s || m.bundle == b
    ensures Lawful(self, s, b, o, w, capacity)
  {
    var kept := Cleanup(s, w.now);
    assert NodeInv(self, o.store, capacity) by {
      if Admissible(kept, b, capacity) {
        AppendKeeps(kept, o.bundle, capacity);
      }
      SameCore(o.bundle, b);
      SavedKeepsNodeInv(self, s, b, o, capacity);
    }
    forall y | y in s && !IsExpired(y, w.now) ensures Holds(o.store, y) {
      assert y in kept;
      assert y in o.store;
    }
  }

  lemma {:induction false} SavedKeepsNodeInv(self: Uuid, s: seq<Bundle>, b: Bundle, o: Outcome, capacity: nat)
    requires NodeInv(self, s, capacity) && WellFormed(o.store, capacity)
    requires b.kind.Data? && Core(o.bundle) == b && StatusFits(self, o.bundle)
    requires forall x :: x in o.store ==> x in s || x == o.bundle
    requires o.bundle in o.store ==> !HasAck(o.store, b.id)
    ensures NodeInv(self, o.store, capacity)
  {
    SameCore(o.bundle, b);
    forall d, a | d in o.store && a in o.store && d.kind.Data? && IsAckFor(a, d.id)
      ensures d.destination.id == self
    {
      assert a in s;
      assert d in s;
    }
  }

  /** What the destination's store holds after new Data: nothing but the old bundles, the Data as Delivered, and
      the minted ACK; with the ACK stored, the Data is too unless an ACK blocked it. */
  predicate DestinationOutcome(s: seq<Bundle>, b: Bundle, o: Outcome, w: World, capacity: nat) {
    var delivered, ack := b.(status := Delivered), NewAck(b, w.freshId, w.now);
    && WellFormed(o.store, capacity)
    && (o.minted.Some? ==> o.minted.value == ack)
    && (forall x :: x in o.store ==>
          x in s || x == delivered || (o.minted.Some? && (x == ack || x == ack.(status := InTransit))))
    && (forall y :: y in s && !IsExpired(y, w.now) ==> y in o.store)
    && (o.minted.Some? ==> ack in o.store || ack.(status := InTransit) in o.store)
    && (o.minted.Some? && !HasAck(s, b.id) ==> delivered in o.store)
    && (forall m :: m in o.sent ==> o.minted.Some? && m.bundle == ack)
  }

  lemma {:induction false} StoreAtDestination(self: Uuid, peers: seq<Uuid>, s: seq<Bundle>, b: Bundle, w: World,
                                              capacity: nat)
    requires WellFormed(s, capacity) && b.kind.Data? && !Has(s, b.id) && !Has(s, w.freshId) && w.freshId != b.id
    requires !IsExpired(b, w.now)
    ensures DestinationOutcome(s, b, RouteAtDestination(self, peers, s, b, w, capacity), w, capacity)
  {
    var o := RouteAtDestination(self, peers, s, b, w, capacity);
    var delivered := b.(status := Delivered);
    var t := Upsert(s, delivered, w.now, capacity).0;
    SaveMembers(s, delivered, w.now, capacity);
    var ack := NewAck(delivered, w.freshId, w.now);
    assert ack == NewAck(b, w.freshId, w.now);
    assert !Has(t, ack.id);
    SaveMembers(t, ack, w.now, capacity);
    var (u, created) := Save(t, ack, w.now, capacity);
    if created {
      assert ack in u && Has(u, ack.id);
      UpsertMembers(u, ack.(status := InTransit), w.now, capacity);
      FloodMembers([ack], Reachable(w, self, Including(peers, b.source.id)), w);
      if !HasAck(s, b.id) {
        RoomTwice(s, delivered, ack, w.now, capacity);
      }
    }
  }

  lemma {:induction false} DestinationKeepsNodeInv(self: Uuid, s: seq<Bundle>, b: Bundle, ack: Bundle,
                                                   t: seq<Bundle>, capacity: nat)
    requires NodeInv(self, s, capacity) && WellFormed(t, capacity)
    requires b.kind.Data? && self == b.destination.id && b.source.id != self && ack == NewAck(b, ack.id, ack.timestamp)
    requires forall x :: x in t ==> x in s || x == b.(status := Delivered) || x == ack || x == ack.(status := InTransit)
    requires !Has(s, b.id)
    ensures NodeInv(self, t, capacity)
  {
    forall d, a | d in t && a in t && d.kind.Data? && IsAckFor(a, d.id) ensures d.destination.id == self {
      assert d in s || d == b.(status := Delivered);
      assert a in s || a == ack || a == ack.(status := InTransit);
    }
  }

  lemma {:induction false} DataAtDestination(self: Uuid, peers: seq<Uuid>, s: seq<Bundle>, b: Bundle, w: World,
                                             capacity: nat)
    requires Acceptable(self, s, b, w, capacity) && b.kind.Data? && self == b.destination.id
    requires !IsExpired(b, w.now)
    ensures Lawful(self, s, b, RouteAtDestination(self, peers, s, b, w, capacity), w, capacity)
  {
    StoreAtDestination(self, peers, s, b, w, capacity);
    DeliveredIsLawful(self, s, b, RouteAtDestination(self, peers, s, b, w, capacity), w, capacity);
  }

  lemma {:induction false} DeliveredIsLawful(self: Uuid, s: seq<Bundle>, b: Bundle, o: Outcome, w: World,
                                             capacity: nat)
    requires Acceptable(self, s, b, w, capacity) && b.kind.Data? && self == b.destination.id
    requires !IsExpired(b, w.now)
    requires DestinationOutcome(s, b, o, w, capacity)
    ensures Lawful(self, s, b, o, w, capacity)
  {
    var ack := NewAck(b, w.freshId, w.now);
    DestinationKeepsNodeInv(self, s, b, ack, o.store, capacity);
    assert Core(ack) == ack && Core(ack.(status := InTransit)) == ack && Core(b.(status := Delivered)) == b;
  }

  /** If there was room for the ACK there was room for its Data just before. */
  lemma {:induction false} RoomTwice(s: seq<Bundle>, d: Bundle, ack: Bundle, now: int, capacity: nat)
    requires d.kind.Data? && !Has(s, d.id) && !HasAck(s, d.id)
    requires var t := Save(s, d, now, capacity).0; Save(t, ack, now, capacity).1
    ensures Save(s, d, now, capacity).1
  {
    CleanupFacts(s, now);
    var kept := Cleanup(s, now);
    assert !Has(kept, d.id) && !HasAck(kept, d.id);
  }

  /** Every routed bundle, whatever its branch, leaves the store lawful. */
  lemma {:induction false} RouteIsLawful(self: Uuid, peers: seq<Uuid>, s: seq<Bundle>, b: Bundle, w: World,
                                         capacity: nat)
    requires Acceptable(self, s, b, w, capacity)
    ensures Lawful(self, s, b, Route(self, peers, s, b, w, capacity), w, capacity)
  {
    if b.kind.Ack? {
      if self == b.destination.id {
        AckAtDestination(self, peers, s, b, w, capacity);
      } else {
        AckAtRelay(self, peers, s, b, w, capacity);
      }
    } else if IsExpired(b, w.now) {
      ExpiredData(self, s, b, w, capacity);
    } else if self == b.destination.id {
      DataAtDestination(self, peers, s, b, w, capacity);
    } else {
      DataAtRelay(self, peers, s, b, w, capacity);
    }
  }

  // ---- When a store takes a bundle in --------------------------------------------------------

  /** Received Data is stored exactly when no unexpired ACK blocks it and one slot is free; the destination mints
      an ACK exactly when a second slot is free, or when an ACK it already has kept the Data out. */
  lemma {:induction false} DataAdmission(self: Uuid, peers: seq<Uuid>, s: seq<Bundle>, b: Bundle, w: World,
                                         capacity: nat)
    requires Acceptable(self, s, b, w, capacity) && b.kind.Data? && !IsExpired(b, w.now)
    ensures var o := Route(self, peers, s, b, w, capacity);
            var kept := Cleanup(s, w.now);
            && (Has(o.store, b.id) <==> !HasAck(kept, b.id) && |kept| < capacity)
            && (o.minted.Some? <==>
                  self == b.destination.id && |kept| + (if HasAck(kept, b.id) then 1 else 2) <= capacity)
  {
    var kept := Cleanup(s, w.now);
    CleanupFacts(s, w.now);
    assert !Has(kept, b.id);
    if self == b.destination.id {
      DestinationAdmission(self, peers, s, b, w, capacity);
    } else {
      DataRelayStore(self, peers, s, b, w, capacity);
      var o := RouteAtRelay(self, peers, s, b, w, capacity);
      if Admissible(kept, b, capacity) {
        assert o.bundle in o.store;
      }
    }
  }

  lemma {:induction false} DestinationAdmission(self: Uuid, peers: seq<Uuid>, s: seq<Bundle>, b: Bundle, w: World,
                                                capacity: nat)
    requires Acceptable(self, s, b, w, capacity) && b.kind.Data? && self == b.destination.id
    requires !IsExpired(b, w.now)
    ensures var o := RouteAtDestination(self, peers, s, b, w, capacity);
            var kept := Cleanup(s, w.now);
            && (Has(o.store, b.id) <==> !HasAck(kept, b.id) && |kept| < capacity)
            && (o.minted.Some? <==> |kept| + (if HasAck(kept, b.id) then 1 else 2) <= capacity)
  {
    var delivered, ack := b.(status := Delivered), NewAck(b, w.freshId, w.now);
    var (t, ok) := Save(s, delivered, w.now, capacity);
    SaveMembers(s, delivered, w.now, capacity);
    CleanupFacts(s, w.now);
    AllUnexpired(t, w.now);
    assert ok <==> !HasAck(Cleanup(s, w.now), b.id) && |Cleanup(s, w.now)| < capacity;
    assert Has(t, b.id) <==> ok by {
      assert ok ==> delivered in t;
    }
    assert Save(t, ack, w.now, capacity) == if |t| < capacity then (t + [ack], true) else (t, false);
    MintedStore(self, peers, s, b, w, capacity);
  }

  /** The destination's store: the Data saved if it can be, then the minted ACK at the end. */
  lemma {:induction false} MintedStore(self: Uuid, peers: seq<Uuid>, s: seq<Bundle>, b: Bundle, w: World,
                                       capacity: nat)
    requires b.kind.Data? && !Has(s, b.id) && !Has(s, w.freshId) && w.freshId != b.id
    ensures var o := RouteAtDestination(self, peers, s, b, w, capacity);
            var t := Save(s, b.(status := Delivered), w.now, capacity).0;
            var (u, created) := Save(t, NewAck(b, w.freshId, w.now), w.now, capacity);
            && (o.minted.Some? <==> created)
            && (!created ==> o.store == u)
            && (created ==>
                  exists x: Bundle :: Core(x) == NewAck(b, w.freshId, w.now) && o.store == Cleanup(t, w.now) + [x])
  {
    var delivered := b.(status := Delivered);
    var t := Save(s, delivered, w.now, capacity).0;
    var ack := NewAck(delivered, w.freshId, w.now);
    assert ack == NewAck(b, w.freshId, w.now);
    assert !Has(t, ack.id);
    var o := RouteAtDestination(self, peers, s, b, w, capacity);
    var moving := ack.(status := InTransit);
    if Save(t, ack, w.now, capacity).1 {
      UpsertLast(Cleanup(t, w.now), ack, moving, w.now, capacity);
      assert o.store == Cleanup(t, w.now) + [ack] || o.store == Cleanup(t, w.now) + [moving];
    }
  }

  lemma {:induction false} AllUnexpired(t: seq<Bundle>, now: int)
    requires forall x :: x in t ==> !IsExpired(x, now)
    ensures Cleanup(t, now) == t
  {
    FilterAll(t, Unexpired(now));
  }

  /** A received ACK, the first for its Data at this node, is stored exactly when it displaces the Data or one slot
      is free. */
  lemma {:induction false} AckAdmission(self: Uuid, peers: seq<Uuid>, s: seq<Bundle>, b: Bundle, w: World,
                                        capacity: nat)
    requires Acceptable(self, s, b, w, capacity) && b.kind.Ack? && !HasAck(s, b.kind.ackBundleId)
    ensures HasAck(Route(self, peers, s, b, w, capacity).store, b.kind.ackBundleId)
            <==> Has(s, b.kind.ackBundleId) || |Cleanup(s, w.now)| < capacity
  {
    var id := b.kind.ackBundleId;
    var rest := Without(s, id);
    WithoutFacts(s, id);
    var kept := Cleanup(rest, w.now);
    assert !HasAck(rest, id) && !Has(rest, b.id) && !HasAck(kept, id) && !Has(kept, b.id);
    CleanupFacts(rest, w.now);
    var (t, firstSeen) := AbsorbAck(s, b, w.now, capacity);
    assert firstSeen <==> |kept| < capacity;
    var o := RouteAck(self, peers, s, b, w, capacity);
    if self == b.destination.id {
      var delivered := b.(status := Delivered);
      if firstSeen {
        UpsertLast(kept, b, delivered, w.now, capacity);
        assert delivered in o.store && IsAckFor(delivered, id);
      } else {
        assert o.store == kept;
      }
    } else {
      AckRelayStore(self, peers, s, b, w, capacity);
      if firstSeen {
        assert o.bundle in o.store && IsAckFor(o.bundle, id);
      }
    }
  }

  // ---- retry_unsynced_bundles and drop_expired_bundles ---------------------------------------

  /** The bundle after a retry that confirmed `ids`. */
  function Marked(s: seq<Bundle>, b: Bundle, ids: seq<Uuid>): Bundle {
    if b.id in ids && !Blocked(s, b) then b.(status := InTransit) else b
  }

  lemma {:induction false} SameKinds(s: seq<Bundle>, t: seq<Bundle>, dataId: Uuid)
    requires |s| == |t| && forall i :: 0 <= i < |s| ==> Core(s[i]) == Core(t[i])
    ensures HasAck(s, dataId) <==> HasAck(t, dataId)
  {
    if HasAck(s, dataId) {
      var i :| 0 <= i < |s| && IsAckFor(s[i], dataId);
      assert Core(t[i]).kind == t[i].kind && t[i] in t;
    }
    if HasAck(t, dataId) {
      var i :| 0 <= i < |t| && IsAckFor(t[i], dataId);
      assert Core(s[i]).kind == s[i].kind && s[i] in s;
    }
  }

  /** One marking at a time or all at once: every bundle whose id is listed, unless blocked, becomes InTransit
      in place, and nothing else changes. */
  lemma {:induction false} MarkAllPointwise(s: seq<Bundle>, ids: seq<Uuid>)
    requires Distinct(s)
    ensures |MarkAll(s, ids)| == |s|
    ensures forall i :: 0 <= i < |s| ==> MarkAll(s, ids)[i] == Marked(s, s[i], ids)
  {
    if ids != [] {
      var init, id := ids[..|ids| - 1], ids[|ids| - 1];
      assert ids == init + [id];
      MarkAllPointwise(s, init);
      var t := MarkAll(s, init);
      assert forall i :: 0 <= i < |s| ==> t[i].id == s[i].id;
      MarkOne(s, t, init, id);
    }
  }

  lemma {:induction false} MarkOne(s: seq<Bundle>, t: seq<Bundle>, init: seq<Uuid>, id: Uuid)
    requires Distinct(s) && Distinct(t)
    requires |t| == |s| && forall i :: 0 <= i < |s| ==> t[i] == Marked(s, s[i], init)
    ensures var r := match Find(t, id) case None => t case Some(b) => Update(t, b.(status := InTransit)).0;
            |r| == |s| && forall i :: 0 <= i < |s| ==> r[i] == Marked(s, s[i], init + [id])
  {
    match Find(t, id)
    case None =>
      forall i | 0 <= i < |s| ensures s[i].id != id {
        assert t[i] in t;
      }
    case Some(b) =>
      SameKinds(s, t, id);
      var moving := b.(status := InTransit);
      forall i | 0 <= i < |s|
        ensures Replace(t, moving)[i] == (if s[i].id == id then s[i].(status := InTransit) else t[i])
      {
        ReplaceAt(t, moving, i);
        if t[i].id == id {
          SameId(t, t[i], b);
        }
      }
  }

  lemma {:induction false} AddSentMembers(ids: seq<Uuid>, bundles: seq<Bundle>, peer: Uuid, w: World)
    ensures forall id :: id in AddSent(ids, bundles, peer, w) <==>
              id in ids || (Has(bundles, id) && (peer, id) in w.answered)
  {
    if bundles != [] {
      var init, last := bundles[..|bundles| - 1], bundles[|bundles| - 1];
      assert bundles == init + [last];
      AddSentMembers(ids, init, peer, w);
      forall id ensures Has(bundles, id) <==> Has(init, id) || id == last.id {
        assert last in bundles;
        if Has(init, id) {
          var x :| x in init && x.id == id;
          assert x in bundles;
        }
      }
    }
  }

  /** A retry records exactly the ids that some reachable peer lacked and whose send it confirmed. */
  lemma {:induction false} SentIdsMembers(bundles: seq<Bundle>, peers: seq<Registry.PeerRecord>, w: World, id: Uuid)
    ensures id in SentIds(bundles, peers, w) <==>
              Has(bundles, id)
              && exists p :: p in peers && (p.node.id !in w.vectors || id !in w.vectors[p.node.id])
                   && (p.node.id, id) in w.answered
  {
    if peers != [] {
      var init, last := peers[..|peers| - 1], peers[|peers| - 1];
      assert peers == init + [last];
      SentIdsMembers(bundles, init, w, id);
      var missing := Missing(bundles, Vector(w, last.node.id));
      AddSentMembers(SentIds(bundles, init, w), missing, last.node.id, w);
      assert Has(missing, id) <==> Has(bundles, id) && id !in Vector(w, last.node.id);
    }
  }

  /** A retry changes only statuses, from Pending to InTransit, and sends only stored bundles. */
  lemma {:induction false} RetryIsLawful(self: Uuid, peers: seq<Uuid>, s: seq<Bundle>, w: World, capacity: nat)
    requires NodeInv(self, s, capacity)
    ensures var (t, sent) := Retry(self, peers, s, w);
            && NodeInv(self, t, capacity)
            && AllSprung(t, s, {}) && SentSprung(sent, s, {})
            && KeptExcept(s, t, w.now, {})
  {
    var targets := Reachable(w, self, peers);
    var retryable := Filter(s, IsRetryable());
    var ids := SentIds(retryable, targets, w);
    var t := MarkAll(s, ids);
    MarkAllPointwise(s, ids);
    FloodMembers(retryable, targets, w);
    forall i | 0 <= i < |s| ensures Core(t[i]) == Core(s[i]) && StatusFits(self, t[i]) {
      assert s[i] in s;
      SentIdsMembers(retryable, targets, w, s[i].id);
      if s[i].id in ids {
        var x :| x in retryable && x.id == s[i].id;
        SameId(s, x, s[i]);
      }
    }
    forall x | x in t ensures StatusFits(self, x) {
      var i :| 0 <= i < |t| && t[i] == x;
    }
    StatusOnly(self, s, t, w.now, capacity);
  }

  predicate SameUpToStatus(s: seq<Bundle>, t: seq<Bundle>) {
    |t| == |s| && forall i :: 0 <= i < |s| ==> Core(t[i]) == Core(s[i])
  }

  lemma {:induction false} SameCore(x: Bundle, y: Bundle)
    requires Core(x) == Core(y)
    ensures x.id == y.id && x.kind == y.kind && x.destination == y.destination
  {
    assert x.id == Core(x).id && y.id == Core(y).id && x.kind == Core(x).kind && y.kind == Core(y).kind;
    assert x.destination == Core(x).destination && y.destination == Core(y).destination;
  }

  lemma {:induction false} StatusKeepsIds(s: seq<Bundle>, t: seq<Bundle>)
    requires SameUpToStatus(s, t) && Distinct(s)
    ensures Distinct(t)
  {
    forall i | 0 <= i < |s| ensures t[i].id == s[i].id {
      SameCore(t[i], s[i]);
    }
  }

  lemma {:induction false} StatusKeepsMembers(s: seq<Bundle>, t: seq<Bundle>)
    requires SameUpToStatus(s, t)
    ensures forall y :: y in s ==> Holds(t, y)
    ensures forall x :: x in t ==> Holds(s, x)
  {
    forall y | y in s ensures Holds(t, y) {
      var i :| 0 <= i < |s| && s[i] == y;
      assert t[i] in t;
    }
    forall x | x in t ensures Holds(s, x) {
      var i :| 0 <= i < |t| && t[i] == x;
      assert s[i] in s;
    }
  }

  lemma {:induction false} StatusKeepsExclusive(self: Uuid, s: seq<Bundle>, t: seq<Bundle>)
    requires forall x :: x in t ==> Holds(s, x)
    requires Exclusive(self, s)
    ensures Exclusive(self, t)
  {
    forall d, a | d in t && a in t && d.kind.Data? && IsAckFor(a, d.id) ensures d.destination.id == self {
      assert Holds(s, d) && Holds(s, a);
      var d' :| d' in s && Core(d') == Core(d);
      var a' :| a' in s && Core(a') == Core(a);
      SameCore(d, d');
      SameCore(a, a');
      assert IsAckFor(a', d'.id);
    }
  }

  lemma {:induction false} StatusKeepsPlain(s: seq<Bundle>, t: seq<Bundle>)
    requires forall x :: x in t ==> Holds(s, x)
    requires Plain(s)
    ensures Plain(t)
  {
    forall x | x in t ensures x.kind.Data? || x.kind.Ack? {
      assert Holds(s, x);
      var y :| y in s && Core(y) == Core(x);
      SameCore(x, y);
    }
  }

  /** Changing statuses only, to fitting ones, keeps the store's invariants. */
  lemma {:induction false} StatusOnly(self: Uuid, s: seq<Bundle>, t: seq<Bundle>, now: int, capacity: nat)
    requires NodeInv(self, s, capacity) && SameUpToStatus(s, t) && StatusesFit(self, t)
    ensures NodeInv(self, t, capacity) && AllSprung(t, s, {}) && KeptExcept(s, t, now, {})
  {
    StatusKeepsMembers(s, t);
    assert Distinct(t) by { StatusKeepsIds(s, t); }
    assert Plain(t) by { StatusKeepsPlain(s, t); }
    assert Exclusive(self, t) by { StatusKeepsExclusive(self, s, t); }
    forall x | x in t ensures Sprung(x, s, {}) {
      assert Holds(s, x);
    }
  }

  lemma {:induction false} DropIsLawful(self: Uuid, s: seq<Bundle>, now: int, capacity: nat)
    requires NodeInv(self, s, capacity)
    ensures var t := DeleteAll(s, ExpiredIds(s, now));
            t == Cleanup(s, now) && NodeInv(self, t, capacity) && AllSprung(t, s, {}) && KeptExcept(s, t, now, {})
  {
    DropOneByOneIsCleanup(s, now);
    CleanupFacts(s, now);
  }
}
