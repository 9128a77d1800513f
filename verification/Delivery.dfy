/** Delivery along a path: retry, then receive, hop by hop to the destination and back. */
module Delivery {
  import opened Model
  import opened Store
  import opened Registry
  import opened NodeStep
  import opened NodeFacts
  import opened Network
  import opened Runs
  import Table
  import Wire

  /** The links of a network: each node's peer list, and the registry all of them ask. */
  datatype Topology = Topology(peers: map<Uuid, seq<Uuid>>, registry: seq<PeerRecord>)

  function PeersOf(top: Topology, n: Uuid): seq<Uuid> {
    if n in top.peers then top.peers[n] else []
  }

  /** A retry at `i` reaches `j`: the registry reports `j` connected for the peers `i` asks about. */
  predicate Linked(top: Topology, i: Uuid, j: Uuid) {
    i != j && exists p :: p in ConnectedPeers(top.registry, PeersOf(top, i)) && p.node.id == j
  }

  /** The world as it is: every peer answers with its real summary vector. Which sends report success is left open. */
  function RealWorld(net: Net, top: Topology, answered: set<(Uuid, Uuid)>, freshId: Uuid): World {
    World(net.now, top.registry, map n | n in net.stores :: Table.Ids(net.stores[n]), answered, freshId)
  }

  /** Node `i` retries. */
  function Retries(net: Net, top: Topology, answered: set<(Uuid, Uuid)>, freshId: Uuid, i: Uuid): Net {
    var a := Resend(i, PeersOf(top, i), RealWorld(net, top, answered, freshId));
    if Enabled(net, a) then Next(net, a) else net
  }

  /** The wire copy of bundle `id` was sent to `j`. */
  predicate SentTo(net: Net, j: Uuid, id: Uuid) {
    id in net.issued && Message(j, WireCopy(net.issued[id])) in net.sent
  }

  /** Node `j` receives the wire copy of bundle `id`, if it was ever sent to `j`. */
  function Receives(net: Net, top: Topology, answered: set<(Uuid, Uuid)>, freshId: Uuid, j: Uuid, id: Uuid): Net {
    if SentTo(net, j, id) then
      var a := Arrive(j, WireCopy(net.issued[id]), PeersOf(top, j), RealWorld(net, top, answered, freshId));
      if Enabled(net, a) then Next(net, a) else net
    else net
  }

  /** One hop: `i` retries, then `j` receives. */
  function Hop(net: Net, top: Topology, answered: set<(Uuid, Uuid)>, freshId: Uuid, i: Uuid, j: Uuid, id: Uuid): Net {
    Receives(Retries(net, top, answered, freshId, i), top, answered, freshId, j, id)
  }

  /** Bundle `id` is handed along a path. */
  function Walk(net: Net, top: Topology, answered: set<(Uuid, Uuid)>, freshId: Uuid, path: seq<Uuid>, id: Uuid): Net
    decreases |path|
  {
    if |path| < 2 then net
    else Walk(Hop(net, top, answered, freshId, path[0], path[1], id), top, answered, freshId, path[1..], id)
  }

  // ---- What any step keeps -------------------------------------------------------------------

  /** Time stands still, the invariant holds, and no node goes backwards with Data id `d`. */
  predicate Grows(net: Net, net': Net, d: Uuid) {
    && Inv(net') && Extends(net, net') && net'.now == net.now
    && forall n :: n in net.stores ==> n in net'.stores && Phase(net'.stores[n], d) >= Phase(net.stores[n], d)
  }

  predicate LiveData(net: Net, d: Uuid) {
    d in net.issued && net.issued[d].kind.Data? && Live(net.issued[d], net.now)
  }

  lemma {:induction false} MoveGrows(net: Net, net': Net, base: Net, e: NodeEvent, d: Uuid)
    requires Inv(net) && LiveData(net, d) && Moves(net, net', base, e)
    ensures Grows(net, net', d)
    ensures forall n :: n in net.stores && n != e.node ==> net'.stores[n] == net.stores[n]
  {
    EventKeepsInv(base, e);
    MoveExtends(net, net', base, e);
    forall n | n in net.stores ensures n in net'.stores && Phase(net'.stores[n], d) >= Phase(net.stores[n], d) {
      MovePhase(net, net', base, e, n, d);
    }
  }

  lemma {:induction false} StepGrows(net: Net, a: Action, d: Uuid)
    requires Inv(net) && LiveData(net, d) && Enabled(net, a) && !a.Tick?
    ensures Grows(net, Next(net, a), d)
    ensures forall n :: n in net.stores && n != a.node ==> Next(net, a).stores[n] == net.stores[n]
  {
    StepIsProper(net, a);
    var base, e := Base(net, a), EventOf(net, a);
    if a.Send? {
      assert base == Issue(net, NewData(a.source, a.destination, a.msg, a.ttl, a.id, net.now));
    }
    MoveGrows(net, Next(net, a), base, e, d);
  }

  lemma {:induction false} GrowsIsTransitive(a: Net, b: Net, c: Net, d: Uuid)
    requires Grows(a, b, d) && Grows(b, c, d)
    ensures Grows(a, c, d)
  {
  }

  // ---- Room ----------------------------------------------------------------------------------

  /** Free slots once the expired bundles are gone. */
  function Room(net: Net, n: Uuid): int
    requires n in net.stores
  {
    net.capacity - |Cleanup(net.stores[n], net.now)|
  }

  /** A node on the way can take the Data or the ACK: it already has one of them, or one slot is free. */
  predicate RelayReady(net: Net, n: Uuid, d: Uuid) {
    n in net.stores && (Phase(net.stores[n], d) >= 1 || Room(net, n) >= 1)
  }

  /** The destination can take Data and ACK together, or has done so. */
  predicate DestinationReady(net: Net, n: Uuid, d: Uuid) {
    n in net.stores && (Phase(net.stores[n], d) == 2 || (Phase(net.stores[n], d) == 0 && Room(net, n) >= 2))
  }

  predicate Ready(net: Net, n: Uuid, d: Uuid)
    requires d in net.issued
  {
    if n == net.issued[d].destination.id then DestinationReady(net, n, d) else RelayReady(net, n, d)
  }

  /** A step at node `m` leaves the others ready, and `m` itself if its phase and room stay, or if it holds the Data
      or an ACK afterwards. */
  lemma {:induction false} StaysReady(net: Net, net': Net, m: Uuid, n: Uuid, d: Uuid)
    requires d in net.issued && Grows(net, net', d) && Ready(net, n, d)
    requires forall k :: k in net.stores && k != m ==> net'.stores[k] == net.stores[k]
    requires n == m ==> (Phase(net'.stores[m], d) == Phase(net.stores[m], d) && Room(net', m) == Room(net, m))
                        || Phase(net'.stores[m], d) == 2
                        || (n != net.issued[d].destination.id && Phase(net'.stores[m], d) >= 1)
    ensures Ready(net', n, d)
  {
  }

  // ---- One hop -------------------------------------------------------------------------------

  lemma {:induction false} ReachableMembers(w: World, self: Uuid, ids: seq<Uuid>)
    ensures forall p :: p in Reachable(w, self, ids) <==>
              p in ConnectedPeers(w.registry, ids) && p.node.id != self
  {
  }

  /** A retry puts on the wire every retryable bundle that a linked peer lacks. */
  lemma {:induction false} RetryOffers(net: Net, top: Topology, answered: set<(Uuid, Uuid)>, freshId: Uuid, i: Uuid,
                                       j: Uuid, x: Bundle)
    requires Inv(net) && i in net.stores && j in net.stores && Linked(top, i, j)
    requires x in net.stores[i] && i != x.destination.id && !Has(net.stores[j], x.id)
    ensures x.id in net.issued && SentTo(Retries(net, top, answered, freshId, i), j, x.id)
  {
    var w := RealWorld(net, top, answered, freshId);
    RetryHandsOver(net, top, w, i, j, x);
    OfferedIsCopied(net, x);
    assert Carried(Message(j, x)) in Copies(EventOf(net, Resend(i, PeersOf(top, i), w)).sent);
  }

  lemma {:induction false} RetryHandsOver(net: Net, top: Topology, w: World, i: Uuid, j: Uuid, x: Bundle)
    requires Inv(net) && i in net.stores && j in net.stores && Linked(top, i, j)
    requires w.registry == top.registry && j in w.vectors && w.vectors[j] == Table.Ids(net.stores[j])
    requires x in net.stores[i] && i != x.destination.id && !Has(net.stores[j], x.id)
    ensures Message(j, x) in NodeStep.Retry(i, PeersOf(top, i), net.stores[i], w).1
  {
    var peers, s := PeersOf(top, i), net.stores[i];
    StoreIsWell(net, i);
    assert StatusFits(i, x);
    assert x in Filter(s, IsRetryable());
    Table.IdsMembers(net.stores[j], x.id);
    ReachableMembers(w, i, peers);
    FloodMembers(Filter(s, IsRetryable()), Reachable(w, i, peers), w);
  }

  /** With real summary vectors a retry sends a linked node exactly the Pending and InTransit bundles it does not
      hold. */
  lemma {:induction false} RetryInTheRealWorld(net: Net, top: Topology, answered: set<(Uuid, Uuid)>, freshId: Uuid,
                                               i: Uuid, j: Uuid, x: Bundle)
    requires i in net.stores && j in net.stores && Linked(top, i, j)
    ensures var w := RealWorld(net, top, answered, freshId);
            Message(j, x) in NodeStep.Retry(i, PeersOf(top, i), net.stores[i], w).1 <==>
              x in net.stores[i] && (x.status == Pending || x.status == InTransit) && !Has(net.stores[j], x.id)
  {
    var w := RealWorld(net, top, answered, freshId);
    Table.IdsMembers(net.stores[j], x.id);
    ReachableMembers(w, i, PeersOf(top, i));
    FloodMembers(Filter(net.stores[i], IsRetryable()), Reachable(w, i, PeersOf(top, i)), w);
  }

  /** So it sends that node nothing if and only if the node holds all of them. */
  lemma {:induction false} RetryIsSilentIff(net: Net, top: Topology, answered: set<(Uuid, Uuid)>, freshId: Uuid,
                                            i: Uuid, j: Uuid)
    requires i in net.stores && j in net.stores && Linked(top, i, j)
    ensures var w := RealWorld(net, top, answered, freshId);
            (forall m :: m in NodeStep.Retry(i, PeersOf(top, i), net.stores[i], w).1 ==> m.to != j) <==>
              (forall x :: x in net.stores[i] && (x.status == Pending || x.status == InTransit) ==>
                 Has(net.stores[j], x.id))
  {
    var sent := NodeStep.Retry(i, PeersOf(top, i), net.stores[i], RealWorld(net, top, answered, freshId)).1;
    forall x: Bundle
      ensures Message(j, x) in sent <==>
                x in net.stores[i] && (x.status == Pending || x.status == InTransit) && !Has(net.stores[j], x.id)
    {
      RetryInTheRealWorld(net, top, answered, freshId, i, j, x);
    }
    if m :| m in sent && m.to == j {
      assert Message(j, m.bundle) in sent;
    }
    if x :| x in net.stores[i] && (x.status == Pending || x.status == InTransit) && !Has(net.stores[j], x.id) {
      assert Message(j, x) in sent;
    }
  }

  /** Links do the work: a retry puts nothing on the wire for a node it is not linked to. */
  lemma {:induction false} OnlyLinksCarry(net: Net, top: Topology, answered: set<(Uuid, Uuid)>, freshId: Uuid, i: Uuid,
                                          j: Uuid, id: Uuid)
    requires Inv(net) && !Linked(top, i, j)
    ensures SentTo(Retries(net, top, answered, freshId, i), j, id) ==> SentTo(net, j, id)
  {
    if i in net.stores {
      var w := RealWorld(net, top, answered, freshId);
      var peers := PeersOf(top, i);
      var sent := NodeStep.Retry(i, peers, net.stores[i], w).1;
      FloodMembers(Filter(net.stores[i], IsRetryable()), Reachable(w, i, peers), w);
      ReachableMembers(w, i, peers);
      forall m | m in sent ensures m.to != j {
      }
      assert EventOf(net, Resend(i, peers, w)).sent == sent;
    }
  }

  lemma {:induction false} OfferedIsCopied(net: Net, x: Bundle)
    requires Inv(net) && Version(x, net.issued)
    ensures Wire.Carry(x) == WireCopy(net.issued[x.id])
  {
    VersionFields(x, net.issued);
    CopyOfVersion(x, net.issued);
    CarryOfPlain(x, Wire.Carry(x));
  }

  lemma {:induction false} StatusKeepsRoom(s: seq<Bundle>, t: seq<Bundle>, now: int)
    requires SameUpToStatus(s, t)
    ensures |Cleanup(s, now)| == |Cleanup(t, now)|
  {
    if s != [] {
      assert Core(t[0]).timestamp == Core(s[0]).timestamp && Core(t[0]).ttl == Core(s[0]).ttl;
      assert Unexpired(now)(t[0]) == Unexpired(now)(s[0]);
      forall i | 0 <= i < |s| - 1 ensures Core(t[1..][i]) == Core(s[1..][i]) {
        assert Core(t[i + 1]) == Core(s[i + 1]);
      }
      StatusKeepsRoom(s[1..], t[1..], now);
    }
  }

  lemma {:induction false} HasUpToStatus(s: seq<Bundle>, t: seq<Bundle>, d: Uuid)
    requires SameUpToStatus(s, t) && Has(s, d)
    ensures Has(t, d)
  {
    var i :| 0 <= i < |s| && s[i].id == d;
    assert Core(t[i]) == Core(s[i]);
    SameCore(t[i], s[i]);
    assert t[i] in t;
  }

  lemma {:induction false} StatusKeepsPhase(s: seq<Bundle>, t: seq<Bundle>, d: Uuid)
    requires SameUpToStatus(s, t)
    ensures Phase(t, d) == Phase(s, d)
  {
    SameKinds(s, t, d);
    if Has(s, d) {
      HasUpToStatus(s, t, d);
    }
    if Has(t, d) {
      HasUpToStatus(t, s, d);
    }
  }

  lemma {:induction false} RetryChangesStatusOnly(self: Uuid, peers: seq<Uuid>, s: seq<Bundle>, w: World)
    requires Distinct(s)
    ensures SameUpToStatus(s, NodeStep.Retry(self, peers, s, w).0)
  {
    MarkAllPointwise(s, SentIds(Filter(s, IsRetryable()), Reachable(w, self, peers), w));
  }

  lemma {:induction false} RetryKeepsPhase(net: Net, a: Action, d: Uuid)
    requires Inv(net) && a.Resend? && Enabled(net, a)
    ensures Phase(Next(net, a).stores[a.node], d) == Phase(net.stores[a.node], d)
    ensures Room(Next(net, a), a.node) == Room(net, a.node)
  {
    var s := net.stores[a.node];
    var t := NodeStep.Retry(a.node, a.peers, s, a.w).0;
    StoreIsWell(net, a.node);
    RetryChangesStatusOnly(a.node, a.peers, s, a.w);
    StatusKeepsRoom(s, t, net.now);
    StatusKeepsPhase(s, t, d);
  }

  /** A retry changes neither phases nor room. */
  lemma {:induction false} RetriesGrow(net: Net, top: Topology, answered: set<(Uuid, Uuid)>, freshId: Uuid, i: Uuid,
                                       d: Uuid)
    requires Inv(net) && LiveData(net, d) && i in net.stores
    ensures var net' := Retries(net, top, answered, freshId, i);
            && Grows(net, net', d) && net'.issued == net.issued
            && (forall n :: n in net.stores && n != i ==> net'.stores[n] == net.stores[n])
            && Phase(net'.stores[i], d) == Phase(net.stores[i], d) && Room(net', i) == Room(net, i)
  {
    var a := Resend(i, PeersOf(top, i), RealWorld(net, top, answered, freshId));
    StepGrows(net, a, d);
    assert EventOf(net, a).minted == None;
    assert Phase(Next(net, a).stores[i], d) == Phase(net.stores[i], d) && Room(Next(net, a), i) == Room(net, i) by {
      RetryKeepsPhase(net, a, d);
    }
  }

  /** The receiving half of a hop, before its effect is looked at. */
  lemma {:induction false} ReceivesGrow(net: Net, top: Topology, answered: set<(Uuid, Uuid)>, freshId: Uuid, j: Uuid,
                                        id: Uuid, d: Uuid)
    requires Inv(net) && LiveData(net, d) && j in net.stores && id in net.issued && freshId !in net.issued
    ensures var net' := Receives(net, top, answered, freshId, j, id);
            && Grows(net, net', d)
            && (forall n :: n in net.stores && n != j ==> net'.stores[n] == net.stores[n])
            && (!SentTo(net, j, id) || Has(net.stores[j], id) ==> net' == net)
            && (SentTo(net, j, id) && !Has(net.stores[j], id) ==>
                  var b, w := WireCopy(net.issued[id]), RealWorld(net, top, answered, freshId);
                  && Acceptable(j, net.stores[j], b, w, net.capacity)
                  && net'.stores[j] == Route(j, PeersOf(top, j), net.stores[j], b, w, net.capacity).store
                  && net'.issued == Record(net.issued,
                                           Route(j, PeersOf(top, j), net.stores[j], b, w, net.capacity).minted))
  {
    var b := WireCopy(net.issued[id]);
    var a := Arrive(j, b, PeersOf(top, j), RealWorld(net, top, answered, freshId));
    if SentTo(net, j, id) {
      assert OnWire(net, b);
      StepGrows(net, a, d);
      if Has(net.stores[j], id) {
        IdleIsProper(net, j);
      } else {
        ArrivalIsAcceptable(net, j, b, a.w);
      }
    }
  }

  /** An ACK anywhere means that live Data and its ACK are at the destination. */
  lemma {:induction false} AckMeansDelivered(net: Net, n: Uuid, d: Uuid)
    requires Inv(net) && LiveData(net, d) && n in net.stores && HasAck(net.stores[n], d)
    ensures net.issued[d].destination.id in net.stores
    ensures Has(net.stores[net.issued[d].destination.id], d)
    ensures Phase(net.stores[net.issued[d].destination.id], d) == 2
  {
    var a := HeldAck(net, n, d);
    IssuedAck(net, a);
    HeldIdIsAck(net, net.issued[d].destination.id, a, d);
  }

  lemma {:induction false} ReceivesData(net: Net, top: Topology, answered: set<(Uuid, Uuid)>, freshId: Uuid, j: Uuid,
                                        d: Uuid)
    requires Inv(net) && LiveData(net, d) && j in net.stores && freshId !in net.issued && Ready(net, j, d)
    requires SentTo(net, j, d) && !Has(net.stores[j], d)
    ensures var net' := Receives(net, top, answered, freshId, j, d);
            && j in net'.stores && Phase(net'.stores[j], d) >= 1
            && (j == net.issued[d].destination.id ==> Phase(net'.stores[j], d) == 2)
            && (j != net.issued[d].destination.id ==> net'.issued == net.issued)
  {
    ReceivesGrow(net, top, answered, freshId, j, d, d);
    var b, w := WireCopy(net.issued[d]), RealWorld(net, top, answered, freshId);
    var s := net.stores[j];
    RouteIsLawful(j, PeersOf(top, j), s, b, w, net.capacity);
    DataAdmission(j, PeersOf(top, j), s, b, w, net.capacity);
    var o := Route(j, PeersOf(top, j), s, b, w, net.capacity);
    if o.minted.Some? {
      var y :| y in o.store && Core(y) == Core(o.minted.value);
      SameCore(y, o.minted.value);
      assert IsAckFor(y, d);
    }
  }

  /** Receiving the Data keeps every node ready. */
  lemma {:induction false} ReceivesKeepsReady(net: Net, top: Topology, answered: set<(Uuid, Uuid)>, freshId: Uuid,
                                              j: Uuid, d: Uuid)
    requires Inv(net) && LiveData(net, d) && j in net.stores && freshId !in net.issued && Ready(net, j, d)
    ensures var net' := Receives(net, top, answered, freshId, j, d);
            && Grows(net, net', d)
            && (j != net.issued[d].destination.id || Has(net.stores[j], d) ==> net'.issued == net.issued)
            && (forall id :: id in net'.issued ==> id in net.issued || id == freshId)
            && (forall n :: Ready(net, n, d) ==> Ready(net', n, d))
            && (forall n :: n in net.stores && n != j ==> net'.stores[n] == net.stores[n])
            && (SentTo(net, j, d) ==> Phase(net'.stores[j], d) >= 1)
            && (Phase(net.stores[j], d) >= 1 || SentTo(net, j, d) ==>
                  j == net.issued[d].destination.id ==> Phase(net'.stores[j], d) == 2)
  {
    ReceivesGrow(net, top, answered, freshId, j, d, d);
    var net' := Receives(net, top, answered, freshId, j, d);
    if SentTo(net, j, d) && !Has(net.stores[j], d) {
      ReceivesData(net, top, answered, freshId, j, d);
      MintsOnlyFresh(net, top, answered, freshId, j, d);
    }
    forall n | Ready(net, n, d) ensures Ready(net', n, d) {
      StaysReady(net, net', j, n, d);
    }
  }

  lemma {:induction false} MintsOnlyFresh(net: Net, top: Topology, answered: set<(Uuid, Uuid)>, freshId: Uuid,
                                          j: Uuid, id: Uuid)
    requires Inv(net) && j in net.stores && id in net.issued && freshId !in net.issued
    requires SentTo(net, j, id) && !Has(net.stores[j], id)
    ensures forall k :: k in Receives(net, top, answered, freshId, j, id).issued ==> k in net.issued || k == freshId
  {
    var b, w := WireCopy(net.issued[id]), RealWorld(net, top, answered, freshId);
    ArrivalIsAcceptable(net, j, b, w);
    RouteIsLawful(j, PeersOf(top, j), net.stores[j], b, w, net.capacity);
  }

  /** Any hop of the Data keeps what has been reached and every node's readiness. */
  lemma {:induction false} HopKeeps(net: Net, top: Topology, answered: set<(Uuid, Uuid)>, freshId: Uuid, i: Uuid,
                                    j: Uuid, d: Uuid)
    requires Inv(net) && LiveData(net, d) && freshId !in net.issued
    requires i in net.stores && j in net.stores && i != j && Ready(net, j, d)
    ensures var net' := Hop(net, top, answered, freshId, i, j, d);
            && Grows(net, net', d)
            && (j != net.issued[d].destination.id || Has(net.stores[j], d) ==> net'.issued == net.issued)
            && (forall id :: id in net'.issued ==> id in net.issued || id == freshId)
            && (forall n :: Ready(net, n, d) ==> Ready(net', n, d))
            && (forall n :: n in net.stores && n != i && n != j ==> net'.stores[n] == net.stores[n])
  {
    var mid := Retries(net, top, answered, freshId, i);
    RetriesGrow(net, top, answered, freshId, i, d);
    forall n | Ready(net, n, d) ensures Ready(mid, n, d) {
      StaysReady(net, mid, i, n, d);
    }
    ReceivesKeepsReady(mid, top, answered, freshId, j, d);
    GrowsIsTransitive(net, mid, Receives(mid, top, answered, freshId, j, d), d);
  }

  /** Forward: a node that has come as far as the Data brings the next node as far, unless the Data has already
      been delivered; a ready destination ends with Data and ACK. */
  lemma {:induction false} ForwardHop(net: Net, top: Topology, answered: set<(Uuid, Uuid)>, freshId: Uuid, i: Uuid,
                                      j: Uuid, d: Uuid)
    requires Inv(net) && LiveData(net, d) && freshId !in net.issued
    requires i in net.stores && j in net.stores && Linked(top, i, j) && i != net.issued[d].destination.id
    requires Phase(net.stores[i], d) >= 1 && Ready(net, j, d)
    ensures var net' := Hop(net, top, answered, freshId, i, j, d);
            && Grows(net, net', d)
            && (HasAck(net.stores[i], d) || Phase(net'.stores[j], d) >= 1)
            && (HasAck(net.stores[i], d) || j != net.issued[d].destination.id || Phase(net'.stores[j], d) == 2)
  {
    HopKeeps(net, top, answered, freshId, i, j, d);
    var mid := Retries(net, top, answered, freshId, i);
    RetriesGrow(net, top, answered, freshId, i, d);
    StaysReady(net, mid, i, j, d);
    ReceivesKeepsReady(mid, top, answered, freshId, j, d);
    if !Has(mid.stores[j], d) && !SentTo(mid, j, d) {
      NotOffered(net, top, answered, freshId, i, j, d);
    }
  }

  /** If the retry did not put the Data on the wire for a peer that lacks it, the retrying node has an ACK. */
  lemma {:induction false} NotOffered(net: Net, top: Topology, answered: set<(Uuid, Uuid)>, freshId: Uuid, i: Uuid,
                                      j: Uuid, d: Uuid)
    requires Inv(net) && LiveData(net, d) && i in net.stores && j in net.stores && Linked(top, i, j)
    requires i != net.issued[d].destination.id && Phase(net.stores[i], d) >= 1 && !Has(net.stores[j], d)
    requires !SentTo(Retries(net, top, answered, freshId, i), j, d)
    ensures HasAck(net.stores[i], d)
    ensures net.issued[d].destination.id in net.stores && Has(net.stores[net.issued[d].destination.id], d)
    ensures j != net.issued[d].destination.id
  {
    if !HasAck(net.stores[i], d) {
      var x :| x in net.stores[i] && x.id == d;
      VersionFields(x, net.issued);
      RetryOffers(net, top, answered, freshId, i, j, x);
    }
    AckMeansDelivered(net, i, d);
  }

  // ---- The way there -------------------------------------------------------------------------

  /** A walkable path: nodes of the network, linked one to the next, ready, and ending at `last` but not before. */
  predicate Path(net: Net, top: Topology, path: seq<Uuid>, last: Uuid) {
    && path != [] && path[|path| - 1] == last
    && (forall k :: 0 <= k < |path| ==> path[k] in net.stores)
    && (forall k :: 0 <= k < |path| - 1 ==> path[k] != last && Linked(top, path[k], path[k + 1]))
  }

  predicate AllReady(net: Net, path: seq<Uuid>, d: Uuid)
    requires d in net.issued
  {
    forall k :: 0 <= k < |path| ==> Ready(net, path[k], d)
  }

  /** The rest of a path is a path. */
  lemma {:induction false} PathTail(net: Net, net': Net, top: Topology, path: seq<Uuid>, last: Uuid, d: Uuid)
    requires Path(net, top, path, last) && |path| >= 2 && Extends(net, net') && d in net.issued
    requires AllReady(net, path, d) && forall n :: Ready(net, n, d) ==> Ready(net', n, d)
    ensures Path(net', top, path[1..], last) && AllReady(net', path[1..], d)
    ensures path[0] in net.stores && path[1] in net.stores && path[0] != last && Linked(top, path[0], path[1])
    ensures Ready(net, path[1], d)
  {
    assert forall k :: 0 <= k < |path| - 1 ==> path[1..][k] == path[k + 1];
    assert path[0] != last && Linked(top, path[0], path[0 + 1]);
  }

  lemma {:induction false} PathStays(net: Net, net': Net, top: Topology, path: seq<Uuid>, last: Uuid)
    requires Path(net, top, path, last) && Extends(net, net')
    ensures Path(net', top, path, last)
  {
  }

  lemma {:induction false} ForwardReach(net: Net, top: Topology, answered: set<(Uuid, Uuid)>, freshId: Uuid, i: Uuid,
                                        j: Uuid, d: Uuid)
    requires Inv(net) && LiveData(net, d) && freshId !in net.issued
    requires i in net.stores && j in net.stores && Linked(top, i, j) && i != net.issued[d].destination.id
    requires net.issued[d].destination.id in net.stores && Ready(net, j, d)
    requires Phase(net.stores[i], d) >= 1 && Phase(net.stores[net.issued[d].destination.id], d) != 2
    ensures var net' := Hop(net, top, answered, freshId, i, j, d);
            && j in net'.stores && Phase(net'.stores[j], d) >= 1
            && (j == net.issued[d].destination.id ==> Phase(net'.stores[j], d) == 2)
  {
    if HasAck(net.stores[i], d) {
      AckMeansDelivered(net, i, d);
    }
    ForwardHop(net, top, answered, freshId, i, j, d);
  }

  /** One hop of the walk there. */
  lemma {:induction false} ForwardStep(net: Net, top: Topology, answered: set<(Uuid, Uuid)>, freshId: Uuid, i: Uuid,
                                       j: Uuid, d: Uuid)
    requires Inv(net) && LiveData(net, d) && freshId !in net.issued
    requires i in net.stores && j in net.stores && Linked(top, i, j) && i != net.issued[d].destination.id
    requires net.issued[d].destination.id in net.stores && Ready(net, j, d)
    requires Phase(net.stores[i], d) >= 1 || Phase(net.stores[net.issued[d].destination.id], d) == 2
    ensures var net' := Hop(net, top, answered, freshId, i, j, d);
            var last := net.issued[d].destination.id;
            && Grows(net, net', d)
            && (j != last ==> net'.issued == net.issued)
            && (forall id :: id in net'.issued ==> id in net.issued || id == freshId)
            && (forall n :: Ready(net, n, d) ==> Ready(net', n, d))
            && (Phase(net'.stores[j], d) >= 1 || Phase(net'.stores[last], d) == 2)
            && (j == last ==> Phase(net'.stores[last], d) == 2)
  {
    HopKeeps(net, top, answered, freshId, i, j, d);
    var last := net.issued[d].destination.id;
    assert Phase(Hop(net, top, answered, freshId, i, j, d).stores[last], d) >= Phase(net.stores[last], d);
    if Phase(net.stores[last], d) != 2 {
      ForwardReach(net, top, answered, freshId, i, j, d);
    }
  }

  /** From anywhere the Data or its ACK has reached, the forward walk ends with both at the destination. */
  lemma {:induction false} ForwardWalk(net: Net, top: Topology, answered: set<(Uuid, Uuid)>, freshId: Uuid,
                                       path: seq<Uuid>, d: Uuid)
    requires Inv(net) && LiveData(net, d) && freshId !in net.issued
    requires Path(net, top, path, net.issued[d].destination.id) && AllReady(net, path, d)
    requires Phase(net.stores[path[0]], d) >= 1 || Phase(net.stores[net.issued[d].destination.id], d) == 2
    ensures var net' := Walk(net, top, answered, freshId, path, d);
            && Grows(net, net', d)
            && Phase(net'.stores[net.issued[d].destination.id], d) == 2
            && (forall id :: id in net'.issued ==> id in net.issued || id == freshId)
            && (forall n :: Ready(net, n, d) ==> Ready(net', n, d))
    decreases |path|
  {
    if |path| == 1 {
      assert Ready(net, path[0], d);
    } else {
      var mid := Hop(net, top, answered, freshId, path[0], path[1], d);
      assert path[|path| - 1] in net.stores;
      PathTail(net, net, top, path, net.issued[d].destination.id, d);
      ForwardStep(net, top, answered, freshId, path[0], path[1], d);
      PathTail(net, mid, top, path, net.issued[d].destination.id, d);
      if |path| > 2 {
        assert path[1] != path[|path| - 1];
        ForwardWalk(mid, top, answered, freshId, path[1..], d);
        GrowsIsTransitive(net, mid, Walk(mid, top, answered, freshId, path[1..], d), d);
      }
    }
  }

  // ---- The way back --------------------------------------------------------------------------

  /** `a` is the id of the ACK for `d`. */
  predicate AckOf(net: Net, a: Uuid, d: Uuid) {
    a in net.issued && IsAckFor(net.issued[a], d)
  }

  /** A node with an ACK has this one. */
  lemma {:induction false} HoldsThisAck(net: Net, n: Uuid, a: Uuid, d: Uuid)
    requires Inv(net) && AckOf(net, a, d) && n in net.stores
    ensures HasAck(net.stores[n], d) <==> Has(net.stores[n], a)
  {
    if HasAck(net.stores[n], d) {
      var x := HeldAck(net, n, d);
      NoRivals(net, x, a);
    }
    if Has(net.stores[n], a) {
      HeldIdIsAck(net, n, a, d);
    }
  }

  /** A ready node that receives the ACK ends with it. */
  lemma {:induction false} ReceivesAck(net: Net, top: Topology, answered: set<(Uuid, Uuid)>, freshId: Uuid, j: Uuid,
                                       a: Uuid, d: Uuid)
    requires Inv(net) && LiveData(net, d) && AckOf(net, a, d) && j in net.stores && freshId !in net.issued
    requires Ready(net, j, d)
    ensures var net' := Receives(net, top, answered, freshId, j, a);
            && Grows(net, net', d) && net'.issued == net.issued
            && (SentTo(net, j, a) ==> Phase(net'.stores[j], d) == 2)
            && (forall n :: Ready(net, n, d) ==> Ready(net', n, d))
  {
    ReceivesGrow(net, top, answered, freshId, j, a, d);
    HoldsThisAck(net, j, a, d);
    var net' := Receives(net, top, answered, freshId, j, a);
    if SentTo(net, j, a) && !Has(net.stores[j], a) {
      IssuedAck(net, a);
      var b, w := WireCopy(net.issued[a]), RealWorld(net, top, answered, freshId);
      AckAdmission(j, PeersOf(top, j), net.stores[j], b, w, net.capacity);
      RouteIsLawful(j, PeersOf(top, j), net.stores[j], b, w, net.capacity);
    }
    forall n | Ready(net, n, d) ensures Ready(net', n, d) {
      StaysReady(net, net', j, n, d);
    }
  }

  /** A node with the ACK, other than the source, offers it to a peer that lacks it. */
  lemma {:induction false} OffersAck(net: Net, top: Topology, answered: set<(Uuid, Uuid)>, freshId: Uuid, i: Uuid,
                                     j: Uuid, a: Uuid, d: Uuid)
    requires Inv(net) && LiveData(net, d) && AckOf(net, a, d)
    requires i in net.stores && j in net.stores && Linked(top, i, j) && i != net.issued[d].source.id
    requires HasAck(net.stores[i], d) && !Has(net.stores[j], a)
    ensures SentTo(Retries(net, top, answered, freshId, i), j, a)
  {
    HoldsThisAck(net, i, a, d);
    var x :| x in net.stores[i] && x.id == a;
    VersionFields(x, net.issued);
    IssuedAck(net, a);
    RetryOffers(net, top, answered, freshId, i, j, x);
  }

  /** Back: a node with the ACK, other than the source, brings it to the next node. */
  lemma {:induction false} BackHop(net: Net, top: Topology, answered: set<(Uuid, Uuid)>, freshId: Uuid, i: Uuid,
                                   j: Uuid, a: Uuid, d: Uuid)
    requires Inv(net) && LiveData(net, d) && AckOf(net, a, d) && freshId !in net.issued
    requires i in net.stores && j in net.stores && Linked(top, i, j) && i != net.issued[d].source.id
    requires Phase(net.stores[i], d) == 2 && Ready(net, j, d)
    ensures var net' := Hop(net, top, answered, freshId, i, j, a);
            && Grows(net, net', d) && net'.issued == net.issued
            && Phase(net'.stores[j], d) == 2
            && (forall n :: Ready(net, n, d) ==> Ready(net', n, d))
  {
    var mid := Retries(net, top, answered, freshId, i);
    RetriesGrow(net, top, answered, freshId, i, d);
    forall n | Ready(net, n, d) ensures Ready(mid, n, d) {
      StaysReady(net, mid, i, n, d);
    }
    HoldsThisAck(net, j, a, d);
    if !Has(net.stores[j], a) {
      OffersAck(net, top, answered, freshId, i, j, a, d);
    }
    BackHopFrom(net, mid, top, answered, freshId, j, a, d);
  }

  lemma {:induction false} BackHopFrom(net: Net, mid: Net, top: Topology, answered: set<(Uuid, Uuid)>,
                                       freshId: Uuid, j: Uuid, a: Uuid, d: Uuid)
    requires Inv(net) && LiveData(net, d) && AckOf(net, a, d) && freshId !in net.issued && j in net.stores
    requires Grows(net, mid, d) && mid.issued == net.issued && mid.stores[j] == net.stores[j]
    requires Ready(mid, j, d) && (HasAck(net.stores[j], d) || SentTo(mid, j, a))
    ensures var net' := Receives(mid, top, answered, freshId, j, a);
            && Grows(net, net', d) && net'.issued == net.issued
            && Phase(net'.stores[j], d) == 2
            && (forall n :: Ready(mid, n, d) ==> Ready(net', n, d))
  {
    ReceivesAck(mid, top, answered, freshId, j, a, d);
    GrowsIsTransitive(net, mid, Receives(mid, top, answered, freshId, j, a), d);
  }

  /** Every node of the path holds an ACK for `d`. */
  predicate Acked(net: Net, path: seq<Uuid>, d: Uuid) {
    forall k :: 0 <= k < |path| ==> path[k] in net.stores && Phase(net.stores[path[k]], d) == 2
  }

  lemma {:induction false} AckedFrom(net: Net, mid: Net, net': Net, path: seq<Uuid>, d: Uuid)
    requires path != [] && Grows(net, mid, d) && Grows(mid, net', d) && Acked(net', path[1..], d)
    requires path[0] in net.stores && Phase(net.stores[path[0]], d) == 2
    ensures Grows(net, net', d) && Acked(net', path, d)
  {
    GrowsIsTransitive(net, mid, net', d);
    forall k | 0 <= k < |path| ensures path[k] in net'.stores && Phase(net'.stores[path[k]], d) == 2 {
      assert k > 0 ==> path[k] == path[1..][k - 1];
    }
  }

  lemma {:induction false} BackWalk(net: Net, top: Topology, answered: set<(Uuid, Uuid)>, freshId: Uuid,
                                    path: seq<Uuid>, a: Uuid, d: Uuid)
    requires Inv(net) && LiveData(net, d) && AckOf(net, a, d) && freshId !in net.issued
    requires Path(net, top, path, net.issued[d].source.id) && AllReady(net, path, d)
    requires Phase(net.stores[path[0]], d) == 2
    ensures var net' := Walk(net, top, answered, freshId, path, a);
            Grows(net, net', d) && Acked(net', path, d)
    decreases |path|
  {
    if |path| > 1 {
      var mid := Hop(net, top, answered, freshId, path[0], path[1], a);
      PathTail(net, net, top, path, net.issued[d].source.id, d);
      BackHop(net, top, answered, freshId, path[0], path[1], a, d);
      PathTail(net, mid, top, path, net.issued[d].source.id, d);
      BackWalk(mid, top, answered, freshId, path[1..], a, d);
      var net' := Walk(mid, top, answered, freshId, path[1..], a);
      AckedFrom(net, mid, net', path, d);
    }
  }

  // ---- The round trip ------------------------------------------------------------------------

  function Reverse(path: seq<Uuid>): (r: seq<Uuid>)
    ensures |r| == |path|
    ensures forall k :: 0 <= k < |path| ==> r[k] == path[|path| - 1 - k]
  {
    if path == [] then [] else Reverse(path[1..]) + [path[0]]
  }

  /** The Data is Delivered at its destination, its ACK is Delivered at its source, and the source's Data is gone. */
  predicate Acknowledged(net: Net, d: Uuid)
    requires d in net.issued
  {
    var b := net.issued[d];
    && b.destination.id in net.stores && b.source.id in net.stores
    && (exists x :: x in net.stores[b.destination.id] && x.id == d && x.kind == b.kind && x.status == Delivered)
    && (exists y :: y in net.stores[b.source.id] && IsAckFor(y, d) && y.status == Delivered)
    && !Has(net.stores[b.source.id], d)
  }

  /** Each relay of the path is left with the tombstone: an ACK, and no longer the Data. */
  predicate Tombstones(net: Net, path: seq<Uuid>, d: Uuid) {
    forall k :: 0 <= k < |path| - 1 ==>
      path[k] in net.stores && HasAck(net.stores[path[k]], d) && !Has(net.stores[path[k]], d)
  }

  lemma {:induction false} AckExcludesData(net: Net, n: Uuid, d: Uuid)
    requires Inv(net) && LiveData(net, d) && n in net.stores && n != net.issued[d].destination.id
    requires HasAck(net.stores[n], d)
    ensures !Has(net.stores[n], d)
  {
    if Has(net.stores[n], d) {
      var z :| z in net.stores[n] && z.id == d;
      var y :| y in net.stores[n] && IsAckFor(y, d);
      VersionFields(z, net.issued);
      StoreIsWell(net, n);
    }
  }

  lemma {:induction false} PhasesMeanAcknowledged(net: Net, d: Uuid)
    requires Inv(net) && LiveData(net, d)
    requires net.issued[d].source.id in net.stores && HasAck(net.stores[net.issued[d].source.id], d)
    ensures Acknowledged(net, d)
  {
    var b := net.issued[d];
    AckMeansDelivered(net, b.source.id, d);
    StoreIsWell(net, b.destination.id);
    StoreIsWell(net, b.source.id);
    var x :| x in net.stores[b.destination.id] && x.id == d;
    VersionFields(x, net.issued);
    assert StatusFits(b.destination.id, x);
    var y :| y in net.stores[b.source.id] && IsAckFor(y, d);
    VersionFields(y, net.issued);
    IssuedAck(net, y.id);
    assert StatusFits(b.source.id, y);
    AckExcludesData(net, b.source.id, d);
  }

  /** Both ways along a path: every link also leads back, and only the ends are source and destination. */
  predicate RoundTripPath(net: Net, top: Topology, path: seq<Uuid>, d: Uuid)
    requires d in net.issued
  {
    && Path(net, top, path, net.issued[d].destination.id)
    && Path(net, top, Reverse(path), net.issued[d].source.id)
  }

  /** The way back from the state in which the way there ends. */
  lemma {:induction false} ReversedPath(net: Net, there: Net, top: Topology, path: seq<Uuid>, d: Uuid)
    requires d in net.issued && RoundTripPath(net, top, path, d) && AllReady(net, path, d) && Extends(net, there)
    requires forall n :: Ready(net, n, d) ==> Ready(there, n, d)
    ensures Path(there, top, Reverse(path), net.issued[d].source.id) && AllReady(there, Reverse(path), d)
    ensures Reverse(path)[0] == net.issued[d].destination.id
  {
    var r := Reverse(path);
    forall k | 0 <= k < |r| ensures Ready(there, r[k], d) {
      assert Ready(net, path[|path| - 1 - k], d);
    }
    PathStays(net, there, top, r, net.issued[d].source.id);
  }

  /** Once every node of a round trip holds the ACK, the Data is acknowledged and every node before the destination
      keeps just the tombstone. */
  lemma {:induction false} AckedMeansDone(net: Net, back: Net, top: Topology, path: seq<Uuid>, d: Uuid)
    requires Inv(back) && LiveData(back, d) && d in net.issued && net.issued[d] == back.issued[d]
    requires RoundTripPath(net, top, path, d) && Acked(back, Reverse(path), d)
    ensures Acknowledged(back, d) && Tombstones(back, path, d)
  {
    var r := Reverse(path);
    assert r[|r| - 1] == back.issued[d].source.id;
    PhasesMeanAcknowledged(back, d);
    forall k | 0 <= k < |path| - 1
      ensures path[k] in back.stores && HasAck(back.stores[path[k]], d) && !Has(back.stores[path[k]], d)
    {
      assert path[k] == r[|path| - 1 - k];
      AckExcludesData(back, path[k], d);
    }
  }

  /** The second half of the round trip, from the state in which the first half ends. */
  lemma {:induction false} WayBack(net: Net, there: Net, top: Topology, answered: set<(Uuid, Uuid)>, freshId: Uuid,
                                   path: seq<Uuid>, d: Uuid)
    returns (a: Uuid)
    requires d in net.issued && Grows(net, there, d) && LiveData(net, d) && freshId !in there.issued
    requires RoundTripPath(net, top, path, d) && AllReady(net, path, d)
    requires forall n :: Ready(net, n, d) ==> Ready(there, n, d)
    requires net.issued[d].destination.id in net.stores
    requires Phase(there.stores[net.issued[d].destination.id], d) == 2
    ensures var back := Walk(there, top, answered, freshId, Reverse(path), a);
            && AckOf(there, a, d) && Extends(net, back) && Inv(back)
            && Acknowledged(back, d) && Tombstones(back, path, d)
  {
    a := HeldAck(there, net.issued[d].destination.id, d);
    ReversedPath(net, there, top, path, d);
    BackWalk(there, top, answered, freshId, Reverse(path), a, d);
    var back := Walk(there, top, answered, freshId, Reverse(path), a);
    GrowsIsTransitive(net, there, back, d);
    AckedMeansDone(net, back, top, path, d);
  }

  /** Delivery: from any state where the source holds live Data, on any path with room, whose links lead both ways,
      walking the Data forward and then its ACK back ends with the Data acknowledged and only the tombstone left on
      the way, whichever sends report success, and whatever the nodes on the path already hold. */
  lemma {:induction false} DeliveryAlongAPath(net: Net, top: Topology, answered: set<(Uuid, Uuid)>, freshId: Uuid,
                                              freshId': Uuid, path: seq<Uuid>, d: Uuid)
    returns (a: Uuid)
    requires Inv(net) && LiveData(net, d)
    requires freshId !in net.issued && freshId' !in net.issued && freshId != freshId'
    requires RoundTripPath(net, top, path, d) && AllReady(net, path, d)
    requires Has(net.stores[path[0]], d)
    ensures var there := Walk(net, top, answered, freshId, path, d);
            var back := Walk(there, top, answered, freshId', Reverse(path), a);
            && AckOf(there, a, d) && Extends(net, back) && Inv(back)
            && Acknowledged(back, d) && Tombstones(back, path, d)
  {
    ForwardWalk(net, top, answered, freshId, path, d);
    a := WayBack(net, Walk(net, top, answered, freshId, path, d), top, answered, freshId', path, d);
  }

  /** So it is in every state of every run. */
  lemma {:induction false} DeliveryInEveryRun(states: seq<Net>, steps: seq<Action>, i: nat, top: Topology,
                                              answered: set<(Uuid, Uuid)>, freshId: Uuid, freshId': Uuid,
                                              path: seq<Uuid>, d: Uuid)
    returns (a: Uuid)
    requires IsRun(states, steps) && i < |states| && LiveData(states[i], d)
    requires freshId !in states[i].issued && freshId' !in states[i].issued && freshId != freshId'
    requires RoundTripPath(states[i], top, path, d) && AllReady(states[i], path, d)
    requires Has(states[i].stores[path[0]], d)
    ensures var there := Walk(states[i], top, answered, freshId, path, d);
            var back := Walk(there, top, answered, freshId', Reverse(path), a);
            && AckOf(there, a, d) && Inv(back) && d in back.issued
            && Acknowledged(back, d) && Tombstones(back, path, d)
  {
    InvAlways(states, steps, i);
    a := DeliveryAlongAPath(states[i], top, answered, freshId, freshId', path, d);
  }

  /** Such states exist: two linked nodes, of which the first has just sent a message to the second. */
  lemma {:induction false} DeliveryExample()
    returns (states: seq<Net>, steps: seq<Action>, top: Topology, path: seq<Uuid>, d: Uuid)
    ensures IsRun(states, steps) && |states| == 2 && LiveData(states[1], d)
    ensures 200 !in states[1].issued && 201 !in states[1].issued
    ensures RoundTripPath(states[1], top, path, d) && AllReady(states[1], path, d) && Has(states[1].stores[path[0]], d)
  {
    var first, second := Node(1, "first", "", 0, [2]), Node(2, "second", "", 0, [1]);
    var net := Net(3, 0, map[1 := [], 2 := []], {}, map[]);
    path, d, top := [1, 2], 10, LinkedPair(first, second);
    var net';
    steps, net' := SendOnce(net, first, second, d);
    states := [net, net'];
    TwoLinkedNodes(net', top, 1, 2, d);
  }

  function LinkedPair(a: Node, b: Node): (top: Topology)
    ensures a.id != b.id ==> Linked(top, a.id, b.id) && Linked(top, b.id, a.id)
  {
    var ra, rb := PeerRecord(a, Connected), PeerRecord(b, Connected);
    assert [ra, rb][0] == ra && [ra, rb][1] == rb;
    assert ra in [ra, rb] && rb in [ra, rb];
    Topology(map[a.id := [b.id], b.id := [a.id]], [ra, rb])
  }

  lemma {:induction false} SendOnce(net: Net, source: Node, destination: Node, d: Uuid)
    returns (steps: seq<Action>, net': Net)
    requires Initial(net) && net.now == 0 && net.capacity > 0 && d != 100
    requires source.id in net.stores && source.id != destination.id
    ensures IsRun([net, net'], steps)
    ensures net'.issued.Keys == {d} && LiveData(net', d) && net'.capacity == net.capacity
    ensures net'.issued[d].source == source && net'.issued[d].destination == destination
    ensures net'.stores.Keys == net.stores.Keys && Has(net'.stores[source.id], d)
    ensures forall n :: n in net.stores && n != source.id ==> net'.stores[n] == []
  {
    var a := Send(source.id, source, destination, "hello", 60, d, [], World(0, [], map[], {}, 100));
    steps, net' := [a], Next(net, a);
    FirstSend(net, a);
    assert Follows([net, net'], steps, 0);
  }

  lemma {:induction false} TwoLinkedNodes(net: Net, top: Topology, i: Uuid, j: Uuid, d: Uuid)
    requires d in net.issued && net.issued[d].source.id == i && net.issued[d].destination.id == j
    requires Linked(top, i, j) && Linked(top, j, i) && i in net.stores && j in net.stores
    requires Has(net.stores[i], d) && net.stores[j] == [] && net.capacity >= 2
    ensures RoundTripPath(net, top, [i, j], d) && AllReady(net, [i, j], d)
  {
    assert Reverse([i, j])[0] == j && Reverse([i, j])[1] == i;
  }

  /** A first send into an empty network stores the Data at its source and nothing anywhere else. */
  lemma {:induction false} FirstSend(net: Net, a: Action)
    requires Initial(net) && a.Send? && Enabled(net, a) && net.capacity > 0
    requires !IsExpired(NewData(a.source, a.destination, a.msg, a.ttl, a.id, net.now), net.now)
    ensures var d := NewData(a.source, a.destination, a.msg, a.ttl, a.id, net.now);
            var net' := Next(net, a);
            && net'.issued == map[a.id := d] && net'.now == net.now && net'.capacity == net.capacity
            && net'.stores.Keys == net.stores.Keys && Has(net'.stores[a.node], a.id)
            && forall n :: n in net.stores && n != a.node ==> net'.stores[n] == []
  {
    var d := NewData(a.source, a.destination, a.msg, a.ttl, a.id, net.now);
    RouteIsLawful(a.node, a.peers, [], d, a.w, net.capacity);
    DataAdmission(a.node, a.peers, [], d, a.w, net.capacity);
  }

  // ---- The message ---------------------------------------------------------------------------

  /** `x` is the bundle a CLI send was asked for. */
  predicate Carries(x: Bundle, a: Action, now: int)
    requires a.Send?
  {
    x.id == a.id && x.kind == Data(a.msg) && x.ttl == a.ttl && x.source == a.source && x.destination == a.destination
    && x.timestamp == now
  }

  /** A CLI send issues a bundle with its message, TTL, endpoints and the time; with a free slot, and unless it is
      expired on the spot, the source stores it. */
  lemma {:induction false} SendStoresMessage(net: Net, a: Action)
    requires Inv(net) && a.Send? && Enabled(net, a)
    ensures var net' := Next(net, a);
            && a.id in net'.issued && Carries(net'.issued[a.id], a, net.now)
            && (|Cleanup(net.stores[a.node], net.now)| < net.capacity && !IsExpired(net'.issued[a.id], net.now) ==>
                  exists x :: x in net'.stores[a.node] && Carries(x, a, net.now))
  {
    var d := NewData(a.source, a.destination, a.msg, a.ttl, a.id, net.now);
    var s := net.stores[a.node];
    SendIsProper(net, a);
    if Has(s, a.id) {
      HeldIsIssued(net, a.node, a.id);
    }
    if HasAck(s, a.id) {
      var k := HeldAck(net, a.node, a.id);
      IssuedAck(net, k);
    }
    if !IsExpired(d, net.now) {
      DataRelayStore(a.node, a.peers, s, d, a.w, net.capacity);
      var o := RouteAtRelay(a.node, a.peers, s, d, a.w, net.capacity);
      if |Cleanup(s, net.now)| < net.capacity {
        assert o.bundle in Next(net, a).stores[a.node] && Carries(o.bundle, a, net.now);
      }
    }
  }

  /** What is delivered is the message that was sent. */
  lemma {:induction false} DeliversTheMessage(states: seq<Net>, steps: seq<Action>, i: nat, k: nat)
    requires IsRun(states, steps) && i < k < |states| && steps[i].Send? && steps[i].id in states[k].issued
    requires Acknowledged(states[k], steps[i].id)
    ensures var a := steps[i];
            a.destination.id in states[k].stores
            && exists x :: x in states[k].stores[a.destination.id] && x.id == a.id && x.kind == Data(a.msg)
                 && x.status == Delivered
  {
    InvAlways(states, steps, i);
    assert Follows(states, steps, i);
    SendStoresMessage(states[i], steps[i]);
    RunExtends(states, steps, i + 1, k);
  }

  // ---- When delivery fails -------------------------------------------------------------------

  /** The destination holds the Data but no ACK for it. */
  predicate Starved(net: Net, d: Uuid) {
    d in net.issued && net.issued[d].kind.Data? && net.issued[d].destination.id in net.stores
    && Phase(net.stores[net.issued[d].destination.id], d) == 1
  }

  /** Then, while the Data is live, no ACK for it is issued anywhere. */
  lemma {:induction false} StarvedMeansNoAck(net: Net, d: Uuid, a: Uuid)
    requires Inv(net) && Starved(net, d) && Live(net.issued[d], net.now) && a in net.issued
    ensures !IsAckFor(net.issued[a], d)
  {
    if IsAckFor(net.issued[a], d) {
      IssuedAck(net, a);
      HeldIdIsAck(net, net.issued[d].destination.id, a, d);
    }
  }

  /** And no step issues one. */
  lemma {:induction false} StarvedIssuesNoAck(net: Net, net': Net, base: Net, e: NodeEvent, d: Uuid, a: Uuid)
    requires Inv(net) && Starved(net, d) && Live(net.issued[d], net.now) && Moves(net, net', base, e)
    requires a in net'.issued
    ensures !IsAckFor(net'.issued[a], d)
  {
    if a in net.issued {
      StarvedMeansNoAck(net, d, a);
    } else if e.minted.Some? {
      assert MintedHere(base, e.node, e.store, e.minted.value);
    }
  }

  lemma {:induction false} MoveKeepsStarved(net: Net, net': Net, base: Net, e: NodeEvent, d: Uuid)
    requires Inv(net) && Inv(net') && Starved(net, d) && Live(net.issued[d], net.now) && Moves(net, net', base, e)
    ensures Starved(net', d)
  {
    var n := net.issued[d].destination.id;
    MovePhase(net, net', base, e, n, d);
    assert Extends(net, net') by { MoveExtends(net, net', base, e); }
    if HasAck(net'.stores[n], d) {
      var a := HeldAck(net', n, d);
      StarvedIssuesNoAck(net, net', base, e, d, a);
    }
  }

  lemma {:induction false} RunKeepsStarved(states: seq<Net>, steps: seq<Action>, i: nat, d: Uuid)
    requires IsRun(states, steps) && i + 1 < |states| && Starved(states[i], d)
    requires Live(states[i].issued[d], states[i].now)
    ensures Starved(states[i + 1], d)
  {
    var base, e := RunMoves(states, steps, i);
    if !Waits(states[i], states[i + 1]) {
      MoveKeepsStarved(states[i], states[i + 1], base, e, d);
    }
  }

  lemma {:induction false} StaysStarved(states: seq<Net>, steps: seq<Action>, j: nat, i: nat, d: Uuid)
    requires IsRun(states, steps) && j <= i < |states| && Starved(states[j], d)
    requires Live(states[j].issued[d], states[i].now)
    ensures Starved(states[i], d)
    decreases i
  {
    if j < i {
      RunExtends(states, steps, j, i - 1);
      RunStep(states, steps, i - 1);
      ExpiryIsPermanent(WireCopy(states[j].issued[d]), states[i - 1].now, states[i].now);
      StaysStarved(states, steps, j, i - 1, d);
      RunKeepsStarved(states, steps, i - 1, d);
    }
  }

  /** Delivery failed for good: once the destination stored the Data without room for the ACK, no node ever gets an
      ACK for it while it is live, in any run. */
  lemma {:induction false} StarvedForever(states: seq<Net>, steps: seq<Action>, j: nat, i: nat, n: Uuid, d: Uuid)
    requires IsRun(states, steps) && j <= i < |states| && Starved(states[j], d)
    requires Live(states[j].issued[d], states[i].now) && n in states[i].stores
    ensures !HasAck(states[i].stores[n], d)
  {
    StaysStarved(states, steps, j, i, d);
    RunExtends(states, steps, j, i);
    InvAlways(states, steps, i);
    if HasAck(states[i].stores[n], d) {
      AckMeansDelivered(states[i], n, d);
    }
  }

  lemma {:induction false} StepKeepsStarved(net: Net, net': Net, a: Action, d: Uuid)
    requires Inv(net) && Inv(net') && Starved(net, d) && Live(net.issued[d], net.now)
    requires Enabled(net, a) && net' == Next(net, a)
    ensures Starved(net', d)
  {
    var base, e := StepMoves(net, a);
    if !Waits(net, net') {
      MoveKeepsStarved(net, net', base, e, d);
    }
  }

  lemma {:induction false} HopKeepsStarved(net: Net, top: Topology, answered: set<(Uuid, Uuid)>, freshId: Uuid,
                                           i: Uuid, j: Uuid, d: Uuid)
    requires Inv(net) && LiveData(net, d) && freshId !in net.issued && i in net.stores && j in net.stores
    requires Starved(net, d)
    ensures var net' := Hop(net, top, answered, freshId, i, j, d);
            Grows(net, net', d) && net'.issued == net.issued && Starved(net', d)
  {
    var mid := Retries(net, top, answered, freshId, i);
    RetriesGrow(net, top, answered, freshId, i, d);
    StepKeepsStarved(net, mid, Resend(i, PeersOf(top, i), RealWorld(net, top, answered, freshId)), d);
    var net' := Receives(mid, top, answered, freshId, j, d);
    ReceiveKeepsStarved(mid, top, answered, freshId, j, d);
    GrowsIsTransitive(net, mid, net', d);
  }

  lemma {:induction false} ReceiveKeepsStarved(net: Net, top: Topology, answered: set<(Uuid, Uuid)>, freshId: Uuid,
                                               j: Uuid, d: Uuid)
    requires Inv(net) && LiveData(net, d) && freshId !in net.issued && j in net.stores && Starved(net, d)
    ensures var net' := Receives(net, top, answered, freshId, j, d);
            Grows(net, net', d) && net'.issued == net.issued && Starved(net', d)
  {
    ReceivesGrow(net, top, answered, freshId, j, d, d);
    var net' := Receives(net, top, answered, freshId, j, d);
    if net' != net {
      var b, w := WireCopy(net.issued[d]), RealWorld(net, top, answered, freshId);
      StepKeepsStarved(net, net', Arrive(j, b, PeersOf(top, j), w), d);
      RouteIsLawful(j, PeersOf(top, j), net.stores[j], b, w, net.capacity);
    }
  }

  // ---- Exactly when delivery succeeds --------------------------------------------------------

  /** The phase in which the destination ends: as far as its free slots go, unless it holds the Data already. */
  function EndPhase(net: Net, n: Uuid, d: Uuid): nat
    requires n in net.stores
  {
    if DestinationReady(net, n, d) then 2
    else if Phase(net.stores[n], d) == 1 || Room(net, n) == 1 then 1
    else 0
  }

  /** While live Data is not acknowledged at its destination, no ACK for it is issued anywhere. */
  lemma {:induction false} NoAckIssued(net: Net, d: Uuid, a: Uuid)
    requires Inv(net) && LiveData(net, d) && net.issued[d].destination.id in net.stores && a in net.issued
    requires !HasAck(net.stores[net.issued[d].destination.id], d)
    ensures !IsAckFor(net.issued[a], d)
  {
    if IsAckFor(net.issued[a], d) {
      IssuedAck(net, a);
      HeldIdIsAck(net, net.issued[d].destination.id, a, d);
    }
  }

  /** The destination receives Data it does not know: with two free slots it stores Data and ACK, with one the Data
      alone, with none nothing. */
  lemma {:induction false} DestinationTakes(net: Net, top: Topology, answered: set<(Uuid, Uuid)>, freshId: Uuid,
                                            d: Uuid)
    requires Inv(net) && LiveData(net, d) && freshId !in net.issued && net.issued[d].destination.id in net.stores
    requires Phase(net.stores[net.issued[d].destination.id], d) == 0 && SentTo(net, net.issued[d].destination.id, d)
    ensures var last := net.issued[d].destination.id;
            var net' := Receives(net, top, answered, freshId, last, d);
            Grows(net, net', d) && Phase(net'.stores[last], d) == EndPhase(net, last, d)
  {
    var last := net.issued[d].destination.id;
    ReceivesGrow(net, top, answered, freshId, last, d, d);
    var b, w, s := WireCopy(net.issued[d]), RealWorld(net, top, answered, freshId), net.stores[last];
    assert !HasAck(Cleanup(s, w.now), d);
    DataAdmission(last, PeersOf(top, last), s, b, w, net.capacity);
    if DestinationReady(net, last, d) {
      ReceivesData(net, top, answered, freshId, last, d);
    } else {
      var net' := Receives(net, top, answered, freshId, last, d);
      if HasAck(net'.stores[last], d) {
        var a := HeldAck(net', last, d);
        NoAckIssued(net, d, a);
      }
    }
  }

  /** A retry at a node with the Data sends it to an unacknowledged destination that lacks it. */
  lemma {:induction false} SendsToDestination(net: Net, top: Topology, answered: set<(Uuid, Uuid)>, freshId: Uuid,
                                              i: Uuid, d: Uuid)
    requires Inv(net) && LiveData(net, d) && net.issued[d].destination.id in net.stores
    requires i in net.stores && Linked(top, i, net.issued[d].destination.id) && Phase(net.stores[i], d) >= 1
    requires Phase(net.stores[net.issued[d].destination.id], d) == 0
    ensures SentTo(Retries(net, top, answered, freshId, i), net.issued[d].destination.id, d)
  {
    if HasAck(net.stores[i], d) {
      AckMeansDelivered(net, i, d);
    } else if !SentTo(Retries(net, top, answered, freshId, i), net.issued[d].destination.id, d) {
      NotOffered(net, top, answered, freshId, i, net.issued[d].destination.id, d);
    }
  }

  lemma {:induction false} SameEndPhase(net: Net, mid: Net, d: Uuid)
    requires LiveData(net, d) && Extends(net, mid) && mid.now == net.now
    requires net.issued[d].destination.id in net.stores
    requires mid.stores[net.issued[d].destination.id] == net.stores[net.issued[d].destination.id]
    ensures LiveData(mid, d) && mid.issued[d] == net.issued[d]
    ensures EndPhase(mid, mid.issued[d].destination.id, d) == EndPhase(net, net.issued[d].destination.id, d)
  {
  }

  /** The last hop, from a relay with the Data to a destination that lacks it. */
  lemma {:induction false} LastHopDelivers(net: Net, top: Topology, answered: set<(Uuid, Uuid)>, freshId: Uuid,
                                           i: Uuid, d: Uuid)
    requires Inv(net) && LiveData(net, d) && freshId !in net.issued && net.issued[d].destination.id in net.stores
    requires i in net.stores && Linked(top, i, net.issued[d].destination.id) && Phase(net.stores[i], d) >= 1
    requires Phase(net.stores[net.issued[d].destination.id], d) == 0
    ensures var last := net.issued[d].destination.id;
            var net' := Hop(net, top, answered, freshId, i, last, d);
            last in net'.stores && Phase(net'.stores[last], d) == EndPhase(net, last, d)
  {
    var mid := Retries(net, top, answered, freshId, i);
    RetriesGrow(net, top, answered, freshId, i, d);
    SendsToDestination(net, top, answered, freshId, i, d);
    SameEndPhase(net, mid, d);
    DestinationTakes(mid, top, answered, freshId, d);
  }

  lemma {:induction false} LastHop(net: Net, top: Topology, answered: set<(Uuid, Uuid)>, freshId: Uuid, i: Uuid,
                                   d: Uuid)
    requires Inv(net) && LiveData(net, d) && freshId !in net.issued && net.issued[d].destination.id in net.stores
    requires i in net.stores && Linked(top, i, net.issued[d].destination.id) && Phase(net.stores[i], d) >= 1
    requires Phase(net.stores[net.issued[d].destination.id], d) < 2
    ensures var last := net.issued[d].destination.id;
            var net' := Hop(net, top, answered, freshId, i, last, d);
            last in net'.stores && Phase(net'.stores[last], d) == EndPhase(net, last, d)
  {
    if Phase(net.stores[net.issued[d].destination.id], d) == 0 {
      LastHopDelivers(net, top, answered, freshId, i, d);
    } else {
      HopKeepsStarved(net, top, answered, freshId, i, net.issued[d].destination.id, d);
    }
  }

  /** A hop between relays brings the Data along and leaves the destination alone. */
  lemma {:induction false} RelayHop(net: Net, top: Topology, answered: set<(Uuid, Uuid)>, freshId: Uuid, i: Uuid,
                                    j: Uuid, d: Uuid)
    requires Inv(net) && LiveData(net, d) && freshId !in net.issued && net.issued[d].destination.id in net.stores
    requires i in net.stores && j in net.stores && Linked(top, i, j) && RelayReady(net, j, d)
    requires i != net.issued[d].destination.id && j != net.issued[d].destination.id
    requires Phase(net.stores[i], d) >= 1 && Phase(net.stores[net.issued[d].destination.id], d) < 2
    ensures var last := net.issued[d].destination.id;
            var net' := Hop(net, top, answered, freshId, i, j, d);
            && Grows(net, net', d) && net'.issued == net.issued
            && Phase(net'.stores[j], d) >= 1 && net'.stores[last] == net.stores[last]
            && (forall n :: n != last && RelayReady(net, n, d) ==> RelayReady(net', n, d))
  {
    HopKeeps(net, top, answered, freshId, i, j, d);
    ForwardReach(net, top, answered, freshId, i, j, d);
    forall n | n != net.issued[d].destination.id && RelayReady(net, n, d)
      ensures RelayReady(Hop(net, top, answered, freshId, i, j, d), n, d)
    {
      assert Ready(net, n, d);
    }
  }

  /** A walkable path to the destination whose relays have room, starting at a node with the Data or an ACK. */
  predicate Passable(net: Net, top: Topology, path: seq<Uuid>, d: Uuid) {
    && LiveData(net, d) && Path(net, top, path, net.issued[d].destination.id)
    && (forall k :: 0 <= k < |path| - 1 ==> RelayReady(net, path[k], d))
    && Phase(net.stores[path[0]], d) >= 1
  }

  lemma {:induction false} PassableTail(net: Net, mid: Net, top: Topology, path: seq<Uuid>, d: Uuid)
    requires Passable(net, top, path, d) && |path| > 2 && Extends(net, mid) && mid.issued == net.issued
    requires mid.now == net.now
    requires forall n :: n != net.issued[d].destination.id && RelayReady(net, n, d) ==> RelayReady(mid, n, d)
    requires path[1] in mid.stores && Phase(mid.stores[path[1]], d) >= 1
    ensures Passable(mid, top, path[1..], d)
  {
    var last := net.issued[d].destination.id;
    var rest := path[1..];
    forall k | 0 <= k < |rest| - 1 ensures rest[k] != last && Linked(top, rest[k], rest[k + 1]) {
      assert rest[k] == path[k + 1] && rest[k + 1] == path[k + 1 + 1];
    }
    forall k | 0 <= k < |rest| - 1 ensures RelayReady(mid, rest[k], d) {
      assert rest[k] == path[k + 1] && RelayReady(net, path[k + 1], d) && path[k + 1] != last;
    }
  }

  lemma {:induction false} PassableHead(net: Net, top: Topology, path: seq<Uuid>, d: Uuid)
    requires Passable(net, top, path, d) && |path| > 1
    ensures path[0] in net.stores && path[1] in net.stores && Linked(top, path[0], path[1])
    ensures path[0] != net.issued[d].destination.id
    ensures |path| == 2 ==> path[1] == net.issued[d].destination.id
    ensures |path| > 2 ==> path[1] != net.issued[d].destination.id && RelayReady(net, path[1], d)
  {
    assert Linked(top, path[0], path[0 + 1]);
  }

  /** A hop of a longer walk leaves a shorter one with the same outcome. */
  lemma {:induction false} FirstHop(net: Net, top: Topology, answered: set<(Uuid, Uuid)>, freshId: Uuid,
                                    path: seq<Uuid>, d: Uuid)
    requires Inv(net) && freshId !in net.issued && Passable(net, top, path, d) && |path| > 2
    requires net.issued[d].destination.id in net.stores && Phase(net.stores[net.issued[d].destination.id], d) < 2
    ensures var mid := Hop(net, top, answered, freshId, path[0], path[1], d);
            && Inv(mid) && mid.issued == net.issued && Passable(mid, top, path[1..], d)
            && net.issued[d].destination.id in mid.stores
            && EndPhase(mid, net.issued[d].destination.id, d) == EndPhase(net, net.issued[d].destination.id, d)
  {
    var mid := Hop(net, top, answered, freshId, path[0], path[1], d);
    PassableHead(net, top, path, d);
    RelayHop(net, top, answered, freshId, path[0], path[1], d);
    PassableTail(net, mid, top, path, d);
    SameEndPhase(net, mid, d);
  }

  /** Where the forward walk ends, for any destination. */
  lemma {:induction false} DeliveryOutcome(net: Net, top: Topology, answered: set<(Uuid, Uuid)>, freshId: Uuid,
                                           path: seq<Uuid>, d: Uuid)
    requires Inv(net) && freshId !in net.issued && Passable(net, top, path, d)
    ensures var last := net.issued[d].destination.id;
            var net' := Walk(net, top, answered, freshId, path, d);
            && last in net.stores && last in net'.stores
            && Phase(net'.stores[last], d) == EndPhase(net, last, d)
    decreases |path|
  {
    assert path[|path| - 1] in net.stores;
    if Phase(net.stores[net.issued[d].destination.id], d) == 2 {
      DeliveredStays(net, top, answered, freshId, path, d);
    } else if |path| == 2 {
      PassableHead(net, top, path, d);
      LastHop(net, top, answered, freshId, path[0], d);
    } else if |path| > 2 {
      FirstHop(net, top, answered, freshId, path, d);
      DeliveryOutcome(Hop(net, top, answered, freshId, path[0], path[1], d), top, answered, freshId, path[1..], d);
    }
  }

  lemma {:induction false} DeliveredStays(net: Net, top: Topology, answered: set<(Uuid, Uuid)>, freshId: Uuid,
                                          path: seq<Uuid>, d: Uuid)
    requires Inv(net) && freshId !in net.issued && Passable(net, top, path, d)
    requires net.issued[d].destination.id in net.stores
    requires Phase(net.stores[net.issued[d].destination.id], d) == 2
    ensures var last := net.issued[d].destination.id;
            var net' := Walk(net, top, answered, freshId, path, d);
            last in net'.stores && Phase(net'.stores[last], d) == 2
  {
    forall k | 0 <= k < |path| ensures Ready(net, path[k], d) {
    }
    ForwardWalk(net, top, answered, freshId, path, d);
  }

  /** With room on the way, the forward walk ends with the ACK at the destination if and only if the destination has
      two free slots and not the Data, or has both already. */
  lemma {:induction false} DeliveryIff(net: Net, top: Topology, answered: set<(Uuid, Uuid)>, freshId: Uuid,
                                       path: seq<Uuid>, d: Uuid)
    requires Inv(net) && freshId !in net.issued && Passable(net, top, path, d)
    ensures var last := net.issued[d].destination.id;
            var net' := Walk(net, top, answered, freshId, path, d);
            last in net'.stores && (HasAck(net'.stores[last], d) <==> DestinationReady(net, last, d))
  {
    DeliveryOutcome(net, top, answered, freshId, path, d);
  }

  /** The failing destination: one free slot takes the Data, and the ACK never follows. */
  lemma {:induction false} OneFreeSlotStarves(net: Net, top: Topology, answered: set<(Uuid, Uuid)>, freshId: Uuid,
                                              path: seq<Uuid>, d: Uuid)
    requires Inv(net) && freshId !in net.issued && Passable(net, top, path, d)
    requires net.issued[d].destination.id in net.stores
    requires Phase(net.stores[net.issued[d].destination.id], d) == 0
    requires Room(net, net.issued[d].destination.id) == 1
    ensures Starved(Walk(net, top, answered, freshId, path, d), d)
  {
    DeliveryOutcome(net, top, answered, freshId, path, d);
    WalkExtends(net, top, answered, freshId, path, d);
  }

  lemma {:induction false} WalkExtends(net: Net, top: Topology, answered: set<(Uuid, Uuid)>, freshId: Uuid,
                                       path: seq<Uuid>, d: Uuid)
    requires Inv(net)
    ensures var net' := Walk(net, top, answered, freshId, path, d); Extends(net, net') && Inv(net')
    decreases |path|
  {
    if |path| >= 2 {
      var mid := Retries(net, top, answered, freshId, path[0]);
      StepExtends(net, mid, Resend(path[0], PeersOf(top, path[0]), RealWorld(net, top, answered, freshId)));
      var next := Receives(mid, top, answered, freshId, path[1], d);
      if next != mid {
        StepExtends(mid, next, Arrive(path[1], WireCopy(mid.issued[d]), PeersOf(top, path[1]),
                                      RealWorld(mid, top, answered, freshId)));
      }
      WalkExtends(next, top, answered, freshId, path[1..], d);
    }
  }

  lemma {:induction false} StepExtends(net: Net, net': Net, a: Action)
    requires Inv(net) && net' == if Enabled(net, a) then Next(net, a) else net
    ensures Inv(net') && Extends(net, net')
  {
    if Enabled(net, a) {
      StepKeepsInv(net, a);
      var base, e := StepMoves(net, a);
      if !Waits(net, net') {
        MoveExtends(net, net', base, e);
      }
    }
  }
}
