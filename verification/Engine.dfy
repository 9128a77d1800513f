/** The routing engine (src/routing/engine.rs, src/routing/scf.rs) and the loop that feeds it from a
    peer's connection (src/network/client.rs), step by step. */
module Engine {
  import opened Model
  import opened Store
  import opened Storage
  import opened Registry
  import opened NodeStep
  import opened Frames
  import Wire

  class RoutingEngine {
    const nodeId: Uuid
    var peers: seq<Uuid>
    const manager: BundleManager

    constructor (nodeId: Uuid, peers: seq<Uuid>, manager: BundleManager)
      ensures this.nodeId == nodeId && this.peers == peers && this.manager == manager
    {
      this.nodeId, this.peers, this.manager := nodeId, peers, manager;
    }

    method AntiEntropy(localBundles: seq<Bundle>, peerVector: seq<Uuid>) returns (missing: seq<Bundle>)
      ensures missing == Missing(localBundles, peerVector)
    {
      missing := [];
      for i := 0 to |localBundles|
        invariant missing == Missing(localBundles[..i], peerVector)
      {
        FilterSnoc(localBundles[..i], localBundles[i], NotAmong(peerVector));
        assert localBundles[..i + 1] == localBundles[..i] + [localBundles[i]];
        if localBundles[i].id !in peerVector {
          missing := missing + [localBundles[i]];
        }
      }
      assert localBundles[..|localBundles|] == localBundles;
    }

    /** Sends one bundle to every peer that lacks it; counts the sends that report success. */
    method SendWhereMissing(b: Bundle, targets: seq<PeerRecord>, w: World)
      returns (sent: seq<Message>, sentCount: nat)
      ensures sent == Flood([b], targets, w)
      ensures sentCount > 0 <==> Confirmed(b, targets, w)
    {
      var needing := PeersNeeding(b, targets, w);
      sent, sentCount := [], 0;
      for i := 0 to |needing|
        invariant sent == OffersTo(b, needing[..i])
        invariant sentCount > 0 <==> exists k :: 0 <= k < i && (needing[k].node.id, b.id) in w.answered
      {
        assert needing[..i + 1][..i] == needing[..i];
        sent := sent + [Message(needing[i].node.id, b)];
        if (needing[i].node.id, b.id) in w.answered {
          sentCount := sentCount + 1;
        }
      }
      assert needing[..|needing|] == needing;
      if Confirmed(b, targets, w) {
        var p :| p in targets && b.id !in Vector(w, p.node.id) && (p.node.id, b.id) in w.answered;
        assert p in needing;
      }
      if k :| 0 <= k < |needing| && (needing[k].node.id, b.id) in w.answered {
        assert needing[k] in needing;
      }
    }

    method PeersNeeding(b: Bundle, targets: seq<PeerRecord>, w: World) returns (needing: seq<PeerRecord>)
      ensures forall p :: p in needing <==> p in targets && b.id !in Vector(w, p.node.id)
      ensures OffersTo(b, needing) == Flood([b], targets, w)
    {
      needing := [];
      for i := 0 to |targets|
        invariant forall p :: p in needing <==> p in targets[..i] && b.id !in Vector(w, p.node.id)
        invariant OffersTo(b, needing) == Flood([b], targets[..i], w)
      {
        FloodStep([b], targets, i, w);
        FloodOne(b, Vector(w, targets[i].node.id), targets[i].node.id);
        assert targets[..i + 1] == targets[..i] + [targets[i]];
        if b.id !in Vector(w, targets[i].node.id) {
          assert (needing + [targets[i]])[..|needing|] == needing;
          needing := needing + [targets[i]];
        }
      }
      assert targets[..|targets|] == targets;
    }

    method RouteBundle(bundle: Bundle, w: World) returns (routed: Bundle, sent: seq<Message>)
      modifies manager.storage, manager.storage.disk`file
      ensures manager.storage.disk.writes.AllSucceed? ==>
                var o := Route(nodeId, peers, old(manager.storage.disk.file), bundle, w, manager.storage.capacity);
                manager.storage.disk.file == o.store && routed == o.bundle && sent == o.sent
      ensures manager.storage.disk.writes.AllFail? ==>
                manager.storage.disk.file == old(manager.storage.disk.file)
                && (routed, sent) == RouteUnsaved(nodeId, peers, old(manager.storage.disk.file), bundle, w)
      ensures WellFormed(old(manager.storage.disk.file), manager.storage.capacity) ==>
                WellFormed(manager.storage.disk.file, manager.storage.capacity)
    {
      if bundle.kind.Ack? {
        routed, sent := RouteAckBundle(bundle, w);
        return;
      }
      if IsExpired(bundle, w.now) {
        routed, sent := bundle.(status := Expired), [];
        var _ := manager.storage.DeleteBundle(bundle.id);
        return;
      }
      if nodeId == bundle.destination.id {
        routed, sent := DeliverHere(bundle, w);
        return;
      }
      routed, sent := Relay(bundle, w);
    }

    method RouteAckBundle(bundle: Bundle, w: World) returns (routed: Bundle, sent: seq<Message>)
      requires bundle.kind.Ack?
      modifies manager.storage, manager.storage.disk`file
      ensures manager.storage.disk.writes.AllSucceed? ==>
                var o := RouteAck(nodeId, peers, old(manager.storage.disk.file), bundle, w, manager.storage.capacity);
                manager.storage.disk.file == o.store && routed == o.bundle && sent == o.sent
      ensures manager.storage.disk.writes.AllFail? ==>
                manager.storage.disk.file == old(manager.storage.disk.file)
                && (routed, sent) == RouteUnsaved(nodeId, peers, old(manager.storage.disk.file), bundle, w)
      ensures WellFormed(old(manager.storage.disk.file), manager.storage.capacity) ==>
                WellFormed(manager.storage.disk.file, manager.storage.capacity)
    {
      routed, sent := bundle, [];
      var requestedIds := peers;
      if bundle.destination.id !in requestedIds {
        requestedIds := requestedIds + [bundle.destination.id];
      }
      var connectedPeers := Reachable(w, nodeId, requestedIds);
      if nodeId == bundle.destination.id {
        var _ := manager.HandleIncomingAck(bundle, w.now);
        routed := routed.(status := Delivered);
        var _ := manager.UpsertBundle(routed, w.now);
        return;
      }
      var firstSeen := manager.HandleIncomingAck(bundle, w.now);
      if !firstSeen {
        return;
      }
      var sentCount;
      sent, sentCount := SendWhereMissing(bundle, connectedPeers, w);
      if sentCount > 0 {
        routed := routed.(status := InTransit);
        var _ := manager.UpsertBundle(routed, w.now);
      }
    }

    method DeliverHere(bundle: Bundle, w: World) returns (routed: Bundle, sent: seq<Message>)
      modifies manager.storage, manager.storage.disk`file
      ensures manager.storage.disk.writes.AllSucceed? ==>
                var o := RouteAtDestination(nodeId, peers, old(manager.storage.disk.file), bundle, w,
                                            manager.storage.capacity);
                manager.storage.disk.file == o.store && routed == o.bundle && sent == o.sent
      ensures manager.storage.disk.writes.AllFail? ==>
                manager.storage.disk.file == old(manager.storage.disk.file)
                && routed == bundle.(status := Delivered) && sent == []
      ensures WellFormed(old(manager.storage.disk.file), manager.storage.capacity) ==>
                WellFormed(manager.storage.disk.file, manager.storage.capacity)
    {
      var requestedIds := peers;
      if bundle.source.id !in requestedIds {
        requestedIds := requestedIds + [bundle.source.id];
      }
      var connectedPeers := Reachable(w, nodeId, requestedIds);
      routed, sent := bundle.(status := Delivered), [];
      var _ := manager.UpsertBundle(routed, w.now);
      var ack := NewAck(routed, w.freshId, w.now);
      var createdHere := StoreIfNew(ack, w.now);
      if !createdHere {
        return;
      }
      var sentCount;
      sent, sentCount := SendWhereMissing(ack, connectedPeers, w);
      if sentCount > 0 {
        var _ := manager.UpsertBundle(ack.(status := InTransit), w.now);
      }
    }

    /** Stores a new ACK, unless its id is known. */
    method StoreIfNew(ack: Bundle, now: int) returns (createdHere: bool)
      modifies manager.storage, manager.storage.disk`file
      ensures manager.storage.disk.writes.AllSucceed? ==>
                (manager.storage.disk.file, createdHere)
                == if Has(old(manager.storage.disk.file), ack.id) then (old(manager.storage.disk.file), false)
                   else Save(old(manager.storage.disk.file), ack, now, manager.storage.capacity)
      ensures manager.storage.disk.writes.AllFail? ==>
                manager.storage.disk.file == old(manager.storage.disk.file) && !createdHere
      ensures WellFormed(old(manager.storage.disk.file), manager.storage.capacity) ==>
                WellFormed(manager.storage.disk.file, manager.storage.capacity)
    {
      createdHere := false;
      var known := manager.HasBundle(ack.id);
      if !known {
        createdHere := manager.storage.SaveBundle(ack, now);
      }
    }

    method Relay(bundle: Bundle, w: World) returns (routed: Bundle, sent: seq<Message>)
      modifies manager.storage, manager.storage.disk`file
      ensures manager.storage.disk.writes.AllSucceed? ==>
                var o := RouteAtRelay(nodeId, peers, old(manager.storage.disk.file), bundle, w,
                                      manager.storage.capacity);
                manager.storage.disk.file == o.store && routed == o.bundle && sent == o.sent
      ensures manager.storage.disk.writes.AllFail? ==>
                manager.storage.disk.file == old(manager.storage.disk.file)
                && (routed, sent) == RelayUnsaved(nodeId, peers, old(manager.storage.disk.file), bundle, w)
      ensures WellFormed(old(manager.storage.disk.file), manager.storage.capacity) ==>
                WellFormed(manager.storage.disk.file, manager.storage.capacity)
    {
      var requestedIds := peers;
      if bundle.source.id !in requestedIds {
        requestedIds := requestedIds + [bundle.source.id];
      }
      var connectedPeers := Reachable(w, nodeId, requestedIds);
      routed, sent := bundle, [];
      var _ := manager.storage.SaveBundle(bundle, w.now);
      var localBundles := manager.storage.GetAllBundles();
      var pending := Filter(localBundles, IsPending());
      var sentToPeer;
      sent, sentToPeer := ForwardMissing(pending, connectedPeers, w);
      if sentToPeer {
        routed := routed.(status := InTransit);
        var _ := manager.UpsertBundle(routed, w.now);
      }
    }

    method RetryUnsyncedBundles(w: World) returns (sent: seq<Message>)
      modifies manager.storage, manager.storage.disk`file
      ensures manager.storage.disk.writes.AllSucceed? ==>
                (manager.storage.disk.file, sent) == Retry(nodeId, peers, old(manager.storage.disk.file), w)
      ensures manager.storage.disk.writes.AllFail? ==>
                manager.storage.disk.file == old(manager.storage.disk.file)
                && sent == Retry(nodeId, peers, old(manager.storage.disk.file), w).1
      ensures WellFormed(old(manager.storage.disk.file), manager.storage.capacity) ==>
                WellFormed(manager.storage.disk.file, manager.storage.capacity)
    {
      sent := [];
      var connectedPeers := Reachable(w, nodeId, peers);
      if connectedPeers == [] {
        return;
      }
      var localBundles := manager.storage.GetAllBundles();
      var retryable := Filter(localBundles, IsRetryable());
      if retryable == [] {
        NothingToFlood(connectedPeers, w);
        return;
      }
      var sentBundleIds: seq<Uuid>;
      sent, sentBundleIds := OfferRetries(retryable, connectedPeers, w);
      for i := 0 to |sentBundleIds|
        invariant manager.storage.disk.writes == old(manager.storage.disk.writes)
        invariant manager.storage.disk.writes.AllSucceed? ==>
                    manager.storage.disk.file == MarkAll(old(manager.storage.disk.file), sentBundleIds[..i])
        invariant manager.storage.disk.writes.AllFail? ==> manager.storage.disk.file == old(manager.storage.disk.file)
        invariant WellFormed(old(manager.storage.disk.file), manager.storage.capacity) ==>
                    WellFormed(manager.storage.disk.file, manager.storage.capacity)
      {
        MarkStep(old(manager.storage.disk.file), sentBundleIds, i);
        MarkSent(sentBundleIds[i], w.now);
      }
      assert sentBundleIds[..|sentBundleIds|] == sentBundleIds;
    }

    /** One round of the marking loop. */
    method MarkSent(id: Uuid, now: int)
      modifies manager.storage, manager.storage.disk`file
      ensures manager.storage.disk.writes.AllSucceed? ==>
                manager.storage.disk.file == Mark(old(manager.storage.disk.file), id)
      ensures manager.storage.disk.writes.AllFail? ==> manager.storage.disk.file == old(manager.storage.disk.file)
      ensures WellFormed(old(manager.storage.disk.file), manager.storage.capacity) ==>
                WellFormed(manager.storage.disk.file, manager.storage.capacity)
    {
      var bundle := manager.storage.GetBundle(id);
      if bundle.Some? {
        var _ := manager.UpsertBundle(bundle.value.(status := InTransit), now);
      }
    }

    /** The sending loop of the relay branch: success of a send is not looked at. */
    method ForwardMissing(pending: seq<Bundle>, connectedPeers: seq<PeerRecord>, w: World)
      returns (sent: seq<Message>, sentToPeer: bool)
      ensures sent == Flood(pending, connectedPeers, w)
      ensures sentToPeer <==> sent != []
    {
      sent, sentToPeer := [], false;
      for i := 0 to |connectedPeers|
        invariant sent == Flood(pending, connectedPeers[..i], w)
        invariant sentToPeer <==> sent != []
      {
        FloodStep(pending, connectedPeers, i, w);
        var peer := connectedPeers[i].node.id;
        var toForward := AntiEntropy(pending, Vector(w, peer));
        var more: seq<Message> := [];
        for k := 0 to |toForward|
          invariant more == Offers(toForward[..k], peer)
          invariant sentToPeer <==> sent + more != []
        {
          OffersStep(toForward, k, peer);
          more := more + [Message(peer, toForward[k])];
          sentToPeer := true;
        }
        assert toForward[..|toForward|] == toForward;
        sent := sent + more;
      }
      assert connectedPeers[..|connectedPeers|] == connectedPeers;
    }

    /** The sending loops of a retry: each id confirmed by some peer is recorded once. */
    method OfferRetries(retryable: seq<Bundle>, connectedPeers: seq<PeerRecord>, w: World)
      returns (sent: seq<Message>, sentBundleIds: seq<Uuid>)
      ensures sent == Flood(retryable, connectedPeers, w)
      ensures sentBundleIds == SentIds(retryable, connectedPeers, w)
    {
      sent, sentBundleIds := [], [];
      for i := 0 to |connectedPeers|
        invariant sent == Flood(retryable, connectedPeers[..i], w)
        invariant sentBundleIds == SentIds(retryable, connectedPeers[..i], w)
      {
        FloodStep(retryable, connectedPeers, i, w);
        var peer := connectedPeers[i].node.id;
        var toForward := AntiEntropy(retryable, Vector(w, peer));
        var more: seq<Message> := [];
        ghost var idsBefore := sentBundleIds;
        for k := 0 to |toForward|
          invariant more == Offers(toForward[..k], peer)
          invariant sentBundleIds == AddSent(idsBefore, toForward[..k], peer, w)
        {
          OffersStep(toForward, k, peer);
          assert toForward[..k + 1][..k] == toForward[..k];
          more := more + [Message(peer, toForward[k])];
          if (peer, toForward[k].id) in w.answered && toForward[k].id !in sentBundleIds {
            sentBundleIds := sentBundleIds + [toForward[k].id];
          }
        }
        assert toForward[..|toForward|] == toForward;
        sent := sent + more;
      }
      assert connectedPeers[..|connectedPeers|] == connectedPeers;
    }

    /** Deletes the expired bundles one id at a time. */
    method DropExpiredBundles(now: int)
      modifies manager.storage, manager.storage.disk`file
      ensures manager.storage.disk.writes.AllSucceed? ==>
                manager.storage.disk.file
                == DeleteAll(old(manager.storage.disk.file), ExpiredIds(old(manager.storage.disk.file), now))
      ensures manager.storage.disk.writes.AllFail? ==> manager.storage.disk.file == old(manager.storage.disk.file)
      ensures WellFormed(old(manager.storage.disk.file), manager.storage.capacity) ==>
                WellFormed(manager.storage.disk.file, manager.storage.capacity)
    {
      var all := manager.storage.GetAllBundles();
      var expired := ExpiredIds(all, now);
      for i := 0 to |expired|
        invariant manager.storage.disk.writes.AllSucceed? ==>
                    manager.storage.disk.file == DeleteAll(old(manager.storage.disk.file), expired[..i])
        invariant manager.storage.disk.writes.AllFail? ==> manager.storage.disk.file == old(manager.storage.disk.file)
        invariant WellFormed(old(manager.storage.disk.file), manager.storage.capacity) ==>
                    WellFormed(manager.storage.disk.file, manager.storage.capacity)
      {
        assert expired[..i + 1][..i] == expired[..i];
        var _ := manager.storage.DeleteBundle(expired[i]);
      }
      assert expired[..|expired|] == expired;
    }

    /** The receive guard: a bundle already stored is not routed again. */
    method Accept(bundle: Bundle, w: World) returns (sent: seq<Message>)
      modifies manager.storage, manager.storage.disk`file
      ensures manager.storage.disk.writes.AllSucceed? ==>
                var o := Receive(nodeId, peers, old(manager.storage.disk.file), bundle, w, manager.storage.capacity);
                manager.storage.disk.file == o.store && sent == o.sent
      ensures manager.storage.disk.writes.AllFail? ==>
                manager.storage.disk.file == old(manager.storage.disk.file)
                && sent == if Has(old(manager.storage.disk.file), bundle.id) then []
                           else RouteUnsaved(nodeId, peers, old(manager.storage.disk.file), bundle, w).1
      ensures WellFormed(old(manager.storage.disk.file), manager.storage.capacity) ==>
                WellFormed(manager.storage.disk.file, manager.storage.capacity)
    {
      sent := [];
      var known := manager.HasBundle(bundle.id);
      if !known {
        var routed;
        routed, sent := RouteBundle(bundle, w);
      }
    }

    /** One round of the receiving loop, after the bundles `before`. */
    method AcceptNext(bundle: Bundle, received: nat, worlds: nat -> World, sentBefore: seq<Message>,
                      ghost first: seq<Bundle>, ghost before: seq<Bundle>)
      returns (sent: seq<Message>)
      requires received == |before|
      requires Reached(manager.storage.disk.writes, manager.storage.disk.file, sentBefore, nodeId, peers, first, before,
                       worlds, manager.storage.capacity)
      modifies manager.storage, manager.storage.disk`file
      ensures Reached(manager.storage.disk.writes, manager.storage.disk.file, sent, nodeId, peers, first,
                      before + [bundle], worlds, manager.storage.capacity)
    {
      var more := Accept(bundle, worlds(received));
      sent := sentBefore + more;
      assert (before + [bundle])[..received] == before;
    }

    /** One peer connection until it closes: frames are decoded, bundles already known are ignored and the
        others routed; call number k happens in world `worlds(k)`. */
    method HandlePeerToPeer(stream: seq<Byte>, decode: seq<Byte> -> Option<Wire.ProtobufBundle>, worlds: nat -> World)
      returns (sent: seq<Message>)
      modifies manager.storage, manager.storage.disk`file
      ensures manager.storage.disk.writes.AllSucceed? ==>
                (manager.storage.disk.file, sent)
                == ReceiveAll(nodeId, peers, old(manager.storage.disk.file), Decoded(Parse(stream).0, decode), worlds,
                              manager.storage.capacity)
      ensures manager.storage.disk.writes.AllFail? ==>
                manager.storage.disk.file == old(manager.storage.disk.file)
                && sent == ReceiveAllUnsaved(nodeId, peers, old(manager.storage.disk.file),
                                             Decoded(Parse(stream).0, decode), worlds)
      ensures WellFormed(old(manager.storage.disk.file), manager.storage.capacity) ==>
                WellFormed(manager.storage.disk.file, manager.storage.capacity)
    {
      ghost var first, all := manager.storage.disk.file, Decoded(Parse(stream).0, decode);
      sent := [];
      var rest := stream;
      var received: nat := 0;
      ghost var done: seq<Bundle> := [];
      while rest != []
        invariant received == |done| && all == done + Decoded(Parse(rest).0, decode)
        invariant Reached(manager.storage.disk.writes, manager.storage.disk.file, sent, nodeId, peers, first, done,
                          worlds, manager.storage.capacity)
        decreases |rest|
      {
        if rest[0] == BRACE {
          break;
        }
        var bundle;
        bundle, rest := ReceiveBundle(rest, decode);
        if bundle.None? {
          break;
        }
        Regroup(done, [bundle.value], Decoded(Parse(rest).0, decode));
        sent := AcceptNext(bundle.value, received, worlds, sent, first, done);
        received, done := received + 1, done + [bundle.value];
      }
      assert all == done;
    }
  }

  /** File and messages after receiving `bundles`, starting from the file `first`. */
  ghost predicate Reached(writes: Writes, file: seq<Bundle>, sent: seq<Message>, self: Uuid, peers: seq<Uuid>,
                          first: seq<Bundle>, bundles: seq<Bundle>, worlds: nat -> World, capacity: nat)
  {
    && (writes.AllSucceed? ==> (file, sent) == ReceiveAll(self, peers, first, bundles, worlds, capacity))
    && (writes.AllFail? ==> file == first && sent == ReceiveAllUnsaved(self, peers, first, bundles, worlds))
    && (WellFormed(first, capacity) ==> WellFormed(file, capacity))
  }

  /** receive_bundle: one frame, decoded and converted. */
  method ReceiveBundle(stream: seq<Byte>, decode: seq<Byte> -> Option<Wire.ProtobufBundle>)
    returns (bundle: Option<Bundle>, rest: seq<Byte>)
    requires stream != [] && stream[0] != BRACE
    ensures bundle.None? ==> Decoded(Parse(stream).0, decode) == []
    ensures bundle.Some? ==>
              |rest| < |stream|
              && Decoded(Parse(stream).0, decode) == [bundle.value] + Decoded(Parse(rest).0, decode)
  {
    var payload;
    payload, rest := ReceivePayload(stream);
    if payload.None? {
      return None, rest;
    }
    var message := decode(payload.value);
    if message.None? {
      return None, rest;
    }
    bundle := Some(Wire.FromProtobuf(message.value));
    assert ([payload.value] + Parse(rest).0)[1..] == Parse(rest).0;
  }

  /** The bundles of the leading payloads that decode. */
  function Decoded(payloads: seq<seq<Byte>>, decode: seq<Byte> -> Option<Wire.ProtobufBundle>): seq<Bundle> {
    if payloads == [] || decode(payloads[0]).None? then []
    else [Wire.FromProtobuf(decode(payloads[0]).value)] + Decoded(payloads[1..], decode)
  }

  // ---- Helpers -------------------------------------------------------------------------------

  function OffersTo(b: Bundle, peers: seq<PeerRecord>): seq<Message> {
    if peers == [] then []
    else OffersTo(b, peers[..|peers| - 1]) + [Message(peers[|peers| - 1].node.id, b)]
  }

  lemma {:induction false} FloodOne(b: Bundle, vector: seq<Uuid>, to: Uuid)
    ensures Offers(Missing([b], vector), to) == if b.id in vector then [] else [Message(to, b)]
  {
    assert [b][1..] == [];
    if b.id !in vector {
      assert Missing([b], vector) == [b];
      assert [b][..0] == [];
    }
  }

  lemma {:induction false} FloodStep(bundles: seq<Bundle>, peers: seq<PeerRecord>, i: nat, w: World)
    requires i < |peers|
    ensures var p := peers[i].node.id;
            Flood(bundles, peers[..i + 1], w)
            == Flood(bundles, peers[..i], w) + Offers(Missing(bundles, Vector(w, p)), p)
    ensures var p := peers[i].node.id;
            SentIds(bundles, peers[..i + 1], w)
            == AddSent(SentIds(bundles, peers[..i], w), Missing(bundles, Vector(w, p)), p, w)
  {
    assert peers[..i + 1][..i] == peers[..i];
  }

  lemma {:induction false} OffersStep(bundles: seq<Bundle>, k: nat, to: Uuid)
    requires k < |bundles|
    ensures Offers(bundles[..k + 1], to) == Offers(bundles[..k], to) + [Message(to, bundles[k])]
  {
    assert bundles[..k + 1][..k] == bundles[..k];
  }

  lemma {:induction false} MarkStep(s: seq<Bundle>, ids: seq<Uuid>, i: nat)
    requires i < |ids|
    ensures MarkAll(s, ids[..i + 1]) == Mark(MarkAll(s, ids[..i]), ids[i])
  {
    assert ids[..i + 1][..i] == ids[..i];
  }

  lemma {:induction false} FilterSnoc(s: seq<Bundle>, b: Bundle, keep: Bundle -> bool)
    ensures Filter(s + [b], keep) == Filter(s, keep) + (if keep(b) then [b] else [])
  {
    if s == [] {
      assert s + [b] == [b];
      assert [b][1..] == [];
    } else {
      FilterSnoc(s[1..], b, keep);
      assert (s + [b])[1..] == s[1..] + [b];
    }
  }

  lemma {:induction false} NothingToFlood(peers: seq<PeerRecord>, w: World)
    ensures Flood([], peers, w) == [] && SentIds([], peers, w) == []
  {
    if peers != [] {
      NothingToFlood(peers[..|peers| - 1], w);
    }
  }
}
