/** From the frames of a connection to the calls of the engine: what is received is what was sent, each bundle once and
    in order, and the messages of a connection are those of its calls. */
module Reception {
  import opened Model
  import opened Store
  import opened Registry
  import opened NodeStep
  import opened NodeFacts
  import opened Frames
  import opened Engine
  import opened Network
  import opened AntiEntropy
  import Wire

  type Decoder = seq<Byte> -> Option<Wire.ProtobufBundle>

  // ---- Frames and bundles --------------------------------------------------------------------

  /** These payloads are the serialized messages of these bundles. */
  predicate Serialized(payloads: seq<seq<Byte>>, bundles: seq<Bundle>, decode: Decoder) {
    |payloads| == |bundles|
    && forall i :: 0 <= i < |bundles| ==> decode(payloads[i]) == Some(Wire.ToProtobuf(bundles[i]))
  }

  lemma {:induction false} DecodesToCopies(payloads: seq<seq<Byte>>, bundles: seq<Bundle>, decode: Decoder)
    requires Serialized(payloads, bundles, decode) && Plain(bundles)
    ensures Decoded(payloads, decode) == CopiesOf(bundles)
  {
    if bundles != [] {
      var b, rest := bundles[0], bundles[1..];
      SerializedTail(payloads, bundles, decode);
      DecodesToCopies(payloads[1..], rest, decode);
      CarryOfPlain(b, Wire.FromProtobuf(decode(payloads[0]).value));
      assert Decoded(payloads, decode) == [WireCopy(b)] + Decoded(payloads[1..], decode);
    }
  }

  lemma {:induction false} SerializedTail(payloads: seq<seq<Byte>>, bundles: seq<Bundle>, decode: Decoder)
    requires Serialized(payloads, bundles, decode) && Plain(bundles) && bundles != []
    ensures decode(payloads[0]) == Some(Wire.ToProtobuf(bundles[0])) && (bundles[0].kind.Data? || bundles[0].kind.Ack?)
    ensures Serialized(payloads[1..], bundles[1..], decode) && Plain(bundles[1..])
  {
    assert bundles[0] in bundles && forall b :: b in bundles[1..] ==> b in bundles;
    forall i | 0 <= i < |bundles| - 1 ensures decode(payloads[1..][i]) == Some(Wire.ToProtobuf(bundles[1..][i])) {
      assert decode(payloads[i + 1]) == Some(Wire.ToProtobuf(bundles[i + 1]));
    }
  }

  /** What was sent is what is received: on the frames of serialized Data and ACK bundles, the connection loop has the
      effect of receiving their wire copies, in order. */
  lemma {:induction false} ReceivesWhatWasSent(self: Uuid, peers: seq<Uuid>, s: seq<Bundle>,
                                               payloads: seq<seq<Byte>>, bundles: seq<Bundle>, decode: Decoder,
                                               worlds: nat -> World, capacity: nat)
    requires Serialized(payloads, bundles, decode) && Plain(bundles)
    requires forall p :: p in payloads ==> Framable(p)
    ensures Decoded(Parse(Stream(payloads)).0, decode) == CopiesOf(bundles)
    ensures ReceiveAll(self, peers, s, Decoded(Parse(Stream(payloads)).0, decode), worlds, capacity)
            == ReceiveAll(self, peers, s, CopiesOf(bundles), worlds, capacity)
  {
    StreamRoundTrip(payloads);
    DecodesToCopies(payloads, bundles, decode);
  }

  /** On any stream: each payload that decodes gives its bundle, up to the first that does not. */
  lemma {:induction false} StopsAtTheFirstFailure(payloads: seq<seq<Byte>>, decode: Decoder)
    ensures var bundles := Decoded(payloads, decode);
            && |bundles| <= |payloads|
            && (forall i :: 0 <= i < |bundles| ==>
                  decode(payloads[i]).Some? && bundles[i] == Wire.FromProtobuf(decode(payloads[i]).value))
            && (|bundles| < |payloads| ==> decode(payloads[|bundles|]).None?)
  {
    if payloads != [] && decode(payloads[0]).Some? {
      var rest := Decoded(payloads[1..], decode);
      StopsAtTheFirstFailure(payloads[1..], decode);
      forall i | 0 < i <= |rest|
        ensures payloads[1..][i - 1] == payloads[i] && Decoded(payloads, decode)[i] == rest[i - 1]
      {
      }
    }
  }

  // ---- Receiving one after another -----------------------------------------------------------

  function Later(worlds: nat -> World, k: nat): nat -> World {
    (i: nat) => worlds(i + k)
  }

  /** Receiving a list and then another is receiving both, with all their messages, in order. */
  lemma {:induction false} ReceiveAllSplits(self: Uuid, peers: seq<Uuid>, s: seq<Bundle>, first: seq<Bundle>,
                                            second: seq<Bundle>, worlds: nat -> World, capacity: nat)
    ensures var before := ReceiveAll(self, peers, s, first, worlds, capacity);
            var after := ReceiveAll(self, peers, before.0, second, Later(worlds, |first|), capacity);
            ReceiveAll(self, peers, s, first + second, worlds, capacity) == (after.0, before.1 + after.1)
    decreases |second|
  {
    if second == [] {
      SplitEmpty(self, peers, s, first, worlds, capacity);
    } else {
      var init, b := second[..|second| - 1], second[|second| - 1];
      ReceiveAllSplits(self, peers, s, first, init, worlds, capacity);
      assert second == init + [b];
      SplitSnoc(self, peers, s, first, init, b, worlds, capacity);
    }
  }

  lemma {:induction false} SplitEmpty(self: Uuid, peers: seq<Uuid>, s: seq<Bundle>, first: seq<Bundle>,
                                      worlds: nat -> World, capacity: nat)
    ensures var before := ReceiveAll(self, peers, s, first, worlds, capacity);
            var after := ReceiveAll(self, peers, before.0, [], Later(worlds, |first|), capacity);
            ReceiveAll(self, peers, s, first + [], worlds, capacity) == (after.0, before.1 + after.1)
  {
    assert first + [] == first;
    var before := ReceiveAll(self, peers, s, first, worlds, capacity);
    assert before.1 + [] == before.1;
  }

  /** The split of a list carries over to one more bundle. */
  lemma {:induction false} SplitSnoc(self: Uuid, peers: seq<Uuid>, s: seq<Bundle>, first: seq<Bundle>,
                                     second: seq<Bundle>, b: Bundle, worlds: nat -> World, capacity: nat)
    requires var before := ReceiveAll(self, peers, s, first, worlds, capacity);
             var between := ReceiveAll(self, peers, before.0, second, Later(worlds, |first|), capacity);
             ReceiveAll(self, peers, s, first + second, worlds, capacity) == (between.0, before.1 + between.1)
    ensures var before := ReceiveAll(self, peers, s, first, worlds, capacity);
            var after := ReceiveAll(self, peers, before.0, second + [b], Later(worlds, |first|), capacity);
            ReceiveAll(self, peers, s, first + (second + [b]), worlds, capacity) == (after.0, before.1 + after.1)
  {
    var before := ReceiveAll(self, peers, s, first, worlds, capacity);
    var between := ReceiveAll(self, peers, before.0, second, Later(worlds, |first|), capacity);
    var o := NodeStep.Receive(self, peers, between.0, b, worlds(|first| + |second|), capacity);
    assert ReceiveAll(self, peers, s, first + (second + [b]), worlds, capacity)
        == (o.store, before.1 + between.1 + o.sent) by {
      ReceiveAllSnoc(self, peers, s, first + second, b, worlds, capacity);
      assert first + second + [b] == first + (second + [b]);
    }
    assert ReceiveAll(self, peers, before.0, second + [b], Later(worlds, |first|), capacity)
        == (o.store, between.1 + o.sent) by {
      ReceiveAllSnoc(self, peers, before.0, second, b, Later(worlds, |first|), capacity);
    }
    Associates(before.1, between.1, o.sent);
  }

  lemma {:induction false} ReceiveAllSnoc(self: Uuid, peers: seq<Uuid>, s: seq<Bundle>, init: seq<Bundle>, b: Bundle,
                                          worlds: nat -> World, capacity: nat)
    ensures var (t, sent) := ReceiveAll(self, peers, s, init, worlds, capacity);
            var o := NodeStep.Receive(self, peers, t, b, worlds(|init|), capacity);
            ReceiveAll(self, peers, s, init + [b], worlds, capacity) == (o.store, sent + o.sent)
  {
    assert (init + [b])[..|init|] == init;
  }

  /** Receiving one bundle: it is ignored if its id is known, and routed otherwise. */
  lemma {:induction false} ReceiveAllOfOne(self: Uuid, peers: seq<Uuid>, s: seq<Bundle>, b: Bundle,
                                           worlds: nat -> World, capacity: nat)
    ensures var o := Route(self, peers, s, b, worlds(0), capacity);
            ReceiveAll(self, peers, s, [b], worlds, capacity) == if Has(s, b.id) then (s, []) else (o.store, o.sent)
  {
    assert [b][..0] == [];
    assert ReceiveAll(self, peers, s, [], worlds, capacity) == (s, []);
    var sent := NodeStep.Receive(self, peers, s, b, worlds(0), capacity).sent;
    assert [] + sent == sent;
  }

  // ---- Messages in order ---------------------------------------------------------------------

  lemma {:induction false} FloodSnoc(bundles: seq<Bundle>, init: seq<PeerRecord>, p: PeerRecord, w: World)
    ensures Flood(bundles, init + [p], w) == Flood(bundles, init, w) + Flood(bundles, [p], w)
  {
    assert (init + [p])[..|init|] == init && [p][..0] == [];
    var offers := Offers(Missing(bundles, Vector(w, p.node.id)), p.node.id);
    assert [] + offers == offers;
  }

  /** Peers are served one after the other. */
  lemma {:induction false} FloodInOrder(bundles: seq<Bundle>, before: seq<PeerRecord>, after: seq<PeerRecord>, w: World)
    ensures Flood(bundles, before + after, w) == Flood(bundles, before, w) + Flood(bundles, after, w)
    decreases |after|
  {
    if after == [] {
      assert before + after == before;
    } else {
      var init, last := after[..|after| - 1], after[|after| - 1];
      FloodInOrder(bundles, before, init, w);
      JoinFloods(bundles, before, init, last, w);
      assert after == init + [last];
    }
  }

  lemma {:induction false} JoinFloods(bundles: seq<Bundle>, before: seq<PeerRecord>, init: seq<PeerRecord>,
                                      last: PeerRecord, w: World)
    requires Flood(bundles, before + init, w) == Flood(bundles, before, w) + Flood(bundles, init, w)
    ensures Flood(bundles, before + (init + [last]), w)
            == Flood(bundles, before, w) + Flood(bundles, init + [last], w)
  {
    var a, b, c := Flood(bundles, before, w), Flood(bundles, init, w), Flood(bundles, [last], w);
    assert Flood(bundles, before + (init + [last]), w) == a + b + c by {
      assert before + (init + [last]) == before + init + [last];
      FloodSnoc(bundles, before + init, last, w);
    }
    assert Flood(bundles, init + [last], w) == b + c by { FloodSnoc(bundles, init, last, w); }
    Associates(a, b, c);
  }

  lemma {:induction false} Associates(a: seq<Message>, b: seq<Message>, c: seq<Message>)
    ensures a + b + c == a + (b + c)
  {
  }

  /** One peer is offered what it lacks, each bundle as often as it is listed and in that order. */
  lemma {:induction false} FloodOfOne(bundles: seq<Bundle>, p: PeerRecord, w: World)
    ensures var sent := Flood(bundles, [p], w);
            var missing := Filter(bundles, NotAmong(if p.node.id in w.vectors then w.vectors[p.node.id] else []));
            |sent| == |missing| && forall i :: 0 <= i < |sent| ==> sent[i] == Message(p.node.id, missing[i])
  {
    var missing := Missing(bundles, Vector(w, p.node.id));
    assert [p][..0] == [];
    assert Flood(bundles, [], w) == [];
    OffersInOrder(missing, p.node.id);
  }

  lemma {:induction false} OffersInOrder(bundles: seq<Bundle>, to: Uuid)
    ensures |Offers(bundles, to)| == |bundles|
    ensures forall i :: 0 <= i < |bundles| ==> Offers(bundles, to)[i] == Message(to, bundles[i])
  {
    if bundles != [] {
      OffersInOrder(bundles[..|bundles| - 1], to);
    }
  }

  // ---- No message twice ----------------------------------------------------------------------

  predicate Once(sent: seq<Message>) {
    forall i, j :: 0 <= i < j < |sent| ==> sent[i] != sent[j]
  }

  lemma {:induction false} FloodIsOnce(bundles: seq<Bundle>, peers: seq<PeerRecord>, w: World)
    requires Distinct(bundles) && OneRecordPerId(peers)
    ensures Once(Flood(bundles, peers, w))
  {
    if peers != [] {
      var k := |peers| - 1;
      var init, last := peers[..k], peers[k];
      FloodIsOnce(bundles, init, w);
      assert peers == init + [last];
      FloodInOrder(bundles, init, [last], w);
      FloodOfOneIsOnce(bundles, last, w);
      forall m | m in Flood(bundles, init, w) ensures m.to != last.node.id {
        FloodMembers(bundles, init, w);
        var p :| p in init && p.node.id == m.to;
        var i :| 0 <= i < k && init[i] == p;
      }
      OnceJoined(Flood(bundles, init, w), Flood(bundles, [last], w), last.node.id);
    }
  }

  lemma {:induction false} FloodOfOneIsOnce(bundles: seq<Bundle>, p: PeerRecord, w: World)
    requires Distinct(bundles)
    ensures Once(Flood(bundles, [p], w)) && forall m :: m in Flood(bundles, [p], w) ==> m.to == p.node.id
  {
    FloodOfOne(bundles, p, w);
    FilterKeepsDistinct(bundles, NotAmong(if p.node.id in w.vectors then w.vectors[p.node.id] else []));
  }

  lemma {:induction false} OnceJoined(before: seq<Message>, after: seq<Message>, to: Uuid)
    requires Once(before) && Once(after)
    requires (forall m :: m in before ==> m.to != to) && (forall m :: m in after ==> m.to == to)
    ensures Once(before + after)
  {
    forall i, j | 0 <= i < |before| && 0 <= j < |after| ensures before[i] != after[j] {
      assert before[i] in before && after[j] in after;
    }
  }

  lemma {:induction false} ReachableIsOnce(w: World, self: Uuid, ids: seq<Uuid>)
    requires OneRecordPerId(w.registry)
    ensures OneRecordPerId(Reachable(w, self, ids))
  {
    ConnectedIsOnce(w.registry, ids);
    OthersIsOnce(ConnectedPeers(w.registry, ids), self);
  }

  lemma {:induction false} ConnectedIsOnce(registry: seq<PeerRecord>, ids: seq<Uuid>)
    requires OneRecordPerId(registry)
    ensures OneRecordPerId(ConnectedPeers(registry, ids))
  {
    if registry != [] {
      ConnectedIsOnce(registry[1..], ids);
      HeadIsNew(registry, ConnectedPeers(registry[1..], ids));
    }
  }

  lemma {:induction false} OthersIsOnce(peers: seq<PeerRecord>, self: Uuid)
    requires OneRecordPerId(peers)
    ensures OneRecordPerId(Others(peers, self))
  {
    if peers != [] {
      OthersIsOnce(peers[1..], self);
      HeadIsNew(peers, Others(peers[1..], self));
    }
  }

  lemma {:induction false} HeadIsNew(peers: seq<PeerRecord>, kept: seq<PeerRecord>)
    requires OneRecordPerId(peers) && peers != [] && OneRecordPerId(kept)
    requires forall p :: p in kept ==> p in peers[1..]
    ensures OneRecordPerId([peers[0]] + kept)
  {
    forall i | 0 <= i < |kept| ensures kept[i].node.id != peers[0].node.id {
      assert kept[i] in peers[1..];
      var j :| 0 <= j < |peers| - 1 && peers[1..][j] == kept[i];
      assert peers[j + 1] == kept[i];
    }
  }

  /** With one record per node id in the registry, no call sends a node the same bundle twice. */
  lemma {:induction false} RouteSendsOnce(self: Uuid, peers: seq<Uuid>, s: seq<Bundle>, b: Bundle, w: World,
                                          capacity: nat)
    requires WellFormed(s, capacity) && OneRecordPerId(w.registry)
    ensures Once(Route(self, peers, s, b, w, capacity).sent)
  {
    if b.kind.Ack? {
      ReachableIsOnce(w, self, Including(peers, b.destination.id));
      FloodIsOnce([b], Reachable(w, self, Including(peers, b.destination.id)), w);
    } else {
      var targets := Reachable(w, self, Including(peers, b.source.id));
      ReachableIsOnce(w, self, Including(peers, b.source.id));
      FloodIsOnce([NewAck(b.(status := Delivered), w.freshId, w.now)], targets, w);
      var t := Save(s, b, w.now, capacity).0;
      SaveKeeps(s, b, w.now, capacity);
      FilterKeepsDistinct(t, IsPending());
      FloodIsOnce(Filter(t, IsPending()), targets, w);
    }
  }

  lemma {:induction false} RetrySendsOnce(self: Uuid, peers: seq<Uuid>, s: seq<Bundle>, w: World)
    requires Distinct(s) && OneRecordPerId(w.registry)
    ensures Once(NodeStep.Retry(self, peers, s, w).1)
  {
    FilterKeepsDistinct(s, IsRetryable());
    ReachableIsOnce(w, self, peers);
    FloodIsOnce(Filter(s, IsRetryable()), Reachable(w, self, peers), w);
  }
}
